# Issue tracker domain model in Dafny

This project models the in-memory issue tracker of `src/TrackerAppMain.java`
as immutable Dafny datatypes and pure update functions, and proves what its
operations promise:

- users: plain members and managers. A manager starts with the role
  "Manager".
- issues: plain issues and bugs. A bug carries a fixed criticality flag.
  Every issue starts in status "NEW" with no assignee.
- last-write-wins mutators: `setRole` and `setEmail` on users;
  `assignTo` and `changeStatus` on issues. Status is a free label: any label
  can follow any label, and no status is terminal.
- the project aggregate: an ordered team and an ordered backlog. Appends
  are not de-duplicated.
- the severity query: the backlog issues whose severity equals the
  argument ignoring case, kept in backlog order.
- the dashboard: as data, the project header followed by one summary per
  backlog issue, in insertion order.
- the tracker service: the two `createIssue` overloads, `assign` and
  `updateStatus`.
- the fixed demonstration run of `main`, with its end state.

Modules, one per component:

| file | module | contents |
|---|---|---|
| base.dfy | `Base` | `Option` (a nullable reference), `Int32` (Java `int`) |
| ascii.dfy | `Ascii` | `equalsIgnoreCase` over ASCII letters |
| users.dfy | `Users` | `User` / `Manager` and their mutators |
| issues.dfy | `Issues` | `Issue` / `Bug`, their mutators, `approveIssue`, per-variant summaries |
| projects.dfy | `Projects` | `Project`, `addUser`, `addIssue`, the severity query, the dashboard |
| tracker.dfy | `Tracker` | the `TrackerService` operations |
| scenario.dfy | `Scenario` | the run in `main` and its outcome |

Java objects are references: `main` mutates issues after adding them to the
project, and the backlog sees those mutations. In this value model,
`Projects.UpdateIssueAt` replaces the backlog entry at one index with the
mutated issue, so the run goes through the service and then through the
backlog. Each backlog position is treated as a distinct issue object; see
"## Left out" for what that does not cover.

`Manager` inherits `setRole` without overriding it, so a manager's role is
"Manager" only until `setRole` is called. `Users.SetRole` works the same way
on both variants.

## Model

| member | source | states |
|---|---|---|
| Users.NewUser | src/TrackerAppMain.java:10-15 | a new user is a plain member whose id, name, role and email are the constructor arguments |
| Users.NewManager | src/TrackerAppMain.java:31-33 | a new manager keeps the given id, name and email, and its role is "Manager" |
| Users.SetRole | src/TrackerAppMain.java:21 | after `setRole` the role is the argument; variant, id, name and email are unchanged |
| Users.SetEmail | src/TrackerAppMain.java:22 | after `setEmail` the email is the argument; variant, id, name and role are unchanged |
| Users.SetRoleLastWriteWins | src/TrackerAppMain.java:21 | two role writes leave only the second; writing the current role is a no-op |
| Users.SetEmailLastWriteWins | src/TrackerAppMain.java:22 | two email writes leave only the second; writing the current email is a no-op |
| Users.SetRoleSetEmailCommute | src/TrackerAppMain.java:21-22 | the two user mutators commute because they write different fields |
| Users.UserLastWriteWins | src/TrackerAppMain.java:17-22 | after any history of role and email writes, id, name and variant are as built, and each field holds the last value written to it, or its old value if never written |
| Ascii.EqualsIgnoreCase | src/TrackerAppMain.java:121 | `String.equalsIgnoreCase` over ASCII: equal lengths and, position by position, characters that are equal, have equal upper cases, or have equal lower cases of their upper cases |
| Ascii.EqualsIgnoreCaseIff | src/TrackerAppMain.java:121 | the per-character `equalsIgnoreCase` test holds exactly when the two lower-cased strings are equal (both directions) |
| Ascii.EqualsIgnoreCaseIsEquivalence | src/TrackerAppMain.java:121 | `equalsIgnoreCase` is reflexive, symmetric and transitive |
| Issues.NewIssue | src/TrackerAppMain.java:54-60 | a new issue is a plain issue with the given id, title, description and severity, status "NEW" and no assignee |
| Issues.NewBug | src/TrackerAppMain.java:88-91 | a new bug has the given fields and criticality flag, status "NEW" and no assignee |
| Issues.AssignTo | src/TrackerAppMain.java:69-72 | after `assignTo(u)` the assignee is `u`, whoever held it before; status and all fixed fields are unchanged |
| Issues.ChangeStatus | src/TrackerAppMain.java:74-77 | after `changeStatus(s)` the status is `s`, for any label and from any status; the assignee and all fixed fields are unchanged |
| Issues.AssignToLastWriteWins | src/TrackerAppMain.java:69-72 | assigning u1 then u2 leaves u2; assigning the same user twice equals assigning once |
| Issues.ChangeStatusLastWriteWins | src/TrackerAppMain.java:74-77 | status s1 then s2 leaves s2, for every pair of labels including equal ones; writing the current status is a no-op |
| Issues.AssignChangeStatusCommute | src/TrackerAppMain.java:69-77 | assignment and status change commute |
| Issues.IssueLastWriteWins | src/TrackerAppMain.java:46-77 | after any interleaving of assignments and status changes, the fixed fields never change; the status is the last label written and the assignee the last user assigned, each defaulting to its old value |
| Issues.ApproveIssue | src/TrackerAppMain.java:40-42 | a manager's approval leaves both the manager and the issue unchanged |
| Issues.Summarize | src/TrackerAppMain.java:79-96 | a plain issue is summarised by id, title, severity and status; a bug by title, criticality and status |
| Issues.SummaryDependsOnFixedFieldsAndStatus | src/TrackerAppMain.java:79-96 | a summary never shows the assignee: issues that agree on fixed fields and status have equal summaries |
| Projects.NewProject | src/TrackerAppMain.java:107-113 | a new project has the given id, name and repository URL, an empty backlog and an empty team |
| Projects.AddUser | src/TrackerAppMain.java:115 | the team grows by one, the old team is an unchanged prefix, the new user is last, and the backlog and header are untouched |
| Projects.AddIssue | src/TrackerAppMain.java:116 | the backlog grows by one, the old backlog is an unchanged prefix, the new issue is last, and the team and header are untouched |
| Projects.AddDoesNotDeduplicate | src/TrackerAppMain.java:115-116 | appending raises the multiplicity of the added element by one even when it is already present |
| Projects.UpdateIssueAt | src/TrackerAppMain.java:178-185 | a mutation of the issue held at one backlog position is seen at that position; every other position, the team and the header are unchanged (positions are treated as distinct objects) |
| Projects.ListIssuesBySeverity | src/TrackerAppMain.java:118-125 | one in-order pass over the backlog yields an order-preserving subsequence, and a backlog issue is selected exactly when its severity matches ignoring case |
| Projects.BySeverity | src/TrackerAppMain.java:120-124 | the recursive filter over the backlog; its own contract states only that the result is no longer than the backlog, and the lemmas below pin order, membership and multiplicities |
| Projects.BySeverityIsSubsequence | src/TrackerAppMain.java:120-124 | the query result keeps backlog order |
| Projects.BySeverityCount | src/TrackerAppMain.java:120-124 | every matching issue appears in the result exactly as often as in the backlog; every other issue never appears |
| Projects.BySeverityMembers | src/TrackerAppMain.java:121 | an issue is in the result exactly when it is in the backlog and its severity matches ignoring case |
| Projects.BySeverityIgnoresCase | src/TrackerAppMain.java:121 | two query arguments equal ignoring case give the same result |
| Projects.BySeverityAppend | src/TrackerAppMain.java:120-124 | the query over two concatenated backlogs is the concatenation of the two results |
| Projects.BySeverityIdempotent | src/TrackerAppMain.java:118-125 | querying the query's own result again changes nothing |
| Projects.ListAfterAdd | src/TrackerAppMain.java:115-125 | after `addIssue(i)` the result is the old result, followed by `i` when `i` matches; `addUser` does not change it |
| Projects.DashboardOf | src/TrackerAppMain.java:127-133 | the dashboard shows the project header and the summary of every backlog issue exactly once, in insertion order |
| Projects.DashboardAfterAdd | src/TrackerAppMain.java:115-133 | `addIssue` appends one summary and keeps the rest; `addUser` leaves the dashboard unchanged |
| Projects.DashboardAfterEdits | src/TrackerAppMain.java:127-133 | any history of edits to the issue at one backlog position keeps the dashboard's length and order; that position's line shows the last status written, and the lines of all other positions (treated as distinct objects) are unchanged |
| Tracker.TaggedDescription | src/TrackerAppMain.java:143 | the tagged description splits back into the original description, " [Tag=", the tag and a closing "]" |
| Tracker.TaggedDescriptionInjective | src/TrackerAppMain.java:143 | given the original description's length, the tagged description determines both the description and the tag |
| Tracker.CreateIssue | src/TrackerAppMain.java:138-140 | the untagged overload yields a plain "NEW", unassigned issue that keeps every argument verbatim |
| Tracker.CreateTaggedIssue | src/TrackerAppMain.java:142-144 | the tagged overload passes id, title and severity through, and its description carries the tag |
| Tracker.CreateOverloadsAgree | src/TrackerAppMain.java:138-144 | the two overloads build the same issue except for the description |
| Tracker.TaggedExample | src/TrackerAppMain.java:142-144 | description "D" with tag "UI" becomes "D [Tag=UI]" |
| Tracker.Assign | src/TrackerAppMain.java:146-148 | `assign` is `assignTo`: the assignee becomes the user and nothing else changes |
| Tracker.UpdateStatus | src/TrackerAppMain.java:150-152 | `updateStatus` is `changeStatus`: the status becomes the label and nothing else changes |
| Scenario.Seeded | src/TrackerAppMain.java:159-176 | after setup the team is Alice, Bob, Charlie in joining order, and the three issues are in insertion order, "NEW" and unassigned |
| Scenario.AssignAll | src/TrackerAppMain.java:178-180 | the three assignments give issues 1 and 3 to Alice and issue 2 to Bob, and leave them "NEW" |
| Scenario.UpdateAll | src/TrackerAppMain.java:182-187 | the status updates and the approval leave issue 1 RESOLVED, issue 2 IN_PROGRESS and issue 3 CLOSED |
| Scenario.RunMain | src/TrackerAppMain.java:159-187 | the whole run ends with the three users in the team and the three issues holding their last statuses and assignees |
| Scenario.MainScenarioTaggedDescription | src/TrackerAppMain.java:171 | issue 2's description is "App crashes when saving [Tag=UI]" |
| Scenario.MainScenarioDashboard | src/TrackerAppMain.java:189 | the final dashboard lists issues 1, 2 and 3 in that order, with statuses RESOLVED, IN_PROGRESS and CLOSED |
| Scenario.MainScenarioHighQuery | src/TrackerAppMain.java:190 | at the end of the run, "High", "high" and "HIGH" each select exactly issue 1 |
| Scenario.MainScenarioCriticalQuery | src/TrackerAppMain.java:191 | at the end of the run, "Critical" selects exactly the bug |

## Left out

- Console output: the `display()` renderings, the assignment, status and approval messages, and the dashboard and query headers. Summaries are kept as data in `Issues.Summarize`, and the text formatting is not modelled. `User.display()` and `Manager.display()` are left out entirely, because nothing in the core calls them.
- Unicode case folding: `Ascii` folds only `A`..`Z` and `a`..`z`. Java's `equalsIgnoreCase` also folds non-ASCII letters and counts lengths in UTF-16 code units.
- Reference identity: an issue's assignee is a copy of the user value. A later `setRole` or `setEmail` on that user is not seen through the issue, unlike in Java.
- Null: strings are never null. `assignTo(null)` would throw when it prints the user's name, so `Issues.AssignTo` takes a real user, and `approveIssue(null)` is excluded the same way.
- Id uniqueness: the code never checks it, so no operation assumes or preserves it.
- Projects.UpdateIssueAt, Projects.DashboardAfterEdits: each backlog position is treated as a distinct issue object. In Java an issue appended twice is one object at two positions, so a mutation shows at all of its positions; here it changes only the position that is updated.
- Projects.BySeverity: its own contract bounds only the length of the result. Order, membership and multiplicities are stated by `Projects.BySeverityIsSubsequence`, `Projects.BySeverityMembers` and `Projects.BySeverityCount`.
