/** The project aggregate: an ordered team and an ordered backlog, the
    severity query over the backlog, and the dashboard traversal. */
module Projects {
  import opened Base
  import opened Ascii
  import opened Users
  import opened Issues

  /** A project. `backlog` and `team` keep insertion order and may hold
      duplicates; nothing checks that ids are unique. */
  datatype Project = Project(projectId: Int32, name: string, repoUrl: string,
                             backlog: seq<Issue>, team: seq<User>)

  /** The identity fields of a project, which nothing changes. */
  predicate SameHeader(p: Project, q: Project)
  {
    p.projectId == q.projectId && p.name == q.name && p.repoUrl == q.repoUrl
  }

  /** `r` is `xs` with some elements dropped and the rest kept in order. */
  ghost predicate IsSubsequence<T>(r: seq<T>, xs: seq<T>)
    decreases |xs|
  {
    if r == [] then true
    else if xs == [] then false
    else (r[0] == xs[0] && IsSubsequence(r[1..], xs[1..])) || IsSubsequence(r, xs[1..])
  }

  /** `new Project(projectId, name, repoUrl)`: empty backlog and team. */
  function NewProject(projectId: Int32, name: string, repoUrl: string): (p: Project)
    ensures p.projectId == projectId && p.name == name && p.repoUrl == repoUrl
    ensures |p.backlog| == 0 && |p.team| == 0
  {
    Project(projectId, name, repoUrl, [], [])
  }

  /** `addUser(u)`: the team grows by exactly `u`, at the end, whether or not
      it is already a member; everything before it stays. */
  function AddUser(p: Project, u: User): (q: Project)
    ensures SameHeader(p, q) && q.backlog == p.backlog
    ensures |q.team| == |p.team| + 1
    ensures q.team[..|p.team|] == p.team && q.team[|p.team|] == u
  {
    p.(team := p.team + [u])
  }

  /** `addIssue(i)`: the backlog grows by exactly `i`, at the end, whether or
      not an equal issue is already there; everything before it stays. */
  function AddIssue(p: Project, i: Issue): (q: Project)
    ensures SameHeader(p, q) && q.team == p.team
    ensures |q.backlog| == |p.backlog| + 1
    ensures q.backlog[..|p.backlog|] == p.backlog && q.backlog[|p.backlog|] == i
  {
    p.(backlog := p.backlog + [i])
  }

  /** Appending does not de-duplicate: adding a user or an issue already
      present raises its count by one, and leaves every other count alone. */
  lemma AddDoesNotDeduplicate(p: Project, u: User, i: Issue)
    ensures multiset(AddUser(p, u).team) == multiset(p.team) + multiset{u}
    ensures multiset(AddIssue(p, i).backlog) == multiset(p.backlog) + multiset{i}
    ensures u in p.team ==> multiset(AddUser(p, u).team)[u] >= 2
    ensures i in p.backlog ==> multiset(AddIssue(p, i).backlog)[i] >= 2
  {
  }

  /** The backlog holds references: a mutation of an issue after it was added
      is seen through the backlog. In this value model that is the
      replacement of the backlog entry at `k` by the mutated issue. */
  function UpdateIssueAt(p: Project, k: nat, i: Issue): (q: Project)
    requires k < |p.backlog|
    ensures SameHeader(p, q) && q.team == p.team
    ensures |q.backlog| == |p.backlog| && q.backlog[k] == i
    ensures forall j :: 0 <= j < |p.backlog| && j != k ==> q.backlog[j] == p.backlog[j]
  {
    p.(backlog := p.backlog[k := i])
  }

  /** The test in `listIssuesBySeverity`: the issue's severity equals the
      argument ignoring case. */
  predicate MatchesSeverity(i: Issue, severity: string)
  {
    EqualsIgnoreCase(i.severity, severity)
  }

  /** The issues of `xs` whose severity matches, in their order in `xs`. */
  function BySeverity(xs: seq<Issue>, severity: string): (r: seq<Issue>)
    ensures |r| <= |xs|
  {
    if xs == [] then []
    else if MatchesSeverity(xs[0], severity) then [xs[0]] + BySeverity(xs[1..], severity)
    else BySeverity(xs[1..], severity)
  }

  /** `listIssuesBySeverity(severity)` without its printing: one pass over
      the backlog in order, keeping the matching issues. */
  method ListIssuesBySeverity(p: Project, severity: string) returns (matches: seq<Issue>)
    ensures matches == BySeverity(p.backlog, severity)
    ensures IsSubsequence(matches, p.backlog)
    ensures forall x :: x in p.backlog ==> (x in matches <==> MatchesSeverity(x, severity))
  {
    matches := [];
    for k := 0 to |p.backlog|
      invariant matches == BySeverity(p.backlog[..k], severity)
    {
      var i := p.backlog[k];
      if MatchesSeverity(i, severity) {
        matches := matches + [i];
      }
      BySeverityAppend(p.backlog[..k], [i], severity);
      assert BySeverity([i], severity) == if MatchesSeverity(i, severity) then [i] else [] by {
        assert [i][1..] == [];
      }
      assert p.backlog[..k + 1] == p.backlog[..k] + [i];
    }
    assert p.backlog[..|p.backlog|] == p.backlog;
    BySeverityIsSubsequence(p.backlog, severity);
    forall x | x in p.backlog
      ensures x in matches <==> MatchesSeverity(x, severity)
    {
      BySeverityMembers(p.backlog, severity, x);
    }
  }

  /** The query distributes over concatenation of backlogs. */
  lemma {:induction false} BySeverityAppend(a: seq<Issue>, b: seq<Issue>, severity: string)
    ensures BySeverity(a + b, severity) == BySeverity(a, severity) + BySeverity(b, severity)
    decreases |a|
  {
    if a == [] {
      assert a + b == b;
    } else {
      var ab := a + b;
      assert ab[0] == a[0] && ab[1..] == a[1..] + b;
      BySeverityAppend(a[1..], b, severity);
      var rest := BySeverity(a[1..], severity) + BySeverity(b, severity);
      if MatchesSeverity(a[0], severity) {
        assert BySeverity(ab, severity) == [a[0]] + rest;
        assert BySeverity(a, severity) == [a[0]] + BySeverity(a[1..], severity);
      } else {
        assert BySeverity(ab, severity) == rest;
        assert BySeverity(a, severity) == BySeverity(a[1..], severity);
      }
    }
  }

  /** The query keeps backlog order: its result is a subsequence. */
  lemma {:induction false} BySeverityIsSubsequence(xs: seq<Issue>, severity: string)
    ensures IsSubsequence(BySeverity(xs, severity), xs)
    decreases |xs|
  {
    if xs != [] {
      BySeverityIsSubsequence(xs[1..], severity);
      var r := BySeverity(xs, severity);
      if MatchesSeverity(xs[0], severity) {
        assert r[0] == xs[0] && r[1..] == BySeverity(xs[1..], severity);
      } else if r != [] {
        assert r == BySeverity(xs[1..], severity);
      }
    }
  }

  /** The query keeps every matching issue as often as the backlog holds it
      and drops every other one: exact multiplicities, duplicates included. */
  lemma {:induction false} BySeverityCount(xs: seq<Issue>, severity: string, x: Issue)
    ensures multiset(BySeverity(xs, severity))[x]
         == (if MatchesSeverity(x, severity) then multiset(xs)[x] else 0)
    decreases |xs|
  {
    if xs != [] {
      BySeverityCount(xs[1..], severity, x);
      assert xs == [xs[0]] + xs[1..];
      assert multiset(xs) == multiset{xs[0]} + multiset(xs[1..]);
    }
  }

  /** An issue is in the answer exactly when it is in the backlog and its
      severity matches. */
  lemma BySeverityMembers(xs: seq<Issue>, severity: string, x: Issue)
    ensures x in BySeverity(xs, severity) <==> x in xs && MatchesSeverity(x, severity)
  {
    BySeverityCount(xs, severity, x);
  }

  /** Querying with two severities that are equal ignoring case gives the
      same answer: "high" selects what "High" selects. */
  lemma {:induction false} BySeverityIgnoresCase(xs: seq<Issue>, s: string, t: string)
    requires EqualsIgnoreCase(s, t)
    ensures BySeverity(xs, s) == BySeverity(xs, t)
    decreases |xs|
  {
    if xs != [] {
      EqualsIgnoreCaseIsEquivalence(xs[0].severity, s, t);
      EqualsIgnoreCaseIsEquivalence(xs[0].severity, t, s);
      EqualsIgnoreCaseIsEquivalence(s, t, t);
      BySeverityIgnoresCase(xs[1..], s, t);
    }
  }

  /** Asking the query again of its own answer changes nothing. */
  lemma {:induction false} BySeverityIdempotent(xs: seq<Issue>, severity: string)
    ensures BySeverity(BySeverity(xs, severity), severity) == BySeverity(xs, severity)
    decreases |xs|
  {
    if xs != [] {
      BySeverityIdempotent(xs[1..], severity);
      if MatchesSeverity(xs[0], severity) {
        var r := BySeverity(xs, severity);
        assert r[0] == xs[0] && r[1..] == BySeverity(xs[1..], severity);
      }
    }
  }

  /** After `addIssue(i)` the query answers what it answered before, followed
      by `i` when `i` matches. `addUser` does not affect it at all. */
  lemma ListAfterAdd(p: Project, i: Issue, u: User, severity: string)
    ensures BySeverity(AddIssue(p, i).backlog, severity)
         == BySeverity(p.backlog, severity) + (if MatchesSeverity(i, severity) then [i] else [])
    ensures BySeverity(AddUser(p, u).backlog, severity) == BySeverity(p.backlog, severity)
  {
    BySeverityAppend(p.backlog, [i], severity);
  }

  /** What `dashboard()` shows, as data: the project header and one summary
      per backlog issue. */
  datatype Dashboard = Dashboard(projectId: Int32, name: string, repoUrl: string,
                                 lines: seq<Summary>)

  /** The summaries of `xs`, one per issue, in order. */
  function Summaries(xs: seq<Issue>): (ls: seq<Summary>)
    ensures |ls| == |xs|
    ensures forall k :: 0 <= k < |xs| ==> ls[k] == Summarize(xs[k])
  {
    if xs == [] then [] else [Summarize(xs[0])] + Summaries(xs[1..])
  }

  /** `dashboard()`: the header of the project, then every backlog issue
      exactly once, in insertion order. */
  function DashboardOf(p: Project): (d: Dashboard)
    ensures d.projectId == p.projectId && d.name == p.name && d.repoUrl == p.repoUrl
    ensures |d.lines| == |p.backlog|
    ensures forall k :: 0 <= k < |p.backlog| ==> d.lines[k] == Summarize(p.backlog[k])
  {
    Dashboard(p.projectId, p.name, p.repoUrl, Summaries(p.backlog))
  }

  /** `addIssue(i)` appends the summary of `i` to the dashboard and leaves the
      rest as it was; `addUser` leaves the dashboard alone. */
  lemma DashboardAfterAdd(p: Project, i: Issue, u: User)
    ensures DashboardOf(AddIssue(p, i)).lines == DashboardOf(p).lines + [Summarize(i)]
    ensures DashboardOf(AddUser(p, u)) == DashboardOf(p)
  {
  }

  /** Any history of assignments and status changes on the backlog issue at
      `k` leaves the dashboard's order and every other line alone; the line
      at `k` differs only in showing the last status written. */
  lemma DashboardAfterEdits(p: Project, k: nat, es: seq<Edit>)
    requires k < |p.backlog|
    ensures var q := UpdateIssueAt(p, k, ApplyEdits(p.backlog[k], es));
            var before := DashboardOf(p).lines;
            var after := DashboardOf(q).lines;
            && |after| == |before|
            && (forall j :: 0 <= j < |before| && j != k ==> after[j] == before[j])
            && after[k] == Summarize(p.backlog[k].(status := LastStatus(es, p.backlog[k].status)))
  {
    var i := p.backlog[k];
    IssueLastWriteWins(i, es);
    SummaryDependsOnFixedFieldsAndStatus(ApplyEdits(i, es), i.(status := LastStatus(es, i.status)));
  }
}
