/** The fixed demonstration run of the tracker, with the outcome it reaches. */
module Scenario {
  import opened Base
  import opened Ascii
  import opened Users
  import opened Issues
  import opened Projects
  import opened Tracker

  /** The three users of the run. */
  function Alice(): User { NewUser(101, "Alice", "Dev", "alice@company.com") }
  function Bob(): User { NewUser(102, "Bob", "QA", "bob@company.com") }
  function Charlie(): User { NewManager(103, "Charlie", "charlie@company.com") }

  /** The project after the users and the three issues are added and before
      any issue is touched: the team in joining order, and the backlog in
      insertion order with every issue "NEW" and unassigned. */
  function Seeded(): (p: Project)
    ensures p.projectId == 1 && p.name == "BugTracker" && p.repoUrl == "https://github.com/bugtracker"
    ensures p.team == [Alice(), Bob(), Charlie()]
    ensures |p.backlog| == 3
    ensures forall k :: 0 <= k < 3 ==> p.backlog[k] == FinalBacklog()[k].(status := InitialStatus, assignee := None)
  {
    var p := NewProject(1, "BugTracker", "https://github.com/bugtracker");
    var p := AddUser(AddUser(AddUser(p, Alice()), Bob()), Charlie());
    var i1 := CreateIssue(1, "Login Bug", "Login fails intermittently", "High");
    var i2 := CreateTaggedIssue(2, "Crash on Save", "App crashes when saving", "Medium", "UI");
    var i3 := NewBug(3, "Data Loss", "File not saving properly", "Critical", true);
    AddIssue(AddIssue(AddIssue(p, i1), i2), i3)
  }

  /** The three issues as the run leaves them. */
  function FinalBacklog(): seq<Issue>
  {
    [Issue(1, "Login Bug", "Login fails intermittently", "High", "RESOLVED", Some(Alice())),
     Issue(2, "Crash on Save", TaggedDescription("App crashes when saving", "UI"), "Medium", "IN_PROGRESS", Some(Bob())),
     Bug(3, "Data Loss", "File not saving properly", "Critical", "CLOSED", Some(Alice()), true)]
  }

  /** The description issue 2 ends up with. */
  lemma MainScenarioTaggedDescription()
    ensures FinalBacklog()[1].description == "App crashes when saving [Tag=UI]"
  {
  }

  /** The first half of the run: the service assigns issue 1 to Alice,
      issue 2 to Bob and issue 3 to Alice, through the backlog's references.
      Each issue has its assignee and is still "NEW". */
  method AssignAll(p0: Project) returns (p: Project)
    requires |p0.backlog| == 3
    requires forall k :: 0 <= k < 3 ==> p0.backlog[k] == FinalBacklog()[k].(status := InitialStatus, assignee := None)
    ensures SameHeader(p0, p) && p.team == p0.team
    ensures |p.backlog| == 3
    ensures forall k :: 0 <= k < 3 ==> p.backlog[k] == FinalBacklog()[k].(status := InitialStatus)
  {
    p := UpdateIssueAt(p0, 0, Assign(p0.backlog[0], Alice()));
    p := UpdateIssueAt(p, 1, Assign(p.backlog[1], Bob()));
    p := UpdateIssueAt(p, 2, Assign(p.backlog[2], Alice()));
  }

  /** The second half of the run: the service moves issue 1 to IN_PROGRESS
      then RESOLVED, issue 2 to IN_PROGRESS and issue 3 to CLOSED, and the
      manager approves issue 1, which leaves it as it is. */
  method UpdateAll(p0: Project) returns (p: Project)
    requires |p0.backlog| == 3
    requires forall k :: 0 <= k < 3 ==> p0.backlog[k] == FinalBacklog()[k].(status := InitialStatus)
    ensures SameHeader(p0, p) && p.team == p0.team
    ensures p.backlog == FinalBacklog()
  {
    p := UpdateIssueAt(p0, 0, UpdateStatus(p0.backlog[0], "IN_PROGRESS"));
    p := UpdateIssueAt(p, 0, UpdateStatus(p.backlog[0], "RESOLVED"));
    p := UpdateIssueAt(p, 1, UpdateStatus(p.backlog[1], "IN_PROGRESS"));
    p := UpdateIssueAt(p, 2, UpdateStatus(p.backlog[2], "CLOSED"));
    var (_, approved) := ApproveIssue(Charlie(), p.backlog[0]);
    p := UpdateIssueAt(p, 0, approved);
  }

  /** The run itself: seed the project, then assign and update the issues.
      Every issue ends with its last status and its assignee, in insertion
      order; the team is the three users in the order they joined. */
  method RunMain() returns (p: Project)
    ensures p.projectId == 1 && p.name == "BugTracker" && p.repoUrl == "https://github.com/bugtracker"
    ensures p.team == [Alice(), Bob(), Charlie()] && p.team[2].role == "Manager"
    ensures p.backlog == FinalBacklog()
  {
    p := Seeded();
    p := AssignAll(p);
    p := UpdateAll(p);
  }

  /** The dashboard at the end of the run lists the three issues in
      insertion order, with statuses RESOLVED, IN_PROGRESS and CLOSED. */
  lemma MainScenarioDashboard(p: Project)
    requires p.backlog == FinalBacklog()
    ensures DashboardOf(p).lines
         == [IssueLine(1, "Login Bug", "High", "RESOLVED"),
             IssueLine(2, "Crash on Save", "Medium", "IN_PROGRESS"),
             BugLine("Data Loss", true, "CLOSED")]
  {
  }

  /** The tail of the query over the final backlog: neither the "Medium"
      issue nor the "Critical" bug matches a four-letter severity. */
  lemma QueryTail(severity: string)
    requires |severity| == 4
    ensures BySeverity(FinalBacklog()[1..], severity) == []
  {
    var xs := FinalBacklog()[1..];
    assert !MatchesSeverity(xs[0], severity);
    assert xs[1..][0] == FinalBacklog()[2];
    assert !MatchesSeverity(xs[1..][0], severity);
    assert xs[1..][1..] == [];
  }

  /** At the end of the run, the "High" query finds exactly the first issue,
      whatever the letter case of the argument. */
  lemma MainScenarioHighQuery(severity: string)
    requires severity == "High" || severity == "high" || severity == "HIGH"
    ensures BySeverity(FinalBacklog(), severity) == [FinalBacklog()[0]]
  {
    var xs := FinalBacklog();
    assert MatchesSeverity(xs[0], severity) by {
      assert CharEqualsIgnoreCase(xs[0].severity[0], severity[0]);
      assert CharEqualsIgnoreCase(xs[0].severity[1], severity[1]);
      assert CharEqualsIgnoreCase(xs[0].severity[2], severity[2]);
      assert CharEqualsIgnoreCase(xs[0].severity[3], severity[3]);
    }
    QueryTail(severity);
  }

  /** At the end of the run, the "Critical" query finds exactly the bug. */
  lemma MainScenarioCriticalQuery()
    ensures BySeverity(FinalBacklog(), "Critical") == [FinalBacklog()[2]]
  {
    var xs := FinalBacklog();
    assert !MatchesSeverity(xs[0], "Critical");
    assert !MatchesSeverity(xs[1], "Critical");
    assert MatchesSeverity(xs[2], "Critical");
    assert xs[1..][1..] == [xs[2]];
    assert xs[1..][1..][1..] == [];
  }
}
