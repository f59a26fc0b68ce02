/** Issues: a plain issue or a bug, with their last-write-wins mutators and
    the per-variant summary a dashboard shows for each. */
module Issues {
  import opened Base
  import opened Users

  /** An issue. `Bug` is the Java subclass, which adds an immutable
      criticality flag. The assignee is a user value, `None` while unassigned. */
  datatype Issue =
    | Issue(issueId: Int32, title: string, description: string, severity: string,
            status: string, assignee: Option<User>)
    | Bug(issueId: Int32, title: string, description: string, severity: string,
          status: string, assignee: Option<User>, isCritical: bool)

  /** The status every issue starts in. */
  const InitialStatus: string := "NEW"

  /** The fields no operation changes after construction: variant, id, title,
      description, severity and, for a bug, its criticality. */
  predicate SameFixedFields(i: Issue, j: Issue)
  {
    && i.Bug? == j.Bug?
    && i.issueId == j.issueId
    && i.title == j.title
    && i.description == j.description
    && i.severity == j.severity
    && (i.Bug? && j.Bug? ==> i.isCritical == j.isCritical)
  }

  /** `new Issue(issueId, title, description, severity)`. */
  function NewIssue(issueId: Int32, title: string, description: string, severity: string): (i: Issue)
    ensures i.Issue?
    ensures i.issueId == issueId && i.title == title
    ensures i.description == description && i.severity == severity
    ensures i.status == InitialStatus && i.assignee == None
  {
    Issue(issueId, title, description, severity, InitialStatus, None)
  }

  /** `new Bug(id, title, desc, severity, isCritical)`. */
  function NewBug(issueId: Int32, title: string, description: string, severity: string,
                  isCritical: bool): (i: Issue)
    ensures i.Bug?
    ensures i.issueId == issueId && i.title == title
    ensures i.description == description && i.severity == severity
    ensures i.isCritical == isCritical
    ensures i.status == InitialStatus && i.assignee == None
  {
    Bug(issueId, title, description, severity, InitialStatus, None, isCritical)
  }

  /** `assignTo(user)`: replaces the assignee, whoever held it before. */
  function AssignTo(i: Issue, user: User): (j: Issue)
    ensures j.assignee == Some(user)
    ensures j.status == i.status && SameFixedFields(i, j)
  {
    i.(assignee := Some(user))
  }

  /** `changeStatus(newStatus)`: any label is accepted from any status,
      including the current one; no status is terminal. */
  function ChangeStatus(i: Issue, newStatus: string): (j: Issue)
    ensures j.status == newStatus
    ensures j.assignee == i.assignee && SameFixedFields(i, j)
  {
    i.(status := newStatus)
  }

  /** Assigning u1 then u2 leaves u2; assigning the same user again is a no-op. */
  lemma AssignToLastWriteWins(i: Issue, u1: User, u2: User)
    ensures AssignTo(AssignTo(i, u1), u2) == AssignTo(i, u2)
    ensures AssignTo(AssignTo(i, u1), u1) == AssignTo(i, u1)
  {
  }

  /** Status s1 then s2 leaves s2, for every pair of labels (s1 == s2 included);
      writing the current status changes nothing. */
  lemma ChangeStatusLastWriteWins(i: Issue, s1: string, s2: string)
    ensures ChangeStatus(ChangeStatus(i, s1), s2) == ChangeStatus(i, s2)
    ensures ChangeStatus(i, i.status) == i
  {
  }

  /** Assignment and status change touch different fields and commute. */
  lemma AssignChangeStatusCommute(i: Issue, u: User, s: string)
    ensures ChangeStatus(AssignTo(i, u), s) == AssignTo(ChangeStatus(i, s), u)
  {
  }

  /** A call of one of the two issue mutators. */
  datatype Edit = AssignCall(user: User) | StatusCall(newStatus: string)

  /** Applies one mutator call. */
  function ApplyEdit(i: Issue, e: Edit): Issue
  {
    match e
    case AssignCall(u) => AssignTo(i, u)
    case StatusCall(s) => ChangeStatus(i, s)
  }

  /** Applies a history of mutator calls, first to last. */
  function ApplyEdits(i: Issue, es: seq<Edit>): Issue
    decreases |es|
  {
    if es == [] then i else ApplyEdits(ApplyEdit(i, es[0]), es[1..])
  }

  /** The label of the last `StatusCall` in `es`, or `current` if there is none. */
  function LastStatus(es: seq<Edit>, current: string): string
  {
    if es == [] then current
    else if es[|es| - 1].StatusCall? then es[|es| - 1].newStatus
    else LastStatus(es[..|es| - 1], current)
  }

  /** The user of the last `AssignCall` in `es`, or `current` if there is none. */
  function LastAssignee(es: seq<Edit>, current: Option<User>): Option<User>
  {
    if es == [] then current
    else if es[|es| - 1].AssignCall? then Some(es[|es| - 1].user)
    else LastAssignee(es[..|es| - 1], current)
  }

  /** Scanning from the back agrees with peeling one edit off the front. */
  lemma {:induction false} LastFieldsCons(e: Edit, es: seq<Edit>, status: string, assignee: Option<User>)
    ensures LastStatus([e] + es, status) == LastStatus(es, if e.StatusCall? then e.newStatus else status)
    ensures LastAssignee([e] + es, assignee) == LastAssignee(es, if e.AssignCall? then Some(e.user) else assignee)
    decreases |es|
  {
    if es != [] {
      var n := |es|;
      assert ([e] + es)[..n] == [e] + es[..n - 1];
      assert ([e] + es)[n] == es[n - 1];
      LastFieldsCons(e, es[..n - 1], status, assignee);
    }
  }

  /** Whatever history of `assignTo`/`changeStatus` calls an issue undergoes,
      its fixed fields never change, its status is the last label written (or
      the one it had), and its assignee is the last user assigned (or the one
      it had). */
  lemma {:induction false} IssueLastWriteWins(i: Issue, es: seq<Edit>)
    ensures SameFixedFields(i, ApplyEdits(i, es))
    ensures ApplyEdits(i, es).status == LastStatus(es, i.status)
    ensures ApplyEdits(i, es).assignee == LastAssignee(es, i.assignee)
    decreases |es|
  {
    if es != [] {
      var j := ApplyEdit(i, es[0]);
      IssueLastWriteWins(j, es[1..]);
      assert es == [es[0]] + es[1..];
      LastFieldsCons(es[0], es[1..], i.status, i.assignee);
    }
  }

  /** `Manager.approveIssue(issue)`: only announces the approval, so both the
      manager and the issue are as they were. The result is the pair
      (manager, issue) after the call. */
  function ApproveIssue(manager: User, issue: Issue): (after: (User, Issue))
    requires manager.Manager?
    ensures after.0 == manager && after.1 == issue
  {
    (manager, issue)
  }

  /** What `display()` shows of an issue, as data: a plain issue shows id,
      title, severity and status; a bug shows title, criticality and status. */
  datatype Summary =
    | IssueLine(issueId: Int32, title: string, severity: string, status: string)
    | BugLine(title: string, isCritical: bool, status: string)

  /** The summary of one issue, chosen by its variant. */
  function Summarize(i: Issue): (s: Summary)
    ensures s.IssueLine? <==> i.Issue?
    ensures s.title == i.title && s.status == i.status
    ensures s.IssueLine? ==> s.issueId == i.issueId && s.severity == i.severity
    ensures s.BugLine? ==> s.isCritical == i.isCritical
  {
    match i
    case Issue(id, title, _, severity, status, _) => IssueLine(id, title, severity, status)
    case Bug(_, title, _, _, status, _, critical) => BugLine(title, critical, status)
  }

  /** The summary never shows the assignee, and it shows the status exactly:
      two issues with the same fixed fields and status summarise alike. */
  lemma SummaryDependsOnFixedFieldsAndStatus(i: Issue, j: Issue)
    requires SameFixedFields(i, j) && i.status == j.status
    ensures Summarize(i) == Summarize(j)
  {
  }
}
