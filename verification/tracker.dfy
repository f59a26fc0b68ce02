/** The stateless tracker service: issue creation, with or without a tag,
    and the two delegating mutators. */
module Tracker {
  import opened Base
  import opened Users
  import opened Issues

  /** The text placed between a description and its tag. */
  const TagOpen: string := " [Tag="

  /** The description a tagged issue gets: `desc`, then " [Tag=", the tag and
      "]". Stated as how the parts can be read back out of the result. */
  function TaggedDescription(desc: string, tag: string): (d: string)
    ensures |d| == |desc| + |TagOpen| + |tag| + 1
    ensures d[..|desc|] == desc
    ensures d[|desc|..|desc| + |TagOpen|] == TagOpen
    ensures d[|desc| + |TagOpen|..|d| - 1] == tag
    ensures d[|d| - 1] == ']'
  {
    desc + TagOpen + tag + "]"
  }

  /** Knowing the length of the original description, the tagged description
      determines both the description and the tag. */
  lemma TaggedDescriptionInjective(d1: string, t1: string, d2: string, t2: string)
    requires |d1| == |d2|
    requires TaggedDescription(d1, t1) == TaggedDescription(d2, t2)
    ensures d1 == d2 && t1 == t2
  {
    var s := TaggedDescription(d1, t1);
    assert d1 == s[..|d1|] == d2;
    assert t1 == s[|d1| + |TagOpen|..|s| - 1] == t2;
  }

  /** `createIssue(id, title, desc, severity)`: a fresh plain issue that keeps
      every argument verbatim. */
  function CreateIssue(id: Int32, title: string, desc: string, severity: string): (i: Issue)
    ensures i.Issue?
    ensures i.issueId == id && i.title == title && i.description == desc && i.severity == severity
    ensures i.status == InitialStatus && i.assignee == None
  {
    NewIssue(id, title, desc, severity)
  }

  /** `createIssue(id, title, desc, severity, tag)`: as the untagged form,
      except that the description carries the tag. */
  function CreateTaggedIssue(id: Int32, title: string, desc: string, severity: string,
                             tag: string): (i: Issue)
    ensures i.Issue?
    ensures i.issueId == id && i.title == title && i.severity == severity
    ensures i.description == TaggedDescription(desc, tag)
    ensures i.status == InitialStatus && i.assignee == None
  {
    NewIssue(id, title, TaggedDescription(desc, tag), severity)
  }

  /** The two overloads build the same issue apart from the description. */
  lemma CreateOverloadsAgree(id: Int32, title: string, desc: string, severity: string, tag: string)
    ensures CreateTaggedIssue(id, title, desc, severity, tag)
         == CreateIssue(id, title, desc, severity).(description := TaggedDescription(desc, tag))
  {
  }

  /** The example of a tagged creation: description "D" and tag "UI" give
      "D [Tag=UI]". */
  lemma TaggedExample()
    ensures CreateTaggedIssue(1, "T", "D", "High", "UI").description == "D [Tag=UI]"
  {
  }

  /** `assign(issue, user)`: delegates to `assignTo`. */
  function Assign(issue: Issue, user: User): (j: Issue)
    ensures j == AssignTo(issue, user)
    ensures j.assignee == Some(user) && j.status == issue.status && SameFixedFields(issue, j)
  {
    AssignTo(issue, user)
  }

  /** `updateStatus(issue, status)`: delegates to `changeStatus`. */
  function UpdateStatus(issue: Issue, status: string): (j: Issue)
    ensures j == ChangeStatus(issue, status)
    ensures j.status == status && j.assignee == issue.assignee && SameFixedFields(issue, j)
  {
    ChangeStatus(issue, status)
  }
}
