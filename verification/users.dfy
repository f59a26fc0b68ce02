/** Users of the tracker: a plain team member, or a manager. */
module Users {
  import opened Base

  /** A user. `Manager` is the Java subclass: it has the same four fields and
      differs only in how it is built and in what it can do. */
  datatype User =
    | Member(id: Int32, name: string, role: string, email: string)
    | Manager(id: Int32, name: string, role: string, email: string)

  /** The role a manager is given when it is built. */
  const ManagerRole: string := "Manager"

  /** Two users are the same person: same variant, id and name. No mutator
      touches these. */
  predicate SameIdentity(u: User, v: User)
  {
    u.Manager? == v.Manager? && u.id == v.id && u.name == v.name
  }

  /** `new User(id, name, role, email)`. */
  function NewUser(id: Int32, name: string, role: string, email: string): (u: User)
    ensures u.Member?
    ensures u.id == id && u.name == name && u.role == role && u.email == email
  {
    Member(id, name, role, email)
  }

  /** `new Manager(id, name, email)`: the role is pinned to "Manager" at birth. */
  function NewManager(id: Int32, name: string, email: string): (u: User)
    ensures u.Manager?
    ensures u.id == id && u.name == name && u.email == email
    ensures u.role == ManagerRole
  {
    Manager(id, name, ManagerRole, email)
  }

  /** `setRole`: overwrites the role, with no validation. It is inherited by
      `Manager`, so a manager's role can be changed too. */
  function SetRole(u: User, role: string): (v: User)
    ensures SameIdentity(u, v)
    ensures v.role == role && v.email == u.email
  {
    u.(role := role)
  }

  /** `setEmail`: overwrites the e-mail address, with no validation. */
  function SetEmail(u: User, email: string): (v: User)
    ensures SameIdentity(u, v)
    ensures v.email == email && v.role == u.role
  {
    u.(email := email)
  }

  /** Writing a role twice keeps only the second; writing the current role
      changes nothing. */
  lemma SetRoleLastWriteWins(u: User, r1: string, r2: string)
    ensures SetRole(SetRole(u, r1), r2) == SetRole(u, r2)
    ensures SetRole(u, u.role) == u
  {
  }

  /** The same for the e-mail address. */
  lemma SetEmailLastWriteWins(u: User, e1: string, e2: string)
    ensures SetEmail(SetEmail(u, e1), e2) == SetEmail(u, e2)
    ensures SetEmail(u, u.email) == u
  {
  }

  /** The two mutators touch different fields, so their order does not matter. */
  lemma SetRoleSetEmailCommute(u: User, role: string, email: string)
    ensures SetEmail(SetRole(u, role), email) == SetRole(SetEmail(u, email), role)
  {
  }

  /** A call of one of the two user mutators. */
  datatype UserEdit = NewRole(role: string) | NewEmail(email: string)

  /** Applies one mutator call. */
  function ApplyUserEdit(u: User, e: UserEdit): User
  {
    match e
    case NewRole(r) => SetRole(u, r)
    case NewEmail(m) => SetEmail(u, m)
  }

  /** Applies a history of mutator calls, first to last. */
  function ApplyUserEdits(u: User, es: seq<UserEdit>): User
    decreases |es|
  {
    if es == [] then u else ApplyUserEdits(ApplyUserEdit(u, es[0]), es[1..])
  }

  /** The role written by the last `NewRole` in `es`, or `current` if none. */
  function LastRole(es: seq<UserEdit>, current: string): string
  {
    if es == [] then current
    else if es[|es| - 1].NewRole? then es[|es| - 1].role
    else LastRole(es[..|es| - 1], current)
  }

  /** The e-mail written by the last `NewEmail` in `es`, or `current` if none. */
  function LastEmail(es: seq<UserEdit>, current: string): string
  {
    if es == [] then current
    else if es[|es| - 1].NewEmail? then es[|es| - 1].email
    else LastEmail(es[..|es| - 1], current)
  }

  /** Scanning from the back agrees with peeling one edit off the front. */
  lemma {:induction false} LastUserFieldsCons(e: UserEdit, es: seq<UserEdit>, role: string, email: string)
    ensures LastRole([e] + es, role) == LastRole(es, if e.NewRole? then e.role else role)
    ensures LastEmail([e] + es, email) == LastEmail(es, if e.NewEmail? then e.email else email)
    decreases |es|
  {
    if es != [] {
      var n := |es|;
      assert ([e] + es)[..n] == [e] + es[..n - 1];
      assert ([e] + es)[n] == es[n - 1];
      LastUserFieldsCons(e, es[..n - 1], role, email);
    }
  }

  /** Whatever sequence of `setRole`/`setEmail` calls a user undergoes, id,
      name and variant never change, and each mutable field holds the value of
      the last call that wrote it. */
  lemma {:induction false} UserLastWriteWins(u: User, es: seq<UserEdit>)
    ensures SameIdentity(u, ApplyUserEdits(u, es))
    ensures ApplyUserEdits(u, es).role == LastRole(es, u.role)
    ensures ApplyUserEdits(u, es).email == LastEmail(es, u.email)
    decreases |es|
  {
    if es != [] {
      var v := ApplyUserEdit(u, es[0]);
      UserLastWriteWins(v, es[1..]);
      assert es == [es[0]] + es[1..];
      LastUserFieldsCons(es[0], es[1..], u.role, u.email);
    }
  }
}
