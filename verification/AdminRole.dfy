/** The ADMIN role across all accounts. Its mutations are serialized by one advisory lock, so each is one step. */
module AdminRole {
  import opened Wrappers
  import opened RequestStates
  import opened AccountModel

  type UserId = nat
  type Users = map<UserId, Account>

  predicate IsAdmin(users: Users, u: UserId) {
    u in users && Admin in users[u].roles
  }

  /** An administrator that can stand in for another one. */
  predicate Capable(users: Users, u: UserId) {
    IsAdmin(users, u) && users[u].status == Active && users[u].Verified() && Role.System !in users[u].roles
  }

  function NewAdmin(): Account {
    Account(Active, true, true, NotRequired, 0, {Admin}, map[], map[], map[], map[], map[], 0, 1)
  }

  predicate ChangesRoles(step: Step) {
    step.Granting? || step.Revoking?
  }

  /** `first` is the first row of the query that lists administrators, in whatever order it comes. */
  datatype RoleStep =
    | CreatingAdmin(u: UserId)
    | Registering(u: UserId, hasEmail: bool, phone: PhoneStatus)
    | AddingStudent(u: UserId)
    | GrantingTo(u: UserId, role: Role, first: Option<UserId>)
    | RevokingFrom(u: UserId, role: Role)
    | Within(u: UserId, step: Step)

  ghost predicate ListsFirst(users: Users, first: Option<UserId>) {
    if first.Some? then IsAdmin(users, first.value) else forall u :: !IsAdmin(users, u)
  }

  function Written(users: Users, u: UserId, r: Result<Account, RoleError>): Users {
    if r.Ok? then users[u := r.value] else users
  }

  ghost function NextUsers(c: Config, now: Time, users: Users, step: RoleStep): Users {
    match step
    case CreatingAdmin(u) => if u in users || exists v :: IsAdmin(users, v) then users else users[u := NewAdmin()]
    case Registering(u, hasEmail, phone) => if u in users then users else users[u := Registered(hasEmail, phone)]
    case AddingStudent(u) => if u in users then users else users[u := CreatedByAdmin(c, now)]
    case GrantingTo(u, role, first) =>
      if u !in users || !ListsFirst(users, first) then users
      else Written(users, u, TryGrant(now, users[u], role, first.Some? && first.value != u))
    case RevokingFrom(u, role) =>
      if u !in users then users
      else Written(users, u, TryRevoke(now, users[u], role, exists v :: v != u && Capable(users, v)))
    case Within(u, inner) =>
      if u !in users || ChangesRoles(inner) then users else users[u := Next(c, now, users[u], inner)]
  }

  ghost function RunUsers(c: Config, users: Users, timeline: seq<(Time, RoleStep)>): Users
    decreases |timeline|
  {
    if timeline == [] then users
    else RunUsers(c, NextUsers(c, timeline[0].0, users, timeline[0].1), timeline[1..])
  }

  ghost predicate AtMostOneAdmin(users: Users) {
    forall u, v :: IsAdmin(users, u) && IsAdmin(users, v) ==> u == v
  }

  lemma EntryKeepsOneAdmin(users: Users, u: UserId, a: Account)
    requires AtMostOneAdmin(users)
    requires Admin in a.roles ==> forall v :: IsAdmin(users, v) ==> v == u
    ensures AtMostOneAdmin(users[u := a])
  {
    var next := users[u := a];
    forall v, w | IsAdmin(next, v) && IsAdmin(next, w) ensures v == w {
      assert v != u ==> IsAdmin(users, v);
      assert w != u ==> IsAdmin(users, w);
    }
  }

  lemma LoginKeepsRoles(c: Config, now: Time, a: Account, attempt: nat, prior: Option<nat>)
    requires attempt in a.logins
    ensures CommitLogin(c, now, a, attempt, prior).0.roles == a.roles
  {
  }

  lemma ChangeKeepsRoles(c: Config, now: Time, a: Account, attempt: nat)
    requires attempt in a.changes
    ensures CommitChange(c, now, a, attempt).0.roles == a.roles
  {
  }

  lemma ResetsKeepRoles(c: Config, now: Time, a: Account, i: nat, matches: bool)
    ensures ResetPassword(now, a, i).0.roles == IssuePhoneReset(c, now, a, i, matches).0.roles == a.roles
  {
  }

  lemma OtherStepsKeepRoles(c: Config, now: Time, a: Account, step: Step)
    requires !ChangesRoles(step)
    ensures Next(c, now, a, step).roles == a.roles
  {
    match step
    case CommittingLogin(i, prior) => if i in a.logins { LoginKeepsRoles(c, now, a, i, prior); }
    case CommittingChange(i) => if i in a.changes { ChangeKeepsRoles(c, now, a, i); }
    case ResettingPassword(i) => ResetsKeepRoles(c, now, a, i, false);
    case IssuingPhoneReset(i, matches) => ResetsKeepRoles(c, now, a, i, matches);
    case _ =>
  }

  lemma AdminStep(c: Config, now: Time, users: Users, step: RoleStep)
    requires AtMostOneAdmin(users)
    ensures AtMostOneAdmin(NextUsers(c, now, users, step))
    ensures forall u :: IsAdmin(users, u) ==> IsAdmin(NextUsers(c, now, users, step), u)
  {
    var u := step.u;
    var next := NextUsers(c, now, users, step);
    if step.Within? && u in users && !ChangesRoles(step.step) { OtherStepsKeepRoles(c, now, users[u], step.step); }
    if next != users {
      assert next == users[u := next[u]];
      if Admin in next[u].roles {
        assert IsAdmin(users, u) || forall v :: IsAdmin(users, v) ==> v == u;
      }
      EntryKeepsOneAdmin(users, u, next[u]);
    }
  }

  /** While there is no administrator, a new account or an existing one can become it. */
  lemma FirstAdministrator(c: Config, now: Time, users: Users, u: UserId)
    requires forall v :: !IsAdmin(users, v)
    ensures u !in users ==>
              var created := NextUsers(c, now, users, CreatingAdmin(u));
              u in created && created[u].status == Active && Admin in created[u].roles && created - {u} == users
    ensures u in users ==> Admin in NextUsers(c, now, users, GrantingTo(u, Admin, None))[u].roles
  {
    assert !IsAdmin(users, u);
    assert u !in users ==> users[u := NewAdmin()] - {u} == users;
  }

  /** Once there is one, nobody else does, and the one is not relieved. */
  lemma SecondAdministrator(c: Config, now: Time, users: Users, u: UserId, v: UserId, first: Option<UserId>)
    requires AtMostOneAdmin(users) && IsAdmin(users, v) && u != v
    ensures NextUsers(c, now, users, CreatingAdmin(u)) == users
    ensures NextUsers(c, now, users, GrantingTo(u, Admin, first)) == users
    ensures NextUsers(c, now, users, RevokingFrom(v, Admin)) == users
  {
    assert u in users ==> !IsAdmin(users, u);
    assert ListsFirst(users, first) ==> first == Some(v);
    assert !exists w :: w != v && Capable(users, w);
  }

  /** Other roles come and go, by the account alone. */
  lemma OtherRolesAreFree(c: Config, now: Time, users: Users, u: UserId, role: Role, first: Option<UserId>)
    requires u in users && role !in {Admin, Role.System} && ListsFirst(users, first)
    ensures NextUsers(c, now, users, GrantingTo(u, role, first))[u].roles == users[u].roles + {role}
    ensures NextUsers(c, now, users, RevokingFrom(u, role))[u].roles == users[u].roles - {role}
  {
  }

  /** There is never a second administrator, and an administrator never stops being one: while at most one exists, the
      stand-in that a revocation of ADMIN demands cannot exist, so that revocation is always refused. */
  lemma {:induction false} TheAdministratorIsForever(c: Config, users: Users, timeline: seq<(Time, RoleStep)>, u: UserId)
    requires AtMostOneAdmin(users)
    ensures AtMostOneAdmin(RunUsers(c, users, timeline))
    ensures IsAdmin(users, u) ==> IsAdmin(RunUsers(c, users, timeline), u)
    decreases |timeline|
  {
    if timeline != [] {
      var next := NextUsers(c, timeline[0].0, users, timeline[0].1);
      AdminStep(c, timeline[0].0, users, timeline[0].1);
      TheAdministratorIsForever(c, next, timeline[1..], u);
    }
  }
}
