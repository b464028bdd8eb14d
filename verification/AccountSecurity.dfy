/** What sessions and reset links say about the account, in every interleaving. */
module AccountSecurity {
  import opened Wrappers
  import opened RequestStates
  import opened AccountModel

  // ---------------------------------------------------------------- sessions

  /** Every unrevoked session was made under the current hash and role set of an active account. */
  ghost predicate SessionsOk(sessions: map<nat, Session>, hash: Hash, roles: set<Role>, active: bool) {
    forall i :: i in sessions && sessions[i].revokedAt.None? ==>
      && active && sessions[i].hash == hash && sessions[i].roles == roles && Role.System !in roles
      && sessions[i].idleExpiresAt <= sessions[i].expiresAt
  }

  ghost predicate AllRevoked(sessions: map<nat, Session>) {
    forall i :: i in sessions ==> sessions[i].revokedAt.Some?
  }

  /** Every hash in use was issued before `nextHash`, so a new password hash differs from all of them. */
  ghost predicate HashesIssued(a: Account) {
    && a.hash < a.nextHash
    && (forall i :: i in a.logins ==> a.logins[i] < a.nextHash)
    && (forall i :: i in a.changes ==> a.changes[i] < a.nextHash)
  }

  ghost predicate Secure(a: Account) {
    SessionsOk(a.sessions, a.hash, a.roles, a.status == Active) && HashesIssued(a)
  }

  lemma RevokedSessionsSuitAnyAccount(sessions: map<nat, Session>, now: Time, hash: Hash, roles: set<Role>, active: bool)
    ensures AllRevoked(RevokeAll(sessions, now)) && SessionsOk(RevokeAll(sessions, now), hash, roles, active)
  {
  }

  lemma RefusedLoginWritesNothing(c: Config, now: Time, a: Account, attempt: nat, prior: Option<nat>)
    requires attempt in a.logins && CommitLogin(c, now, a, attempt, prior).1.Failed?
    ensures CommitLogin(c, now, a, attempt, prior).0 == a.(logins := Forget(a.logins, attempt))
  {
  }

  lemma LoginKeepsSessions(c: Config, now: Time, a: Account, attempt: nat, prior: Option<nat>)
    requires c.Valid() && Secure(a) && attempt in a.logins
    ensures Secure(CommitLogin(c, now, a, attempt, prior).0)
  {
    if CommitLogin(c, now, a, attempt, prior).1.Failed? { RefusedLoginWritesNothing(c, now, a, attempt, prior); }
  }

  lemma TouchKeepsSessions(c: Config, now: Time, a: Account, i: nat)
    requires Secure(a)
    ensures Secure(TouchSession(c, now, a, i))
  {
  }

  lemma NewSessionAfterRevocation(c: Config, now: Time, sessions: map<nat, Session>, i: nat, hash: Hash, roles: set<Role>)
    requires c.Valid() && Role.System !in roles
    ensures SessionsOk(RevokeAll(sessions, now)[i := NewSession(c, now, hash, roles)], hash, roles, true)
  {
    RevokedSessionsSuitAnyAccount(sessions, now, hash, roles, true);
  }

  lemma RefusedChangeWritesNothing(c: Config, now: Time, a: Account, attempt: nat)
    requires attempt in a.changes && CommitChange(c, now, a, attempt).1.Failed?
    ensures CommitChange(c, now, a, attempt).0 == a.(changes := Forget(a.changes, attempt))
  {
  }

  lemma ChangeKeepsSessions(c: Config, now: Time, a: Account, attempt: nat)
    requires c.Valid() && Secure(a) && attempt in a.changes
    ensures Secure(CommitChange(c, now, a, attempt).0)
  {
    if CommitChange(c, now, a, attempt).1.Failed? {
      RefusedChangeWritesNothing(c, now, a, attempt);
    } else {
      NewSessionAfterRevocation(c, now, a.sessions, a.nextId, a.nextHash, a.roles);
    }
  }

  lemma ResetKeepsSessions(now: Time, a: Account, token: nat)
    requires Secure(a)
    ensures Secure(ResetPassword(now, a, token).0)
  {
    RevokedSessionsSuitAnyAccount(a.sessions, now, a.nextHash, a.roles, true);
  }

  lemma GrantKeepsSessions(now: Time, a: Account, role: Role)
    requires Secure(a)
    ensures Secure(GrantRole(now, a, role))
  {
    RevokedSessionsSuitAnyAccount(a.sessions, now, a.hash, a.roles + {role}, a.status == Active);
  }

  lemma RevokeKeepsSessions(now: Time, a: Account, role: Role)
    requires Secure(a)
    ensures Secure(RevokeRole(now, a, role))
  {
    RevokedSessionsSuitAnyAccount(a.sessions, now, a.hash, a.roles - {role}, a.status == Active);
  }

  lemma SuspensionKeepsSessions(now: Time, a: Account, suspend: bool)
    requires Secure(a)
    ensures Secure(SetSuspended(now, a, suspend).0)
  {
    RevokedSessionsSuitAnyAccount(a.sessions, now, a.hash, a.roles, false);
  }

  lemma LogoutKeepsSessions(now: Time, a: Account, chosen: set<nat>)
    requires Secure(a)
    ensures Secure(RevokeChosen(now, a, chosen))
  {
  }

  lemma CleanupKeepsSessions(c: Config, now: Time, a: Account)
    requires Secure(a)
    ensures Secure(Cleanup(c, now, a))
  {
  }

  lemma LoginBeginningKeepsSessions(a: Account)
    requires Secure(a)
    ensures Secure(BeginLogin(a))
  {
  }

  lemma ChangeBeginningKeepsSessions(a: Account)
    requires Secure(a)
    ensures Secure(BeginChange(a))
  {
  }

  /** Only links and the counter change, and the marks of verification; the status may only become ACTIVE. */
  ghost predicate LeavesSessions(a: Account, b: Account) {
    && b == a.(status := b.status, emailVerified := b.emailVerified, phone := b.phone,
               tokens := b.tokens, resets := b.resets, nextId := b.nextId)
    && (a.status == Active ==> b.status == Active)
  }

  lemma VerificationLeavesSessions(a: Account)
    ensures LeavesSessions(a, VerifyEmail(a)) && LeavesSessions(a, ConfirmPhone(a))
  {
  }

  lemma RequestsLeaveSessions(c: Config, now: Time, a: Account)
    ensures LeavesSessions(a, RequestEmailReset(c, now, a)) && LeavesSessions(a, RequestPhoneReset(c, now, a))
  {
  }

  lemma IssueLeavesSessions(c: Config, now: Time, a: Account, request: nat, matches: bool)
    ensures LeavesSessions(a, IssuePhoneReset(c, now, a, request, matches).0)
  {
  }

  lemma RejectionLeavesSessions(now: Time, a: Account, request: nat)
    ensures LeavesSessions(a, RejectPhoneReset(now, a, request).0)
  {
  }

  lemma OthersKeepSessions(a: Account, b: Account)
    requires Secure(a) && LeavesSessions(a, b)
    ensures Secure(b)
  {
  }

  lemma SecureStep(c: Config, now: Time, a: Account, step: Step)
    requires c.Valid() && Secure(a)
    ensures Secure(Next(c, now, a, step))
  {
    match step
    case BeginningLogin => LoginBeginningKeepsSessions(a);
    case BeginningChange => ChangeBeginningKeepsSessions(a);
    case CommittingLogin(i, prior) => if i in a.logins { LoginKeepsSessions(c, now, a, i, prior); }
    case TouchingSession(i) => TouchKeepsSessions(c, now, a, i);
    case CommittingChange(i) => if i in a.changes { ChangeKeepsSessions(c, now, a, i); }
    case ResettingPassword(token) => ResetKeepsSessions(now, a, token);
    case Granting(role) => GrantKeepsSessions(now, a, role);
    case Revoking(role) => RevokeKeepsSessions(now, a, role);
    case Suspending(suspend) => SuspensionKeepsSessions(now, a, suspend);
    case RevokingSessions(chosen) => LogoutKeepsSessions(now, a, chosen);
    case CleaningUp => CleanupKeepsSessions(c, now, a);
    case VerifyingEmail => VerificationLeavesSessions(a); OthersKeepSessions(a, VerifyEmail(a));
    case ConfirmingPhone => VerificationLeavesSessions(a); OthersKeepSessions(a, ConfirmPhone(a));
    case RequestingEmailReset =>
      RequestsLeaveSessions(c, now, a); OthersKeepSessions(a, RequestEmailReset(c, now, a));
    case RequestingPhoneReset =>
      RequestsLeaveSessions(c, now, a); OthersKeepSessions(a, RequestPhoneReset(c, now, a));
    case IssuingPhoneReset(i, m) =>
      IssueLeavesSessions(c, now, a, i, m); OthersKeepSessions(a, IssuePhoneReset(c, now, a, i, m).0);
    case RejectingPhoneReset(i) =>
      RejectionLeavesSessions(now, a, i); OthersKeepSessions(a, RejectPhoneReset(now, a, i).0);
  }

  /** In every interleaving of two-phase logins and password changes with resets, suspensions, role edits and cleanup,
      each unrevoked session was created under the current password hash and role set of an ACTIVE user, and its idle
      deadline does not pass its absolute one. */
  lemma {:induction false} SessionsAreCurrent(c: Config, a: Account, timeline: seq<(Time, Step)>)
    requires c.Valid() && Secure(a)
    ensures Secure(Run(c, a, timeline))
    decreases |timeline|
  {
    if timeline != [] {
      SecureStep(c, timeline[0].0, a, timeline[0].1);
      SessionsAreCurrent(c, Next(c, timeline[0].0, a, timeline[0].1), timeline[1..]);
    }
  }

  lemma NewAccountsAreSecure(c: Config, now: Time, hasEmail: bool, phone: PhoneStatus)
    ensures Secure(Registered(hasEmail, phone)) && Secure(CreatedByAdmin(c, now))
  {
  }

  /** A login or password change that verified the old password before a reset committed never succeeds after it. */
  lemma ResetDefeatsPendingAttempts(c: Config, a: Account, token: nat, t: Time, t': Time, attempt: nat, prior: Option<nat>)
    requires HashesIssued(a) && ResetPassword(t, a, token).1.Done?
    ensures var b := ResetPassword(t, a, token).0;
            && AllRevoked(b.sessions) && TokenFailure(b, token, t') == Some(TokenUsed)
            && (attempt in b.logins ==> CommitLogin(c, t', b, attempt, prior).1 == Failed(InvalidCredentials))
            && (attempt in b.changes ==> CommitChange(c, t', b, attempt).1.Failed?)
  {
    RevokedSessionsSuitAnyAccount(a.sessions, t, a.hash, a.roles, true);
  }

  // ------------------------------------------------------------- reset links

  /** At most one live token and at most one approved request; an approved request links the live token and every
      other request links none. */
  ghost predicate LinksOk(tokens: map<nat, Token>, resets: map<nat, PhoneReset>) {
    && (forall i, j :: i in tokens && j in tokens && Live(tokens[i]) && Live(tokens[j]) ==> i == j)
    && (forall i, j :: i in resets && j in resets && resets[i].status == Approved && resets[j].status == Approved
          ==> i == j)
    && (forall i :: i in resets ==>
          if resets[i].status == Approved then
            resets[i].link.Some? && resets[i].link.value in tokens && Live(tokens[resets[i].link.value])
          else resets[i].link.None?)
  }

  ghost predicate Linked(a: Account) {
    LinksOk(a.tokens, a.resets)
  }

  /** No live token, no approved request, no link. */
  ghost predicate Cleared(tokens: map<nat, Token>, resets: map<nat, PhoneReset>) {
    && (forall i :: i in tokens ==> !Live(tokens[i]))
    && (forall i :: i in resets ==> resets[i].status != Approved && resets[i].link.None?)
  }

  lemma ClearingClears(tokens: map<nat, Token>, resets: map<nat, PhoneReset>, now: Time)
    requires forall i :: i in resets && resets[i].status != Approved ==> resets[i].link.None?
    ensures Cleared(RevokeTokens(tokens, now), ExpireApproved(resets))
  {
  }

  lemma IssueAfterClearing(tokens: map<nat, Token>, resets: map<nat, PhoneReset>, id: nat, token: Token, request: nat,
                           approved: PhoneReset)
    requires Cleared(tokens, resets) && approved.status == Approved && approved.link == Some(id) && Live(token)
    ensures LinksOk(tokens[id := token], resets)
    ensures LinksOk(tokens[id := token], resets[request := approved])
  {
  }

  lemma IssueKeepsLinks(c: Config, now: Time, a: Account, request: nat, referenceMatches: bool)
    requires Linked(a)
    ensures Linked(IssuePhoneReset(c, now, a, request, referenceMatches).0)
  {
    if IssuePhoneReset(c, now, a, request, referenceMatches).1.Done? {
      var others := ExpireOtherPending(a.resets, request);
      ClearingClears(a.tokens, others, now);
      IssueAfterClearing(RevokeTokens(a.tokens, now), ExpireApproved(others), a.nextId,
                         Token(now + c.resetTtl, None, None), request,
                         a.resets[request].(status := Approved, link := Some(a.nextId)));
    }
  }

  lemma EmailResetKeepsLinks(c: Config, now: Time, a: Account)
    requires Linked(a)
    ensures Linked(RequestEmailReset(c, now, a))
  {
    ClearingClears(a.tokens, a.resets, now);
    IssueAfterClearing(RevokeTokens(a.tokens, now), ExpireApproved(a.resets), a.nextId,
                       Token(now + c.resetTtl, None, None), 0, PhoneReset(Approved, 0, Some(a.nextId)));
  }

  lemma ResetKeepsLinks(now: Time, a: Account, token: nat)
    requires Linked(a)
    ensures Linked(ResetPassword(now, a, token).0)
  {
    if ResetPassword(now, a, token).1.Done? {
      ClearingClears(a.tokens[token := a.tokens[token].(usedAt := Some(now))], CompleteLinked(a.resets, token), now);
    }
  }

  lemma ChangeKeepsLinks(c: Config, now: Time, a: Account, attempt: nat)
    requires Linked(a) && attempt in a.changes
    ensures Linked(CommitChange(c, now, a, attempt).0)
  {
    if CommitChange(c, now, a, attempt).1.Failed? {
      RefusedChangeWritesNothing(c, now, a, attempt);
    } else {
      ClearingClears(a.tokens, a.resets, now);
    }
  }

  lemma CleanupKeepsLinks(c: Config, now: Time, a: Account)
    requires Linked(a)
    ensures Linked(Cleanup(c, now, a))
  {
  }

  lemma UnapprovedRequestKeepsLinks(tokens: map<nat, Token>, resets: map<nat, PhoneReset>, request: nat, r: PhoneReset)
    requires LinksOk(tokens, resets) && r.status != Approved && r.link.None?
    ensures LinksOk(tokens, resets[request := r])
  {
  }

  lemma PhoneRequestKeepsLinks(c: Config, now: Time, a: Account)
    requires Linked(a)
    ensures Linked(RequestPhoneReset(c, now, a))
  {
    UnapprovedRequestKeepsLinks(a.tokens, a.resets, a.nextId, PhoneReset(ResetPending, now + c.phoneRequestTtl, None));
  }

  lemma RejectionKeepsLinks(now: Time, a: Account, request: nat)
    requires Linked(a)
    ensures Linked(RejectPhoneReset(now, a, request).0)
  {
    if request in a.resets && a.resets[request].status == ResetPending {
      UnapprovedRequestKeepsLinks(a.tokens, a.resets, request, a.resets[request].(status := Expired));
      UnapprovedRequestKeepsLinks(a.tokens, a.resets, request, a.resets[request].(status := ResetRejected));
    }
  }

  /** Neither a token nor a phone reset request changes. */
  ghost predicate SameLinks(a: Account, b: Account) {
    b.tokens == a.tokens && b.resets == a.resets
  }

  lemma LoginLeavesLinks(c: Config, now: Time, a: Account, attempt: nat, prior: Option<nat>)
    requires attempt in a.logins
    ensures SameLinks(a, CommitLogin(c, now, a, attempt, prior).0)
  {
  }

  lemma SessionUseLeavesLinks(c: Config, now: Time, a: Account, i: nat, chosen: set<nat>)
    ensures SameLinks(a, TouchSession(c, now, a, i)) && SameLinks(a, RevokeChosen(now, a, chosen))
  {
  }

  lemma RolesLeaveLinks(now: Time, a: Account, role: Role, suspend: bool)
    ensures SameLinks(a, GrantRole(now, a, role)) && SameLinks(a, RevokeRole(now, a, role))
    ensures SameLinks(a, SetSuspended(now, a, suspend).0)
  {
  }

  lemma BeginningsLeaveLinks(a: Account)
    ensures SameLinks(a, VerifyEmail(a)) && SameLinks(a, ConfirmPhone(a))
    ensures SameLinks(a, BeginLogin(a)) && SameLinks(a, BeginChange(a))
  {
  }

  lemma LinksStep(c: Config, now: Time, a: Account, step: Step)
    requires Linked(a)
    ensures Linked(Next(c, now, a, step))
  {
    match step
    case IssuingPhoneReset(i, matches) => IssueKeepsLinks(c, now, a, i, matches);
    case RequestingEmailReset => EmailResetKeepsLinks(c, now, a);
    case ResettingPassword(token) => ResetKeepsLinks(now, a, token);
    case CommittingChange(i) => if i in a.changes { ChangeKeepsLinks(c, now, a, i); }
    case RequestingPhoneReset => PhoneRequestKeepsLinks(c, now, a);
    case RejectingPhoneReset(i) => RejectionKeepsLinks(now, a, i);
    case CleaningUp => CleanupKeepsLinks(c, now, a);
    case CommittingLogin(i, prior) => if i in a.logins { LoginLeavesLinks(c, now, a, i, prior); }
    case TouchingSession(i) => SessionUseLeavesLinks(c, now, a, i, {});
    case RevokingSessions(chosen) => SessionUseLeavesLinks(c, now, a, 0, chosen);
    case Granting(role) => RolesLeaveLinks(now, a, role, false);
    case Revoking(role) => RolesLeaveLinks(now, a, role, false);
    case Suspending(suspend) => RolesLeaveLinks(now, a, Student, suspend);
    case _ => BeginningsLeaveLinks(a);
  }

  /** Across issue, email reset, completion, password change, rejection and cleanup in any order: one live token at
      most, one approved request at most, and no dangling link. */
  lemma {:induction false} LinksStayCoherent(c: Config, a: Account, timeline: seq<(Time, Step)>)
    requires Linked(a)
    ensures Linked(Run(c, a, timeline))
    decreases |timeline|
  {
    if timeline != [] {
      LinksStep(c, timeline[0].0, a, timeline[0].1);
      LinksStayCoherent(c, Next(c, timeline[0].0, a, timeline[0].1), timeline[1..]);
    }
  }

  /** The link an administrator issues is the only one that works, and using it in time completes exactly the request it
      was issued for. */
  lemma IssuedLinkCompletes(c: Config, now: Time, a: Account, request: nat, later: Time, other: nat)
    requires HashesIssued(a) && IssuePhoneReset(c, now, a, request, true).1.Done? && later < now + c.resetTtl
    ensures var b := IssuePhoneReset(c, now, a, request, true).0;
            && TokenFailure(b, a.nextId, later).None? && (other != a.nextId ==> TokenFailure(b, other, later).Some?)
    ensures var b := IssuePhoneReset(c, now, a, request, true).0;
            var (d, outcome) := ResetPassword(later, b, a.nextId);
            && outcome == Done && d.hash != a.hash && TokenFailure(d, a.nextId, later) == Some(TokenUsed)
            && request in d.resets && d.resets[request].status == ResetCompleted && d.resets[request].link.None?
  {
    var b := IssuePhoneReset(c, now, a, request, true).0;
    assert b.resets[request].status == Approved && b.resets[request].link == Some(a.nextId);
  }

  /** Cleanup removes only sessions that no longer admit anyone: a usable session stays as it was. */
  lemma CleanupSparesUsableSessions(c: Config, now: Time, a: Account, i: nat)
    requires i in a.sessions && a.sessions[i].revokedAt.None?
    requires now <= a.sessions[i].expiresAt && now <= a.sessions[i].idleExpiresAt
    ensures i in Cleanup(c, now, a).sessions && Cleanup(c, now, a).sessions[i] == a.sessions[i]
  {
  }

  lemma NewAccountsAreLinked(c: Config, now: Time, hasEmail: bool, phone: PhoneStatus)
    ensures Linked(Registered(hasEmail, phone)) && Linked(CreatedByAdmin(c, now))
  {
  }

  /** What a transaction owes to an account it finds secure, or with coherent links. */
  ghost predicate Keeps(a: Account, b: Account) {
    (Secure(a) ==> Secure(b)) && (Linked(a) ==> Linked(b))
  }

  lemma StepKeeps(c: Config, now: Time, a: Account, step: Step)
    requires c.Valid()
    ensures Keeps(a, Next(c, now, a, step))
  {
    if Secure(a) { SecureStep(c, now, a, step); }
    if Linked(a) { LinksStep(c, now, a, step); }
  }
}
