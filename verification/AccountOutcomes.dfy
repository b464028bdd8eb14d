/** What the account transactions answer and leave, and what a suspension keeps out. */
module AccountOutcomes {
  import opened Wrappers
  import opened RequestStates
  import opened AccountModel
  import opened AccountSecurity

  predicate Checked(a: Account) { a.emailVerified || a.phone == PhoneVerified }

  predicate Usable(s: Session, now: Time) { s.revokedAt.None? && now < s.expiresAt && now < s.idleExpiresAt }

  /** Lifetimes, longer or shorter for administrators. */
  function Absolute(c: Config, roles: set<Role>): nat {
    if Admin in roles then c.adminAbsoluteTtl else c.studentAbsoluteTtl
  }

  function Idle(c: Config, roles: set<Role>): nat { if Admin in roles then c.adminIdleTtl else c.studentIdleTtl }

  /** A session made at `now`: under this hash and these roles, with their lifetimes, and not revoked. */
  predicate MadeNow(c: Config, now: Time, s: Session, hash: Hash, roles: set<Role>) {
    s == Session(hash, roles, now + Absolute(c, roles), now + Idle(c, roles), now, None)
  }

  // ------------------------------------------------------------ verification

  /** The first verification makes a pending account ACTIVE, unless its phone is still to be confirmed. */
  lemma VerificationLeaves(a: Account)
    ensures VerifyEmail(a) == (if a.status == PendingVerification && a.phone != PhonePending
                               then a.(status := Active, emailVerified := true) else a)
    ensures var b := ConfirmPhone(a);
            && (a.phone != PhonePending ==> b == a)
            && (a.phone == PhonePending ==>
                  && b.phone == PhoneVerified && b == a.(phone := b.phone, status := b.status)
                  && b.status == if a.status == Suspended then Suspended else Active)
  {
  }

  // ------------------------------------------------------------ login

  /** An attempt begins, on the hash read without a lock, exactly for an active and verified account. */
  lemma LoginBegins(a: Account)
    ensures BeginLogin(a) == if a.status == Active && Checked(a)
                             then a.(logins := a.logins[a.nextId := a.hash], nextId := a.nextId + 1) else a
  {
  }

  /** The locked half succeeds exactly when the hash is still the verified one and the account, ACTIVE and verified, is
      nobody of the SYSTEM role. The hash comes first, then verification, then the status. */
  lemma LoginAnswers(c: Config, now: Time, a: Account, i: nat, prior: Option<nat>)
    requires i in a.logins
    ensures var outcome := CommitLogin(c, now, a, i, prior).1;
            var known := a.hash == a.logins[i];
            var checked := known && a.status != PendingVerification && Checked(a);
            && (outcome == Failed(InvalidCredentials) <==> !known)
            && (outcome == Failed(NotVerified) <==> known && !checked)
            && (outcome == Failed(AccountUnavailable) <==> checked && (a.status != Active || Role.System in a.roles))
            && (outcome == Done <==> checked && a.status == Active && Role.System !in a.roles)
  {
  }

  /** The attempt is over either way. A success adds one session, under the current hash and roles, revokes the one it
      replaces, and touches no other. */
  lemma LoginLeaves(c: Config, now: Time, a: Account, i: nat, prior: Option<nat>, other: nat)
    requires i in a.logins && a.nextId !in a.sessions
    ensures var (b, outcome) := CommitLogin(c, now, a, i, prior);
            && b.logins == a.logins - {i} && b == a.(logins := b.logins, sessions := b.sessions, nextId := b.nextId)
            && (outcome.Failed? ==> b.sessions == a.sessions && b.nextId == a.nextId)
            && (outcome.Done? ==>
                  && b.nextId == a.nextId + 1 && b.sessions.Keys == a.sessions.Keys + {a.nextId}
                  && MadeNow(c, now, b.sessions[a.nextId], a.hash, a.roles)
                  && (prior.Some? && prior.value in a.sessions ==>
                        b.sessions[prior.value] == if a.sessions[prior.value].revokedAt.Some? then a.sessions[prior.value]
                                                   else a.sessions[prior.value].(revokedAt := Some(now)))
                  && (other in a.sessions && prior != Some(other) ==> b.sessions[other] == a.sessions[other]))
  {
  }

  /** So a verified active user who is nobody of the SYSTEM role can log in: begun and committed undisturbed, the login
      leaves a session that is usable for its lifetimes. */
  lemma LoginsSucceed(c: Config, now: Time, a: Account, prior: Option<nat>, later: Time)
    requires a.status == Active && Checked(a) && Role.System !in a.roles && a.nextId !in a.logins
    requires now <= later < now + Idle(c, a.roles) && later < now + Absolute(c, a.roles)
    ensures var begun := BeginLogin(a);
            && a.nextId in begun.logins
            && var (b, outcome) := CommitLogin(c, now, begun, a.nextId, prior);
               outcome == Done && a.nextId + 1 in b.sessions && Usable(b.sessions[a.nextId + 1], later)
  {
  }

  // ------------------------------------------------------------ sessions

  /** The use of a usable session that is due for it extends its idle deadline from now on, never beyond the absolute
      one; nothing else is touched, and no other session. */
  lemma TouchLeaves(c: Config, now: Time, a: Account, i: nat)
    ensures var b := TouchSession(c, now, a, i);
            var due := && i in a.sessions && Usable(a.sessions[i], now) && a.status == Active && Checked(a)
                       && Role.System !in a.roles && now - a.sessions[i].lastSeenAt >= c.sessionTouch;
            && (!due ==> b == a)
            && (due ==>
                  && b == a.(sessions := a.sessions[i := b.sessions[i]])
                  && var s, s' := a.sessions[i], b.sessions[i];
                     && s'.hash == s.hash && s'.roles == s.roles && s'.expiresAt == s.expiresAt && s'.revokedAt.None?
                     && s'.lastSeenAt == now && s'.idleExpiresAt <= s.expiresAt
                     && s'.idleExpiresAt <= now + Idle(c, a.roles)
                     && (s'.idleExpiresAt == s.expiresAt || s'.idleExpiresAt == now + Idle(c, a.roles)))
  {
  }

  /** A logout revokes the chosen sessions that are not revoked, now, and no other. */
  lemma LogoutLeaves(now: Time, a: Account, chosen: set<nat>, i: nat)
    requires i in a.sessions
    ensures var b := RevokeChosen(now, a, chosen);
            && b == a.(sessions := b.sessions) && b.sessions.Keys == a.sessions.Keys
            && b.sessions[i] == if i in chosen && a.sessions[i].revokedAt.None?
                                then a.sessions[i].(revokedAt := Some(now)) else a.sessions[i]
  {
  }

  lemma RevokingAllLeaves(sessions: map<nat, Session>, now: Time, i: nat)
    requires i in sessions
    ensures RevokeAll(sessions, now).Keys == sessions.Keys
    ensures RevokeAll(sessions, now)[i]
            == if sessions[i].revokedAt.None? then sessions[i].(revokedAt := Some(now)) else sessions[i]
  {
  }

  // ------------------------------------------------------------ suspension

  /** Only a student is suspended, from ACTIVE, and only a suspended one reactivated. */
  lemma SuspensionAnswers(now: Time, a: Account, suspend: bool)
    ensures var outcome := SetSuspended(now, a, suspend).1;
            && (outcome == Done <==> Student in a.roles && a.status == if suspend then Active else Suspended)
            && (outcome != Done <==> outcome == Failed(AccountUnavailable))
  {
  }

  /** A suspension leaves the account SUSPENDED with every session revoked; a reactivation makes it ACTIVE and revives
      no session; a refusal leaves all as it was. */
  lemma SuspensionLeaves(now: Time, a: Account, suspend: bool)
    ensures var (b, outcome) := SetSuspended(now, a, suspend);
            && b == a.(status := b.status, sessions := b.sessions)
            && (outcome == Done && suspend ==>
                  b.status == Suspended && AllRevoked(b.sessions) && b.sessions.Keys == a.sessions.Keys)
            && (outcome == Done && !suspend ==> b.status == Active && b.sessions == a.sessions)
            && (outcome != Done ==> b == a)
  {
  }

  predicate Reactivates(step: Step) { step.Suspending? && !step.suspend }

  ghost predicate Out(a: Account) { a.status == Suspended && AllRevoked(a.sessions) }

  lemma GrantsStayOut(now: Time, a: Account, role: Role)
    requires Out(a)
    ensures Out(GrantRole(now, a, role))
  {
  }

  lemma RevocationsStayOut(now: Time, a: Account, role: Role)
    requires Out(a)
    ensures Out(RevokeRole(now, a, role))
  {
  }

  lemma CleanupStaysOut(c: Config, now: Time, a: Account)
    requires Out(a)
    ensures Out(Cleanup(c, now, a))
  {
  }

  lemma VerificationStaysOut(a: Account)
    requires Out(a)
    ensures VerifyEmail(a) == a && Out(ConfirmPhone(a)) && BeginLogin(a) == a && Out(BeginChange(a))
  {
  }

  lemma SessionUseStaysOut(c: Config, now: Time, a: Account, i: nat, chosen: set<nat>)
    requires Out(a)
    ensures TouchSession(c, now, a, i) == a && Out(RevokeChosen(now, a, chosen))
  {
  }

  lemma LinksStayOut(c: Config, now: Time, a: Account, token: nat)
    requires Out(a)
    ensures ResetPassword(now, a, token).0 == RequestEmailReset(c, now, a) == RequestPhoneReset(c, now, a) == a
  {
  }

  lemma SuspendedStep(c: Config, now: Time, a: Account, step: Step)
    requires Out(a) && !Reactivates(step)
    ensures Out(Next(c, now, a, step))
  {
    match step
    case CommittingLogin(i, prior) => if i in a.logins { RefusedLoginWritesNothing(c, now, a, i, prior); }
    case CommittingChange(i) => if i in a.changes { RefusedChangeWritesNothing(c, now, a, i); }
    case IssuingPhoneReset(i, m) => IssueLeavesSessions(c, now, a, i, m);
    case RejectingPhoneReset(i) => RejectionLeavesSessions(now, a, i);
    case Granting(role) => GrantsStayOut(now, a, role);
    case Revoking(role) => RevocationsStayOut(now, a, role);
    case CleaningUp => CleanupStaysOut(c, now, a);
    case TouchingSession(i) => SessionUseStaysOut(c, now, a, i, {});
    case RevokingSessions(chosen) => SessionUseStaysOut(c, now, a, 0, chosen);
    case ResettingPassword(token) => LinksStayOut(c, now, a, token);
    case Suspending(suspend) => SuspensionLeaves(now, a, suspend);
    case _ =>
      VerificationStaysOut(a);
      LinksStayOut(c, now, a, 0);
  }

  lemma {:induction false} StaysSuspended(c: Config, a: Account, timeline: seq<(Time, Step)>)
    requires Out(a) && forall i :: 0 <= i < |timeline| ==> !Reactivates(timeline[i].1)
    ensures Out(Run(c, a, timeline))
    decreases |timeline|
  {
    if timeline != [] {
      SuspendedStep(c, timeline[0].0, a, timeline[0].1);
      StaysSuspended(c, Next(c, timeline[0].0, a, timeline[0].1), timeline[1..]);
    }
  }

  lemma SuspendedGetsNothing(c: Config, now: Time, a: Account, i: nat, prior: Option<nat>)
    requires a.status == Suspended
    ensures i in a.logins ==> CommitLogin(c, now, a, i, prior).1.Failed?
    ensures i in a.changes ==> CommitChange(c, now, a, i).1 == Failed(AccountUnavailable)
    ensures ResetPassword(now, a, i).1.Failed? && BeginLogin(a) == a
    ensures RequestEmailReset(c, now, a) == a && RequestPhoneReset(c, now, a) == a
  {
  }

  /** What a suspension keeps out: until a reactivation, whatever else is tried in whatever order, no session made
      before is usable and none is made, no login and no password change commits, and no reset link works or is sent,
      begun before the suspension or after. */
  lemma SuspensionKeepsOut(c: Config, now: Time, a: Account, timeline: seq<(Time, Step)>, later: Time, i: nat,
                           prior: Option<nat>)
    requires SetSuspended(now, a, true).1 == Done
    requires forall k :: 0 <= k < |timeline| ==> !Reactivates(timeline[k].1)
    ensures var b := Run(c, SetSuspended(now, a, true).0, timeline);
            && b.status == Suspended
            && (i in b.sessions ==> !Usable(b.sessions[i], later))
            && (i in b.logins ==> CommitLogin(c, later, b, i, prior).1.Failed?)
            && (i in b.changes ==> CommitChange(c, later, b, i).1.Failed?)
            && ResetPassword(later, b, i).1.Failed? && BeginLogin(b) == b && RequestEmailReset(c, later, b) == b
  {
    SuspensionLeaves(now, a, true);
    StaysSuspended(c, SetSuspended(now, a, true).0, timeline);
    SuspendedGetsNothing(c, later, Run(c, SetSuspended(now, a, true).0, timeline), i, prior);
  }

  // ------------------------------------------------------------ roles

  /** SYSTEM is never granted, ADMIN only while no other account has it, any other role to anybody. */
  lemma GrantAnswers(now: Time, a: Account, role: Role, taken: bool)
    ensures var r := TryGrant(now, a, role, taken);
            && (r == Err(SystemIsReserved) <==> role == Role.System)
            && (r == Err(AdminAlreadyExists) <==> role == Admin && taken)
            && (r.Ok? <==> role != Role.System && (role == Admin ==> !taken))
            && (r.Ok? ==> r.value == a.(roles := a.roles + {role}, sessions := r.value.sessions)
                          && AllRevoked(r.value.sessions) && r.value.sessions.Keys == a.sessions.Keys)
  {
  }

  /** ADMIN is taken only while another account stands in. A role that is not there changes nothing. */
  lemma RevocationAnswers(now: Time, a: Account, role: Role, standIn: bool)
    ensures var r := TryRevoke(now, a, role, standIn);
            && (r == Err(LastAdmin) <==> role == Admin && !standIn)
            && (r.Ok? <==> (role == Admin ==> standIn))
            && (r.Ok? && role !in a.roles ==> r.value == a)
            && (r.Ok? && role in a.roles ==>
                  r.value == a.(roles := a.roles - {role}, sessions := r.value.sessions) && AllRevoked(r.value.sessions)
                  && r.value.sessions.Keys == a.sessions.Keys)
  {
  }

  // ------------------------------------------------------------ passwords

  /** What a new password leaves: the fresh hash, every session made before revoked, no live token and no approved
      request. */
  predicate Renewed(a: Account, b: Account, now: Time) {
    && b.hash == a.nextHash && b.nextHash == a.nextHash + 1
    && b.tokens.Keys == a.tokens.Keys
    && (forall i :: i in b.tokens ==> b.tokens[i].usedAt.Some? || b.tokens[i].revokedAt.Some?)
    && b.resets.Keys == a.resets.Keys && (forall i :: i in b.resets ==> b.resets[i].status != Approved)
    && (forall i :: i in a.sessions && i in b.sessions && i != a.nextId ==> b.sessions[i].revokedAt.Some?)
  }

  lemma ChangeBegins(a: Account)
    ensures BeginChange(a) == a.(changes := a.changes[a.nextId := a.hash], nextId := a.nextId + 1)
  {
  }

  /** A password change succeeds exactly for an active verified account, on the hash it verified, that is nobody of the
      SYSTEM role; the account comes first, then the hash. */
  lemma ChangeAnswers(c: Config, now: Time, a: Account, i: nat)
    requires i in a.changes
    ensures var outcome := CommitChange(c, now, a, i).1;
            var available := a.status == Active && Checked(a);
            && (outcome == Failed(InvalidCredentials) <==> available && a.hash != a.changes[i])
            && (outcome == Failed(AccountUnavailable) <==>
                  !available || (a.hash == a.changes[i] && Role.System in a.roles))
            && (outcome == Done <==> available && a.hash == a.changes[i] && Role.System !in a.roles)
  {
  }

  /** It leaves exactly one session, made now under the new hash. */
  lemma ChangeLeaves(c: Config, now: Time, a: Account, i: nat)
    requires i in a.changes && CommitChange(c, now, a, i).1 == Done && a.nextId !in a.sessions
    ensures var b := CommitChange(c, now, a, i).0;
            && Renewed(a, b, now) && b.changes == a.changes - {i} && b.logins == a.logins && b.nextId == a.nextId + 1
            && b.status == a.status && b.roles == a.roles
            && b.sessions.Keys == a.sessions.Keys + {a.nextId}
            && MadeNow(c, now, b.sessions[a.nextId], b.hash, a.roles)
  {
    RefreshLeaves(a, now);
  }

  lemma RefreshLeaves(a: Account, now: Time)
    ensures RevokeTokens(a.tokens, now).Keys == a.tokens.Keys && ExpireApproved(a.resets).Keys == a.resets.Keys
    ensures forall i :: i in a.tokens ==> !Live(RevokeTokens(a.tokens, now)[i])
    ensures forall i :: i in a.resets ==> ExpireApproved(a.resets)[i].status != Approved
  {
  }

  /** A token works exactly while it is there, unused, unrevoked and in time; the four failures are told apart. */
  lemma TokenAnswers(a: Account, token: nat, now: Time)
    ensures var f := TokenFailure(a, token, now);
            && (f == Some(TokenUsed) <==> token in a.tokens && a.tokens[token].usedAt.Some?)
            && (f == Some(InvalidToken) <==>
                  token !in a.tokens || (a.tokens[token].usedAt.None? && a.tokens[token].revokedAt.Some?))
            && (f == Some(TokenExpired) <==>
                  token in a.tokens && Live(a.tokens[token]) && a.tokens[token].expiresAt <= now)
            && (f.None? <==> token in a.tokens && Live(a.tokens[token]) && now < a.tokens[token].expiresAt)
  {
  }

  /** A reset succeeds exactly with a working token on an ACTIVE account; the token comes first. */
  lemma ResetAnswers(now: Time, a: Account, token: nat)
    ensures var outcome, f := ResetPassword(now, a, token).1, TokenFailure(a, token, now);
            && (outcome == Done <==> f.None? && a.status == Active)
            && (f.Some? ==> outcome == Failed(f.value))
            && (f.None? && a.status != Active ==> outcome == Failed(AccountUnavailable))
    ensures ResetPassword(now, a, token).1 != Done ==> ResetPassword(now, a, token).0 == a
  {
  }

  /** It uses its token, completes the request linked to it and no other, revokes every session and makes none. */
  lemma ResetLeaves(now: Time, a: Account, token: nat, i: nat)
    requires ResetPassword(now, a, token).1 == Done
    ensures var b := ResetPassword(now, a, token).0;
            && Renewed(a, b, now) && b.tokens[token].usedAt == Some(now)
            && b.sessions.Keys == a.sessions.Keys && AllRevoked(b.sessions)
            && b == a.(hash := b.hash, nextHash := b.nextHash, tokens := b.tokens, resets := b.resets,
                       sessions := b.sessions)
            && (i in a.resets && a.resets[i].status == Approved ==>
                  b.resets[i].link.None?
                  && b.resets[i].status == if a.resets[i].link == Some(token) then ResetCompleted else LinkExpired)
            && (i in a.resets && a.resets[i].status != Approved ==> b.resets[i] == a.resets[i])
  {
  }

  // ------------------------------------------------------------ reset links

  /** An e-mail link is sent exactly to an ACTIVE account with a verified address: it is the only live token, and no
      phone request keeps a link. */
  lemma EmailResetLeaves(c: Config, now: Time, a: Account, i: nat)
    ensures var b := RequestEmailReset(c, now, a);
            && (!(a.hasEmail && a.status == Active && a.emailVerified) ==> b == a)
            && (a.hasEmail && a.status == Active && a.emailVerified ==>
                  && b == a.(tokens := b.tokens, resets := b.resets, nextId := a.nextId + 1)
                  && a.nextId in b.tokens && b.tokens[a.nextId] == Token(now + c.resetTtl, None, None)
                  && (i in a.tokens && i != a.nextId ==> i in b.tokens && !Live(b.tokens[i]))
                  && (i in a.resets ==> i in b.resets && b.resets[i].status != Approved)
                  && (i in a.resets && a.resets[i].status != Approved ==> b.resets[i] == a.resets[i]))
  {
  }

  /** A phone request is taken exactly from an ACTIVE account with a verified phone, and waits. */
  lemma PhoneRequestLeaves(c: Config, now: Time, a: Account)
    ensures RequestPhoneReset(c, now, a)
            == if a.status == Active && a.phone == PhoneVerified
               then a.(resets := a.resets[a.nextId := PhoneReset(ResetPending, now + c.phoneRequestTtl, None)],
                       nextId := a.nextId + 1)
               else a
  {
  }

  /** An administrator issues a link exactly for a waiting request in time, of an ACTIVE account with a verified phone,
      with the reference that was told. */
  lemma IssueAnswers(c: Config, now: Time, a: Account, i: nat, matches: bool)
    ensures var outcome := IssuePhoneReset(c, now, a, i, matches).1;
            var fit := i in a.resets && a.status == Active && a.phone == PhoneVerified
                       && a.resets[i].status == ResetPending && matches;
            && (outcome == Failed(AccountUnavailable) <==> !fit)
            && (outcome == Failed(TokenExpired) <==> fit && a.resets[i].expiresAt <= now)
            && (outcome == Done <==> fit && now < a.resets[i].expiresAt)
  {
  }

  /** Issuing approves the request with the new token as its link, expires every other waiting one, unlinks every
      approved one and revokes every other live token. Late, it only lets the request expire. */
  lemma IssueLeaves(c: Config, now: Time, a: Account, i: nat, matches: bool, j: nat)
    ensures var (b, outcome) := IssuePhoneReset(c, now, a, i, matches);
            && (outcome == Failed(AccountUnavailable) ==> b == a)
            && (outcome == Failed(TokenExpired) ==> b == a.(resets := a.resets[i := a.resets[i].(status := Expired)]))
            && (outcome == Done ==>
                  && b == a.(tokens := b.tokens, resets := b.resets, nextId := a.nextId + 1)
                  && a.nextId in b.tokens && b.tokens[a.nextId] == Token(now + c.resetTtl, None, None)
                  && (j in a.tokens && j != a.nextId ==> j in b.tokens && !Live(b.tokens[j]))
                  && b.resets[i] == a.resets[i].(status := Approved, link := Some(a.nextId))
                  && (j in a.resets && j != i ==>
                        b.resets[j] == match a.resets[j].status
                                       case ResetPending => a.resets[j].(status := Expired)
                                       case Approved => a.resets[j].(status := LinkExpired, link := None)
                                       case _ => a.resets[j]))
  {
  }

  /** A waiting request is rejected in time, and expires when it is too late; any other is refused. */
  lemma RejectionAnswers(now: Time, a: Account, i: nat)
    ensures var (b, outcome) := RejectPhoneReset(now, a, i);
            var waiting := i in a.resets && a.resets[i].status == ResetPending;
            && (!waiting ==> outcome == Failed(AccountUnavailable) && b == a)
            && (waiting && a.resets[i].expiresAt <= now ==>
                  outcome == Failed(TokenExpired) && b == a.(resets := a.resets[i := a.resets[i].(status := Expired)]))
            && (waiting && now < a.resets[i].expiresAt ==>
                  outcome == Done && b == a.(resets := a.resets[i := a.resets[i].(status := ResetRejected)]))
  {
  }

  // ------------------------------------------------------------ cleanup

  /** Sessions go once they have expired, or were revoked longer ago than they are kept; tokens once they expired or
      were revoked longer ago than they are kept; the others stay as they are. */
  lemma CleanupRemoves(c: Config, now: Time, a: Account, i: nat)
    ensures var b := Cleanup(c, now, a);
            && b == a.(sessions := b.sessions, tokens := b.tokens, resets := b.resets)
            && (i in a.sessions ==>
                  var s := a.sessions[i];
                  if s.expiresAt < now || s.idleExpiresAt < now
                     || (s.revokedAt.Some? && s.revokedAt.value < now - c.sessionRetention)
                  then i !in b.sessions else i in b.sessions && b.sessions[i] == s)
            && (i in a.tokens ==>
                  var t := a.tokens[i];
                  if t.expiresAt < now - c.tokenRetention
                     || (t.revokedAt.Some? && t.revokedAt.value < now - c.tokenRetention)
                  then i !in b.tokens else i in b.tokens && b.tokens[i] == t)
            && (i !in a.sessions ==> i !in b.sessions) && (i !in a.tokens ==> i !in b.tokens)
  {
  }

  /** A waiting request expires when its time is over; an approved one loses its link when the linked token has expired
      or was revoked; the others stay as they are. */
  lemma CleanupSettlesRequests(c: Config, now: Time, a: Account, i: nat)
    requires i in a.resets
    ensures var b, r := Cleanup(c, now, a), a.resets[i];
            var dead := && r.status == Approved && r.link.Some? && r.link.value in a.tokens
                        && (a.tokens[r.link.value].expiresAt < now || a.tokens[r.link.value].revokedAt.Some?);
            && b.resets.Keys == a.resets.Keys
            && b.resets[i] == if r.status == ResetPending && r.expiresAt < now then r.(status := Expired)
                              else if dead then r.(status := LinkExpired, link := None) else r
  {
  }

  /** New accounts: one that registers waits for its verification; one that an administrator makes is active, with its
      phone verified and one link to set a password. */
  lemma NewAccountsStart(c: Config, now: Time, hasEmail: bool, phone: PhoneStatus)
    ensures var a := Registered(hasEmail, phone);
            && a.status == PendingVerification && a.hasEmail == hasEmail && !a.emailVerified && a.phone == phone
            && a.roles == {Student} && a.sessions == map[] && a.tokens == map[] && a.resets == map[]
    ensures var b := CreatedByAdmin(c, now);
            && b.status == Active && b.phone == PhoneVerified && b.roles == {Student} && b.sessions == map[]
            && b.tokens == map[0 := Token(now + c.resetTtl, None, None)] && b.resets.Keys == {1}
            && b.resets[1].status == Approved && b.resets[1].link == Some(0)
            && (TokenFailure(b, 0, now).None? <==> c.resetTtl > 0)
            && b.resets[1].expiresAt >= now + c.phoneRequestTtl && b.resets[1].expiresAt >= now + c.resetTtl + 60
            && b.resets[1].expiresAt in {now + c.phoneRequestTtl, now + c.resetTtl + 60}
  {
  }
}
