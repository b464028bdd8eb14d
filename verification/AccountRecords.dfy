/** The authentication service over one mutable account. Each method is one transaction under the user's row lock,
    written in place as the service writes it; it refines the step of the state machine that carries its name, and
    leaves an account that was secure and coherently linked so. */
module AccountRecords {
  import opened Wrappers
  import opened RequestStates
  import M = AccountModel
  import opened AccountModel
  import S = AccountSecurity

  class AccountRecord {
    var status: UserStatus
    const hasEmail: bool
    var emailVerified: bool
    var phone: PhoneStatus
    var hash: Hash
    var roles: set<Role>
    var sessions: map<nat, Session>
    var tokens: map<nat, Token>
    var resets: map<nat, PhoneReset>
    var logins: map<nat, Hash>
    var changes: map<nat, Hash>
    var nextId: nat
    var nextHash: Hash

    function View(): Account
      reads this
    {
      Account(status, hasEmail, emailVerified, phone, hash, roles, sessions, tokens, resets, logins, changes,
              nextId, nextHash)
    }

    constructor (hasEmail: bool, phone: PhoneStatus)
      ensures View() == Registered(hasEmail, phone) && S.Secure(View()) && S.Linked(View())
    {
      this.hasEmail, this.phone := hasEmail, phone;
      status, emailVerified, hash, roles := PendingVerification, false, 0, {Student};
      sessions, tokens, resets, logins, changes := map[], map[], map[], map[], map[];
      nextId, nextHash := 0, 1;
    }

    // --------------------------------------------------------- verification

    method VerifyEmail()
      modifies this`status, this`emailVerified
      ensures View() == M.VerifyEmail(old(View()))
    {
      if status == PendingVerification && phone != PhonePending { status, emailVerified := Active, true; }
    }

    method ConfirmPhone()
      modifies this`status, this`phone
      ensures View() == M.ConfirmPhone(old(View()))
    {
      if phone != PhonePending { return; }
      phone := PhoneVerified;
      if status == PendingVerification { status := Active; }
    }

    // ------------------------------------------------------------- sessions

    method BeginLogin()
      modifies this`logins, this`nextId
      ensures View() == M.BeginLogin(old(View()))
    {
      if status != Active || (!emailVerified && phone != PhoneVerified) { return; }
      logins := logins[nextId := hash];
      nextId := nextId + 1;
    }

    method CommitLogin(c: Config, now: Time, attempt: nat, prior: Option<nat>) returns (outcome: Outcome)
      requires attempt in logins
      modifies this`logins, this`sessions, this`nextId
      ensures (View(), outcome) == M.CommitLogin(c, now, old(View()), attempt, prior)
    {
      var verified := logins[attempt];
      logins := Forget(logins, attempt);
      if hash != verified { return Failed(InvalidCredentials); }
      if status == PendingVerification || (!emailVerified && phone != PhoneVerified) { return Failed(NotVerified); }
      if status != Active { return Failed(AccountUnavailable); }
      if Role.System in roles { return Failed(AccountUnavailable); }
      if prior.Some? && prior.value in sessions && sessions[prior.value].revokedAt.None? {
        sessions := sessions[prior.value := sessions[prior.value].(revokedAt := Some(now))];
      }
      sessions := sessions[nextId := NewSession(c, now, verified, roles)];
      nextId := nextId + 1;
      return Done;
    }

    method TouchSession(c: Config, now: Time, i: nat)
      modifies this`sessions
      ensures View() == M.TouchSession(c, now, old(View()), i)
    {
      if i !in sessions { return; }
      var s := sessions[i];
      if s.revokedAt.Some? || s.expiresAt <= now || s.idleExpiresAt <= now { return; }
      if status != Active || (!emailVerified && phone != PhoneVerified) || Role.System in roles { return; }
      if now - s.lastSeenAt >= c.sessionTouch {
        var extended := now + c.IdleTtl(roles);
        if s.expiresAt < extended { extended := s.expiresAt; }
        sessions := sessions[i := s.(lastSeenAt := now, idleExpiresAt := extended)];
      }
    }

    method RevokeChosen(now: Time, chosen: set<nat>)
      modifies this`sessions
      ensures View() == M.RevokeChosen(now, old(View()), chosen)
    {
      sessions := map i | i in sessions ::
        if i in chosen && sessions[i].revokedAt.None? then sessions[i].(revokedAt := Some(now)) else sessions[i];
    }

    method SetSuspended(now: Time, suspend: bool) returns (outcome: Outcome)
      modifies this`status, this`sessions
      ensures (View(), outcome) == M.SetSuspended(now, old(View()), suspend)
    {
      if Student !in roles { return Failed(AccountUnavailable); }
      var expected := if suspend then Active else Suspended;
      if status != expected { return Failed(AccountUnavailable); }
      status := if suspend then Suspended else Active;
      if suspend { sessions := RevokeAll(sessions, now); }
      return Done;
    }

    method GrantRole(now: Time, role: Role, taken: bool) returns (refusal: Option<RoleError>)
      modifies this`roles, this`sessions
      ensures match TryGrant(now, old(View()), role, taken)
              case Err(e) => refusal == Some(e) && View() == old(View())
              case Ok(a) => refusal.None? && View() == a
    {
      if role == Role.System { return Some(SystemIsReserved); }
      if role == Admin && taken { return Some(AdminAlreadyExists); }
      roles := roles + {role};
      sessions := RevokeAll(sessions, now);
      return None;
    }

    method RevokeRole(now: Time, role: Role, standIn: bool) returns (refusal: Option<RoleError>)
      modifies this`roles, this`sessions
      ensures match TryRevoke(now, old(View()), role, standIn)
              case Err(e) => refusal == Some(e) && View() == old(View())
              case Ok(a) => refusal.None? && View() == a
    {
      if role == Admin && !standIn { return Some(LastAdmin); }
      if role !in roles { return None; }
      roles := roles - {role};
      sessions := RevokeAll(sessions, now);
      return None;
    }

    // ------------------------------------------------------------ passwords

    /** A new password hash, and everything made under the old one revoked. */
    method ReplacePassword(now: Time)
      modifies this`hash, this`nextHash, this`tokens, this`resets, this`sessions
      ensures hash == old(nextHash) && nextHash == old(nextHash) + 1
      ensures resets == ExpireApproved(old(resets)) && tokens == RevokeTokens(old(tokens), now)
      ensures sessions == RevokeAll(old(sessions), now)
    {
      hash := nextHash;
      nextHash := nextHash + 1;
      resets := ExpireApproved(resets);
      tokens := RevokeTokens(tokens, now);
      sessions := RevokeAll(sessions, now);
    }

    method BeginChange()
      modifies this`changes, this`nextId
      ensures View() == M.BeginChange(old(View()))
    {
      changes := changes[nextId := hash];
      nextId := nextId + 1;
    }

    method CommitChange(c: Config, now: Time, attempt: nat) returns (outcome: Outcome)
      requires attempt in changes
      modifies this`changes, this`hash, this`nextHash, this`tokens, this`resets, this`sessions, this`nextId
      ensures (View(), outcome) == M.CommitChange(c, now, old(View()), attempt)
    {
      var verified := changes[attempt];
      changes := Forget(changes, attempt);
      if status != Active || (!emailVerified && phone != PhoneVerified) { return Failed(AccountUnavailable); }
      if hash != verified { return Failed(InvalidCredentials); }
      // The service writes first and meets the SYSTEM check last, which rolls everything back.
      if Role.System in roles { return Failed(AccountUnavailable); }
      ReplacePassword(now);
      sessions := sessions[nextId := NewSession(c, now, hash, roles)];
      nextId := nextId + 1;
      return Done;
    }

    method ResetPassword(now: Time, token: nat) returns (outcome: Outcome)
      modifies this`hash, this`nextHash, this`tokens, this`resets, this`sessions
      ensures (View(), outcome) == M.ResetPassword(now, old(View()), token)
    {
      var failure := TokenFailure(View(), token, now);
      if failure.Some? { return Failed(failure.value); }
      if status != Active { return Failed(AccountUnavailable); }
      tokens := tokens[token := tokens[token].(usedAt := Some(now))];
      resets := CompleteLinked(resets, token);
      ReplacePassword(now);
      return Done;
    }

    method RequestEmailReset(c: Config, now: Time)
      modifies this`tokens, this`resets, this`nextId
      ensures View() == M.RequestEmailReset(c, now, old(View()))
    {
      if !hasEmail || status != Active || !emailVerified { return; }
      resets := ExpireApproved(resets);
      tokens := RevokeTokens(tokens, now);
      tokens := tokens[nextId := Token(now + c.resetTtl, None, None)];
      nextId := nextId + 1;
    }

    method RequestPhoneReset(c: Config, now: Time)
      modifies this`resets, this`nextId
      ensures View() == M.RequestPhoneReset(c, now, old(View()))
    {
      if status != Active || phone != PhoneVerified { return; }
      resets := resets[nextId := PhoneReset(ResetPending, now + c.phoneRequestTtl, None)];
      nextId := nextId + 1;
    }

    method IssuePhoneReset(c: Config, now: Time, request: nat, referenceMatches: bool) returns (outcome: Outcome)
      modifies this`tokens, this`resets, this`nextId
      ensures (View(), outcome) == M.IssuePhoneReset(c, now, old(View()), request, referenceMatches)
    {
      if request !in resets || status != Active || phone != PhoneVerified { return Failed(AccountUnavailable); }
      var pending := resets[request];
      if pending.status != ResetPending || !referenceMatches { return Failed(AccountUnavailable); }
      if pending.expiresAt <= now {
        resets := resets[request := pending.(status := Expired)];
        return Failed(TokenExpired);
      }
      resets := ExpireOtherPending(resets, request);
      resets := ExpireApproved(resets);
      tokens := RevokeTokens(tokens, now);
      tokens := tokens[nextId := Token(now + c.resetTtl, None, None)];
      resets := resets[request := pending.(status := Approved, link := Some(nextId))];
      nextId := nextId + 1;
      return Done;
    }

    method RejectPhoneReset(now: Time, request: nat) returns (outcome: Outcome)
      modifies this`resets
      ensures (View(), outcome) == M.RejectPhoneReset(now, old(View()), request)
    {
      if request !in resets || resets[request].status != ResetPending { return Failed(AccountUnavailable); }
      if resets[request].expiresAt <= now {
        resets := resets[request := resets[request].(status := Expired)];
        return Failed(TokenExpired);
      }
      resets := resets[request := resets[request].(status := ResetRejected)];
      return Done;
    }

    /** The cleanup's statements in their order: requests are unlinked before their tokens are deleted. */
    method Cleanup(c: Config, now: Time)
      modifies this`sessions, this`tokens, this`resets
      ensures View() == M.Cleanup(c, now, old(View()))
    {
      sessions := map i | i in sessions && !SessionStale(c, now, sessions[i]) :: sessions[i];
      resets := map i | i in resets :: CleanReset(now, tokens, resets[i]);
      tokens := map i | i in tokens && !TokenStale(c, now, tokens[i]) :: tokens[i];
    }

    // ------------------------------------------------------------- every call

    /** The sessions and roles half of `Dispatch`. */
    method DispatchSession(c: Config, now: Time, step: Step)
      requires step.BeginningLogin? || step.CommittingLogin? || step.TouchingSession? || step.RevokingSessions?
               || step.Suspending? || step.Granting? || step.Revoking?
      modifies this
      ensures View() == M.Next(c, now, old(View()), step)
    {
      match step {
        case BeginningLogin => BeginLogin();
        case CommittingLogin(i, prior) => if i in logins { var _ := CommitLogin(c, now, i, prior); }
        case TouchingSession(i) => TouchSession(c, now, i);
        case RevokingSessions(chosen) => RevokeChosen(now, chosen);
        case Suspending(suspend) => var _ := SetSuspended(now, suspend);
        case Granting(role) => var _ := GrantRole(now, role, false);
        case Revoking(role) => var _ := RevokeRole(now, role, true);
      }
    }

    /** Any call of the service is the step of the state machine it is modelled by. */
    method Dispatch(c: Config, now: Time, step: Step)
      modifies this
      ensures View() == M.Next(c, now, old(View()), step)
    {
      match step {
        case VerifyingEmail => VerifyEmail();
        case ConfirmingPhone => ConfirmPhone();
        case BeginningChange => BeginChange();
        case CommittingChange(i) => if i in changes { var _ := CommitChange(c, now, i); }
        case ResettingPassword(token) => var _ := ResetPassword(now, token);
        case RequestingEmailReset => RequestEmailReset(c, now);
        case RequestingPhoneReset => RequestPhoneReset(c, now);
        case IssuingPhoneReset(i, matches) => var _ := IssuePhoneReset(c, now, i, matches);
        case RejectingPhoneReset(i) => var _ := RejectPhoneReset(now, i);
        case CleaningUp => Cleanup(c, now);
        case _ => DispatchSession(c, now, step);
      }
    }

    /** So every call leaves an account that was secure secure, and its links coherent. */
    method Perform(c: Config, now: Time, step: Step)
      requires c.Valid()
      modifies this
      ensures View() == M.Next(c, now, old(View()), step)
      ensures S.Secure(old(View())) ==> S.Secure(View())
      ensures S.Linked(old(View())) ==> S.Linked(View())
    {
      S.StepKeeps(c, now, View(), step);
      Dispatch(c, now, step);
    }
  }
}
