/** One user account: credential, roles, sessions, password-reset tokens and phone reset requests, and the login and
    password-change attempts that have verified a password but not committed yet. Each function is one transaction
    under the user's row lock; password verification happens between transactions. */
module AccountModel {
  import opened Wrappers
  import opened RequestStates

  type Time = int
  /** A salted password hash. Every call of the hash function yields a new one. */
  type Hash = nat

  datatype Config = Config(
    adminAbsoluteTtl: nat, adminIdleTtl: nat, studentAbsoluteTtl: nat, studentIdleTtl: nat,
    resetTtl: nat, phoneRequestTtl: nat, sessionTouch: nat, sessionRetention: nat, tokenRetention: nat)
  {
    /** What configuration loading enforces. */
    predicate Valid() {
      adminIdleTtl <= adminAbsoluteTtl && studentIdleTtl <= studentAbsoluteTtl
    }

    function AbsoluteTtl(roles: set<Role>): nat { if Admin in roles then adminAbsoluteTtl else studentAbsoluteTtl }

    function IdleTtl(roles: set<Role>): nat { if Admin in roles then adminIdleTtl else studentIdleTtl }
  }

  datatype UserStatus = PendingVerification | Active | Suspended

  datatype PhoneStatus = NotRequired | PhonePending | PhoneVerified

  /** `hash` is the hash the password was verified against, `roles` the role set read when the session was made. */
  datatype Session = Session(
    hash: Hash, roles: set<Role>, expiresAt: Time, idleExpiresAt: Time, lastSeenAt: Time, revokedAt: Option<Time>)

  datatype Token = Token(expiresAt: Time, usedAt: Option<Time>, revokedAt: Option<Time>)

  datatype ResetStatus = ResetPending | Approved | ResetRejected | Expired | LinkExpired | ResetCompleted

  datatype PhoneReset = PhoneReset(status: ResetStatus, expiresAt: Time, link: Option<nat>)

  datatype Account = Account(
    status: UserStatus, hasEmail: bool, emailVerified: bool, phone: PhoneStatus,
    hash: Hash, roles: set<Role>,
    sessions: map<nat, Session>, tokens: map<nat, Token>, resets: map<nat, PhoneReset>,
    logins: map<nat, Hash>,    // login attempts: the hash each one verified its password against
    changes: map<nat, Hash>,   // password-change attempts, likewise
    nextId: nat, nextHash: Hash)
  {
    predicate Verified() { emailVerified || phone == PhoneVerified }
  }

  datatype AuthError = InvalidCredentials | NotVerified | AccountUnavailable | InvalidToken | TokenUsed | TokenExpired

  /** Whether the call succeeded; a failed call may still have committed something. */
  datatype Outcome = Done | Failed(error: AuthError)

  // -------------------------------------------------------- bulk row updates

  predicate Live(t: Token) { t.usedAt.None? && t.revokedAt.None? }

  function RevokeAll(sessions: map<nat, Session>, now: Time): map<nat, Session> {
    map i | i in sessions :: if sessions[i].revokedAt.None? then sessions[i].(revokedAt := Some(now)) else sessions[i]
  }

  function RevokeTokens(tokens: map<nat, Token>, now: Time): map<nat, Token> {
    map i | i in tokens :: if Live(tokens[i]) then tokens[i].(revokedAt := Some(now)) else tokens[i]
  }

  function ExpireApproved(resets: map<nat, PhoneReset>): map<nat, PhoneReset> {
    map i | i in resets ::
      if resets[i].status == Approved then resets[i].(status := LinkExpired, link := None) else resets[i]
  }

  function ExpireOtherPending(resets: map<nat, PhoneReset>, kept: nat): map<nat, PhoneReset> {
    map i | i in resets ::
      if resets[i].status == ResetPending && i != kept then resets[i].(status := Expired) else resets[i]
  }

  function CompleteLinked(resets: map<nat, PhoneReset>, token: nat): map<nat, PhoneReset> {
    map i | i in resets ::
      if resets[i].status == Approved && resets[i].link == Some(token)
      then resets[i].(status := ResetCompleted, link := None) else resets[i]
  }

  // --------------------------------------------------------- account creation

  function Registered(hasEmail: bool, phone: PhoneStatus): Account {
    Account(PendingVerification, hasEmail, false, phone, 0, {Student}, map[], map[], map[], map[], map[], 0, 1)
  }

  /** An account made by an administrator starts with an approved reset request and its setup link. */
  function CreatedByAdmin(c: Config, now: Time): Account {
    Account(Active, false, false, PhoneVerified, 0, {Student}, map[],
            map[0 := Token(now + c.resetTtl, None, None)],
            map[1 := PhoneReset(Approved,
                                now + (if c.phoneRequestTtl > c.resetTtl + 60 then c.phoneRequestTtl else c.resetTtl + 60),
                                Some(0))],
            map[], map[], 2, 1)
  }

  function VerifyEmail(a: Account): Account {
    if a.status == PendingVerification && a.phone != PhonePending then a.(status := Active, emailVerified := true) else a
  }

  function ConfirmPhone(a: Account): Account {
    if a.phone != PhonePending then a
    else a.(phone := PhoneVerified, status := if a.status == PendingVerification then Active else a.status)
  }

  // ------------------------------------------------------ logins and sessions

  function NewSession(c: Config, now: Time, hash: Hash, roles: set<Role>): Session {
    Session(hash, roles, now + c.AbsoluteTtl(roles), now + c.IdleTtl(roles), now, None)
  }

  /** The unlocked first half of a login: the password matches the hash read here, and the account may log in. */
  function BeginLogin(a: Account): Account {
    if a.status != Active || !a.Verified() then a
    else a.(logins := a.logins[a.nextId := a.hash], nextId := a.nextId + 1)
  }

  function Forget(attempts: map<nat, Hash>, i: nat): map<nat, Hash> {
    attempts - {i}
  }

  /** The locked second half: the credential is read again and must still be the verified one. */
  function CommitLogin(c: Config, now: Time, a: Account, attempt: nat, prior: Option<nat>): (Account, Outcome)
    requires attempt in a.logins
  {
    var a1 := a.(logins := Forget(a.logins, attempt));
    if a.hash != a.logins[attempt] then (a1, Failed(InvalidCredentials))
    else if a.status == PendingVerification || !a.Verified() then (a1, Failed(NotVerified))
    else if a.status != Active then (a1, Failed(AccountUnavailable))
    else if Role.System in a.roles then (a1, Failed(AccountUnavailable))
    else
      var rotated :=
        if prior.Some? && prior.value in a.sessions && a.sessions[prior.value].revokedAt.None?
        then a.sessions[prior.value := a.sessions[prior.value].(revokedAt := Some(now))] else a.sessions;
      (a1.(sessions := rotated[a.nextId := NewSession(c, now, a.logins[attempt], a.roles)], nextId := a.nextId + 1), Done)
  }

  /** Session use: extends the idle deadline, never beyond the absolute one. */
  function TouchSession(c: Config, now: Time, a: Account, i: nat): Account {
    if i !in a.sessions then a
    else
      var s := a.sessions[i];
      if s.revokedAt.Some? || s.expiresAt <= now || s.idleExpiresAt <= now || a.status != Active || !a.Verified()
         || Role.System in a.roles || now - s.lastSeenAt < c.sessionTouch then a
      else
        var extended := now + c.IdleTtl(a.roles);
        a.(sessions := a.sessions[i := s.(lastSeenAt := now,
                                          idleExpiresAt := if extended < s.expiresAt then extended else s.expiresAt)])
  }

  /** Logout, one session or all but one. */
  function RevokeChosen(now: Time, a: Account, chosen: set<nat>): Account {
    a.(sessions := map i | i in a.sessions ::
         if i in chosen && a.sessions[i].revokedAt.None? then a.sessions[i].(revokedAt := Some(now)) else a.sessions[i])
  }

  function SetSuspended(now: Time, a: Account, suspend: bool): (Account, Outcome) {
    if Student !in a.roles || a.status != (if suspend then Active else Suspended) then (a, Failed(AccountUnavailable))
    else if suspend then (a.(status := Suspended, sessions := RevokeAll(a.sessions, now)), Done)
    else (a.(status := Active), Done)
  }

  function GrantRole(now: Time, a: Account, role: Role): Account {
    a.(roles := a.roles + {role}, sessions := RevokeAll(a.sessions, now))
  }

  function RevokeRole(now: Time, a: Account, role: Role): Account {
    if role !in a.roles then a else a.(roles := a.roles - {role}, sessions := RevokeAll(a.sessions, now))
  }

  datatype RoleError = SystemIsReserved | AdminAlreadyExists | LastAdmin

  /** `taken` tells that the first administrator listed is another account. */
  function TryGrant(now: Time, a: Account, role: Role, taken: bool): Result<Account, RoleError> {
    if role == Role.System then Err(SystemIsReserved)
    else if role == Admin && taken then Err(AdminAlreadyExists)
    else Ok(GrantRole(now, a, role))
  }

  /** `standIn` tells that another account is a capable administrator. */
  function TryRevoke(now: Time, a: Account, role: Role, standIn: bool): Result<Account, RoleError> {
    if role == Admin && !standIn then Err(LastAdmin) else Ok(RevokeRole(now, a, role))
  }

  // ---------------------------------------------------------------- passwords

  function BeginChange(a: Account): Account {
    a.(changes := a.changes[a.nextId := a.hash], nextId := a.nextId + 1)
  }

  function CommitChange(c: Config, now: Time, a: Account, attempt: nat): (Account, Outcome)
    requires attempt in a.changes
  {
    var a1 := a.(changes := Forget(a.changes, attempt));
    if a.status != Active || !a.Verified() then (a1, Failed(AccountUnavailable))
    else if a.hash != a.changes[attempt] then (a1, Failed(InvalidCredentials))
    else if Role.System in a.roles then (a1, Failed(AccountUnavailable))
    else
      (a1.(hash := a.nextHash, nextHash := a.nextHash + 1,
           resets := ExpireApproved(a.resets), tokens := RevokeTokens(a.tokens, now),
           sessions := RevokeAll(a.sessions, now)[a.nextId := NewSession(c, now, a.nextHash, a.roles)],
           nextId := a.nextId + 1), Done)
  }

  function TokenFailure(a: Account, token: nat, now: Time): Option<AuthError> {
    if token !in a.tokens then Some(InvalidToken)
    else if a.tokens[token].usedAt.Some? then Some(TokenUsed)
    else if a.tokens[token].revokedAt.Some? then Some(InvalidToken)
    else if a.tokens[token].expiresAt <= now then Some(TokenExpired)
    else None
  }

  function ResetPassword(now: Time, a: Account, token: nat): (Account, Outcome) {
    var failure := TokenFailure(a, token, now);
    if failure.Some? then (a, Failed(failure.value))
    else if a.status != Active then (a, Failed(AccountUnavailable))
    else
      var used := a.tokens[token := a.tokens[token].(usedAt := Some(now))];
      (a.(hash := a.nextHash, nextHash := a.nextHash + 1,
          tokens := RevokeTokens(used, now),
          resets := ExpireApproved(CompleteLinked(a.resets, token)),
          sessions := RevokeAll(a.sessions, now)), Done)
  }

  function RequestEmailReset(c: Config, now: Time, a: Account): Account {
    if !a.hasEmail || a.status != Active || !a.emailVerified then a
    else a.(resets := ExpireApproved(a.resets),
            tokens := RevokeTokens(a.tokens, now)[a.nextId := Token(now + c.resetTtl, None, None)],
            nextId := a.nextId + 1)
  }

  function RequestPhoneReset(c: Config, now: Time, a: Account): Account {
    if a.status != Active || a.phone != PhoneVerified then a
    else a.(resets := a.resets[a.nextId := PhoneReset(ResetPending, now + c.phoneRequestTtl, None)],
            nextId := a.nextId + 1)
  }

  function IssuePhoneReset(c: Config, now: Time, a: Account, request: nat, referenceMatches: bool): (Account, Outcome) {
    if request !in a.resets || a.status != Active || a.phone != PhoneVerified then (a, Failed(AccountUnavailable))
    else if a.resets[request].status != ResetPending || !referenceMatches then (a, Failed(AccountUnavailable))
    else if a.resets[request].expiresAt <= now
    then (a.(resets := a.resets[request := a.resets[request].(status := Expired)]), Failed(TokenExpired))
    else
      var cleared := ExpireApproved(ExpireOtherPending(a.resets, request));
      (a.(resets := cleared[request := a.resets[request].(status := Approved, link := Some(a.nextId))],
          tokens := RevokeTokens(a.tokens, now)[a.nextId := Token(now + c.resetTtl, None, None)],
          nextId := a.nextId + 1), Done)
  }

  function RejectPhoneReset(now: Time, a: Account, request: nat): (Account, Outcome) {
    if request !in a.resets || a.resets[request].status != ResetPending then (a, Failed(AccountUnavailable))
    else
      var late := a.resets[request].expiresAt <= now;
      var closed := a.resets[request].(status := if late then Expired else ResetRejected);
      (a.(resets := a.resets[request := closed]), if late then Failed(TokenExpired) else Done)
  }

  // ------------------------------------------------------------------ cleanup

  predicate SessionStale(c: Config, now: Time, s: Session) {
    s.expiresAt < now || s.idleExpiresAt < now || (s.revokedAt.Some? && s.revokedAt.value < now - c.sessionRetention)
  }

  predicate TokenStale(c: Config, now: Time, t: Token) {
    t.expiresAt < now - c.tokenRetention || (t.revokedAt.Some? && t.revokedAt.value < now - c.tokenRetention)
  }

  function CleanReset(now: Time, tokens: map<nat, Token>, r: PhoneReset): PhoneReset {
    if r.status == ResetPending && r.expiresAt < now then r.(status := Expired)
    else if r.status == Approved && r.link.Some? && r.link.value in tokens
            && (tokens[r.link.value].expiresAt < now || tokens[r.link.value].revokedAt.Some?)
    then r.(status := LinkExpired, link := None)
    else r
  }

  function Cleanup(c: Config, now: Time, a: Account): Account {
    a.(sessions := map i | i in a.sessions && !SessionStale(c, now, a.sessions[i]) :: a.sessions[i],
       resets := map i | i in a.resets :: CleanReset(now, a.tokens, a.resets[i]),
       tokens := map i | i in a.tokens && !TokenStale(c, now, a.tokens[i]) :: a.tokens[i])
  }

  // ------------------------------------------------------------------- steps

  datatype Step =
    | VerifyingEmail
    | ConfirmingPhone
    | BeginningLogin
    | CommittingLogin(attempt: nat, prior: Option<nat>)
    | TouchingSession(session: nat)
    | RevokingSessions(chosen: set<nat>)
    | Suspending(suspend: bool)
    | Granting(role: Role)
    | Revoking(role: Role)
    | BeginningChange
    | CommittingChange(attempt: nat)
    | ResettingPassword(token: nat)
    | RequestingEmailReset
    | RequestingPhoneReset
    | IssuingPhoneReset(request: nat, referenceMatches: bool)
    | RejectingPhoneReset(request: nat)
    | CleaningUp

  /** One step of one account. SYSTEM is never granted through this service. */
  function Next(c: Config, now: Time, a: Account, step: Step): Account {
    match step
    case VerifyingEmail => VerifyEmail(a)
    case ConfirmingPhone => ConfirmPhone(a)
    case BeginningLogin => BeginLogin(a)
    case CommittingLogin(i, prior) => if i in a.logins then CommitLogin(c, now, a, i, prior).0 else a
    case TouchingSession(i) => TouchSession(c, now, a, i)
    case RevokingSessions(chosen) => RevokeChosen(now, a, chosen)
    case Suspending(suspend) => SetSuspended(now, a, suspend).0
    case Granting(role) => if role == Role.System then a else GrantRole(now, a, role)
    case Revoking(role) => RevokeRole(now, a, role)
    case BeginningChange => BeginChange(a)
    case CommittingChange(i) => if i in a.changes then CommitChange(c, now, a, i).0 else a
    case ResettingPassword(token) => ResetPassword(now, a, token).0
    case RequestingEmailReset => RequestEmailReset(c, now, a)
    case RequestingPhoneReset => RequestPhoneReset(c, now, a)
    case IssuingPhoneReset(i, matches) => IssuePhoneReset(c, now, a, i, matches).0
    case RejectingPhoneReset(i) => RejectPhoneReset(now, a, i).0
    case CleaningUp => Cleanup(c, now, a)
  }

  /** A run: each step at its own time. Steps of other accounts are invisible here. */
  function Run(c: Config, a: Account, timeline: seq<(Time, Step)>): Account
    decreases |timeline|
  {
    if timeline == [] then a else Run(c, Next(c, timeline[0].0, a, timeline[0].1), timeline[1..])
  }
}
