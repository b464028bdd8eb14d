/** Priced offers on one request: the request row, its quotes, the dues opened for accepted quotes, the record of
    withdrawals, and the request's attachments as far as its version is concerned. Each function is one transaction
    under the request's row lock. */
module Quotes {
  import opened Wrappers
  import opened RequestStates
  import W = Workflow
  import Ledger

  type Time = int
  type UserId = nat
  /** A client's idempotency key, and the digest of the payload it came with. */
  type Key = nat
  type Fingerprint = nat
  type QuoteId = nat

  datatype QuoteStatus = Pending | Accepted | Rejected | Expired | Withdrawn

  datatype Response = Response(key: Key, fingerprint: Fingerprint)

  datatype Quote = Quote(
    creator: UserId, key: Key, fingerprint: Fingerprint, amount: nat, currency: Ledger.Currency, minorUnit: nat,
    expiresAt: Time, status: QuoteStatus, version: nat, response: Option<Response>)

  /** The row that ties an accepted quote to the due opened for it. */
  datatype Link = Link(quote: QuoteId, due: Ledger.Due)

  datatype Withdrawal = Withdrawal(admin: UserId, key: Key, quote: QuoteId, fingerprint: Fingerprint)

  /** An attachment as the request's row lock sees it; the rest of its life is AttachmentModel's. */
  datatype FileState = Uploading | Kept | Failed | Removed   // Removed: marked deleted, by the student or the reconciler

  type FileId = nat

  datatype Deal = Deal(
    request: W.Request, quotes: seq<Quote>, links: seq<Link>, withdrawals: seq<Withdrawal>, files: seq<FileState>)

  datatype QuoteError =
    | IdempotencyKeyReused | RequestNotFound | QuoteNotFound | VersionConflict | QuoteVersionConflict
    | QuoteNotPending | InvalidTransition | QuoteExpired

  /** `Expiring` is the refusal that commits: the quote becomes EXPIRED and the caller is told so. */
  datatype Outcome = Committed(quote: QuoteId) | Replayed(quote: QuoteId) | Expiring | Refused(error: QuoteError)

  datatype Offer = Offer(
    key: Key, fingerprint: Fingerprint, expectedRequestVersion: nat, amount: nat, currency: Ledger.Currency,
    expiresAt: Time)

  // ------------------------------------------------------------------- pieces

  predicate MadeWith(q: Quote, creator: UserId, key: Key) { q.creator == creator && q.key == key }

  /** The quote an administrator already made with a key. */
  function FindMade(quotes: seq<Quote>, creator: UserId, key: Key): (r: Option<QuoteId>)
    ensures r.Some? ==> r.value < |quotes| && MadeWith(quotes[r.value], creator, key)
    ensures r.None? ==> forall i :: 0 <= i < |quotes| ==> !MadeWith(quotes[i], creator, key)
  {
    if quotes == [] then None
    else if MadeWith(quotes[|quotes| - 1], creator, key) then Some(|quotes| - 1)
    else FindMade(quotes[..|quotes| - 1], creator, key)
  }

  function FindWithdrawal(ws: seq<Withdrawal>, admin: UserId, key: Key): (r: Option<Withdrawal>)
    ensures r.Some? ==> r.value in ws && r.value.admin == admin && r.value.key == key
    ensures r.None? ==> forall i :: 0 <= i < |ws| ==> !(ws[i].admin == admin && ws[i].key == key)
  {
    if ws == [] then None
    else
      var w := ws[|ws| - 1];
      if w.admin == admin && w.key == key then Some(w) else FindWithdrawal(ws[..|ws| - 1], admin, key)
  }

  function FindLink(links: seq<Link>, q: QuoteId): (r: Option<nat>)
    ensures r.Some? ==> r.value < |links| && links[r.value].quote == q
    ensures r.None? ==> forall i :: 0 <= i < |links| ==> links[i].quote != q
  {
    if links == [] then None
    else if links[|links| - 1].quote == q then Some(|links| - 1)
    else FindLink(links[..|links| - 1], q)
  }

  function Lapsed(q: Quote, now: Time): Quote {
    if q.status == Pending && q.expiresAt <= now then q.(status := Expired, version := q.version + 1) else q
  }

  /** The pending quotes whose time is over, in one update. */
  function ExpirePending(quotes: seq<Quote>, now: Time): (r: seq<Quote>)
    ensures |r| == |quotes| && forall i :: 0 <= i < |quotes| ==> r[i] == Lapsed(quotes[i], now)
  {
    if quotes == [] then [] else ExpirePending(quotes[..|quotes| - 1], now) + [Lapsed(quotes[|quotes| - 1], now)]
  }

  predicate AnyPending(quotes: seq<Quote>) { exists i :: 0 <= i < |quotes| && quotes[i].status == Pending }

  function Settled(q: Quote, status: QuoteStatus): Quote { q.(status := status, version := q.version + 1) }

  function Answered(q: Quote, response: Response, accept: bool): Quote {
    Settled(q, if accept then QuoteStatus.Accepted else QuoteStatus.Rejected).(response := Some(response))
  }

  /** The status moves that lead a request to QUOTED before an offer is stored. */
  function LeadToQuoted(r: W.Request): Result<W.Request, W.RequestError> {
    var toReview :=
      if r.status == Submitted || r.status == WaitingForStudent
      then W.Move(r, W.StatusChanged, Admin, UnderReview) else Ok(r);
    if toReview.Err? then toReview
    else
      var toQuoted :=
        if toReview.value.status == UnderReview
        then W.Move(toReview.value, W.StatusChanged, Admin, RequestStatus.Quoted) else toReview;
      if toQuoted.Err? then toQuoted
      else if toQuoted.value.status != RequestStatus.Quoted then Err(W.InvalidTransition)
      else toQuoted
  }

  // ------------------------------------------------------------- transactions

  /** The event that records a quote action at the request's current version. */
  function QuoteNoted(r: W.Request, actor: Role): W.Request {
    r.(events := r.events + [W.Event(W.QuoteNoted, actor, None, None, r.version)])
  }

  function Made(admin: UserId, o: Offer): Quote {
    Quote(admin, o.key, o.fingerprint, o.amount, o.currency, Ledger.MinorUnit(o.currency), o.expiresAt, Pending, 1, None)
  }

  /** `usedElsewhere` tells that the administrator's key belongs to an offer for another request, whose payload digest
      then differs; `found` that the request and its conversation exist. */
  function CreateQuote(now: Time, d: Deal, admin: UserId, o: Offer, found: bool, usedElsewhere: bool): (Deal, Outcome) {
    match FindMade(d.quotes, admin, o.key)
    case Some(i) =>
      (d, if d.quotes[i].fingerprint != o.fingerprint then Refused(IdempotencyKeyReused) else Replayed(i))
    case None =>
      if usedElsewhere then (d, Refused(IdempotencyKeyReused))
      else if !found then (d, Refused(RequestNotFound))
      else if d.request.version != o.expectedRequestVersion then (d, Refused(VersionConflict))
      else
        var quotes := ExpirePending(d.quotes, now);
        if AnyPending(quotes) then (d, Refused(QuoteNotPending))
        else
          match LeadToQuoted(d.request)
          case Err(_) => (d, Refused(InvalidTransition))
          case Ok(r) =>
            (d.(quotes := quotes + [Made(admin, o)], request := QuoteNoted(r, Admin)), Committed(|quotes|))
  }

  function OpenLink(links: seq<Link>, q: QuoteId, quote: Quote): seq<Link> {
    if FindLink(links, q).Some? then links
    else links + [Link(q, Ledger.Opened(quote.amount, quote.currency, quote.minorUnit))]
  }

  function Respond(now: Time, d: Deal, q: QuoteId, key: Key, fingerprint: Fingerprint, expectedVersion: nat, accept: bool)
    : (Deal, Outcome)
  {
    if q >= |d.quotes| then (d, Refused(QuoteNotFound))
    else
      var quote := d.quotes[q];
      if quote.response.Some? && quote.response.value.key == key then
        (d, if quote.response.value.fingerprint != fingerprint then Refused(IdempotencyKeyReused) else Replayed(q))
      else if quote.version != expectedVersion then (d, Refused(QuoteVersionConflict))
      else if quote.status != Pending then (d, Refused(QuoteNotPending))
      else if quote.expiresAt <= now then (d.(quotes := d.quotes[q := Settled(quote, Expired)]), Expiring)
      else if d.request.status != RequestStatus.Quoted then (d, Refused(InvalidTransition))
      else
        match W.Move(d.request, W.StatusChanged, Student, if accept then RequestStatus.Accepted else UnderReview)
        case Err(_) => (d, Refused(InvalidTransition))
        case Ok(r) =>
          (d.(quotes := d.quotes[q := Answered(quote, Response(key, fingerprint), accept)],
              links := if accept then OpenLink(d.links, q, quote) else d.links,
              request := QuoteNoted(r, Student)),
           Committed(q))
  }

  function Withdraw(now: Time, d: Deal, admin: UserId, q: QuoteId, key: Key, fingerprint: Fingerprint,
                    expectedVersion: nat, expectedRequestVersion: nat, usedElsewhere: bool): (Deal, Outcome)
  {
    if q >= |d.quotes| || d.quotes[q].creator != admin then (d, Refused(QuoteNotFound))
    else
      var quote := d.quotes[q];
      match FindWithdrawal(d.withdrawals, admin, key)
      case Some(w) =>
        (d, if w.quote != q || w.fingerprint != fingerprint then Refused(IdempotencyKeyReused) else Replayed(q))
      case None =>
        if usedElsewhere then (d, Refused(IdempotencyKeyReused))
        else if quote.version != expectedVersion then (d, Refused(QuoteVersionConflict))
        else if d.request.version != expectedRequestVersion then (d, Refused(VersionConflict))
        else if quote.status != Pending then (d, Refused(QuoteNotPending))
        else if quote.expiresAt <= now then (d.(quotes := d.quotes[q := Settled(quote, Expired)]), Expiring)
        else if d.request.status != RequestStatus.Quoted then (d, Refused(InvalidTransition))
        else
          match W.Move(d.request, W.StatusChanged, Admin, UnderReview)
          case Err(_) => (d, Refused(InvalidTransition))
          case Ok(r) =>
            (d.(quotes := d.quotes[q := Settled(quote, Withdrawn)],
                withdrawals := d.withdrawals + [Withdrawal(admin, key, q, fingerprint)],
                request := QuoteNoted(r, Admin)),
             Committed(q))
  }

  // -------------------------------------------------------------------- files

  /** The reservation of an upload: it insists on the version and leaves it alone. `admitted` is the answer of the
      capacity checks that follow those of version and status. */
  function ReserveFile(d: Deal, expected: nat, admitted: bool): Deal {
    if d.request.version != expected || Terminal(d.request.status) || !admitted then d
    else d.(files := d.files + [Uploading])
  }

  predicate At(files: seq<FileState>, f: FileId, state: FileState) { f < |files| && files[f] == state }

  function FinalizeFile(d: Deal, f: FileId, actor: Role): Deal {
    if Terminal(d.request.status) || !At(d.files, f, Uploading) then d
    else d.(files := d.files[f := Kept], request := W.Noted(d.request, W.AttachmentNoted, actor))
  }

  function FailFile(d: Deal, f: FileId): Deal {
    if !At(d.files, f, Uploading) then d else d.(files := d.files[f := Failed])
  }

  /** The reconciler's claim marks an abandoned or failed upload deleted and leaves the request alone. */
  function TakeFile(d: Deal, f: FileId): Deal {
    if At(d.files, f, Uploading) || At(d.files, f, Failed) then d.(files := d.files[f := Removed]) else d
  }

  /** The student's deletion: an attachment removed already is not found, and one that is still uploading not ready. */
  function DeleteFile(d: Deal, expected: nat, f: FileId): Deal {
    if d.request.version != expected || Terminal(d.request.status) then d
    else if f >= |d.files| || d.files[f] == Removed || d.files[f] == Uploading then d
    else d.(files := d.files[f := Removed], request := W.Noted(d.request, W.AttachmentNoted, Student))
  }

  // -------------------------------------------------------------------- steps

  datatype Step =
    | UpdatingDraft(expected: nat)
    | Submitting(expected: nat, complete: bool, serviceActive: bool, filesReady: bool)
    | Cancelling(expected: nat)
    | StudentMoving(expected: nat, to: RequestStatus)
    | AdminMoving(expected: nat, to: RequestStatus)
    | UpdatingDetails(expected: nat, changed: bool)
    | Assigning(expected: nat, eligible: bool, changed: bool)
    | NotingScan
    | ReservingFile(expected: nat, admitted: bool)
    | FinalizingFile(file: FileId, actor: Role)
    | FailingFile(file: FileId)
    | TakingFile(file: FileId)
    | DeletingFile(expected: nat, file: FileId)
    | Quoting(admin: UserId, offer: Offer, found: bool, usedElsewhere: bool)
    | Responding(quote: QuoteId, key: Key, fingerprint: Fingerprint, expected: nat, accept: bool)
    | Withdrawing(admin: UserId, quote: QuoteId, key: Key, fingerprint: Fingerprint, expected: nat,
                  expectedRequest: nat, usedElsewhere: bool)
    | ChangingDue(link: nat, attempt: Ledger.Attempt)

  predicate FileStep(step: Step) {
    step.ReservingFile? || step.FinalizingFile? || step.FailingFile? || step.TakingFile? || step.DeletingFile?
  }

  predicate RequestStep(step: Step) {
    !step.Quoting? && !step.Responding? && !step.Withdrawing? && !step.ChangingDue? && !FileStep(step)
  }

  /** What the request services do to the request row alone. */
  function WriteRequest(r: W.Request, step: Step): Result<W.Request, W.RequestError>
    requires RequestStep(step)
  {
    match step
    case UpdatingDraft(v) => W.UpdateDraft(r, v)
    case Submitting(v, complete, active, ready) => W.Submit(r, v, complete, active, ready)
    case Cancelling(v) => W.Cancel(r, v)
    case StudentMoving(v, to) => W.StudentTransition(r, v, to)
    case AdminMoving(v, to) => W.AdminTransition(r, v, to)
    case UpdatingDetails(v, changed) => W.UpdateDetails(r, v, changed)
    case Assigning(v, eligible, changed) => W.Assign(r, v, eligible, changed)
    case NotingScan => Ok(W.Noted(r, W.AttachmentNoted, System))
  }

  function WriteFiles(d: Deal, step: Step): Deal
    requires FileStep(step)
  {
    match step
    case ReservingFile(v, admitted) => ReserveFile(d, v, admitted)
    case FinalizingFile(f, actor) => FinalizeFile(d, f, actor)
    case FailingFile(f) => FailFile(d, f)
    case TakingFile(f) => TakeFile(d, f)
    case DeletingFile(v, f) => DeleteFile(d, v, f)
  }

  function WriteRow(d: Deal, step: Step): Deal
    requires RequestStep(step)
  {
    var r := WriteRequest(d.request, step);
    if r.Ok? then d.(request := r.value) else d
  }

  function ChangeDue(d: Deal, i: nat, attempt: Ledger.Attempt): Deal {
    if i >= |d.links| then d
    else d.(links := d.links[i := Link(d.links[i].quote, Ledger.Try(d.links[i].due, attempt))])
  }

  function Next(now: Time, d: Deal, step: Step): Deal {
    if RequestStep(step) then WriteRow(d, step)
    else if FileStep(step) then WriteFiles(d, step)
    else if step.ChangingDue? then ChangeDue(d, step.link, step.attempt)
    else if step.Quoting? then CreateQuote(now, d, step.admin, step.offer, step.found, step.usedElsewhere).0
    else if step.Responding? then
      Respond(now, d, step.quote, step.key, step.fingerprint, step.expected, step.accept).0
    else
      Withdraw(now, d, step.admin, step.quote, step.key, step.fingerprint, step.expected, step.expectedRequest,
               step.usedElsewhere).0
  }

  function Run(d: Deal, timeline: seq<(Time, Step)>): Deal
    decreases |timeline|
  {
    if timeline == [] then d else Run(Next(timeline[0].0, d, timeline[0].1), timeline[1..])
  }

  function Started(r: W.Request): Deal { Deal(r, [], [], [], []) }
}
