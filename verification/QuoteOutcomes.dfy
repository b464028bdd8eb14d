/** What the request and quote transactions answer and leave, told by the rows. */
module QuoteOutcomes {
  import opened Wrappers
  import opened RequestStates
  import opened RequestMatrix
  import W = Workflow
  import Ledger
  import opened Quotes
  import S = QuoteSafety

  // ------------------------------------------------------------ the request alone

  /** A status move: the row takes the status, the version goes up by one, and the log gains its event. */
  predicate IsMove(r: W.Request, s: W.Request, kind: W.EventKind, actor: Role, to: RequestStatus) {
    && s.status == to && s.version == r.version + 1
    && s.events == r.events + [W.Event(kind, actor, Some(r.status), Some(to), r.version + 1)]
  }

  /** An event without a status: the version goes up by one. */
  predicate IsNote(r: W.Request, s: W.Request, kind: W.EventKind, actor: Role) {
    && s.status == r.status && s.version == r.version + 1
    && s.events == r.events + [W.Event(kind, actor, None, None, r.version + 1)]
  }

  /** A request begins as a DRAFT at version 1; submitted at once by an administrator, it is SUBMITTED at version 2. */
  lemma RequestsBegin(actor: Role)
    ensures W.Drafted(actor) == W.Request(Draft, 1, [W.Event(W.RequestCreated, actor, None, None, 1)])
    ensures W.CreatedForStudent(false) == W.Drafted(Admin)
    ensures IsMove(W.Drafted(Admin), W.CreatedForStudent(true), W.RequestSubmitted, Admin, Submitted)
  {
  }

  lemma DraftEditAnswers(r: W.Request, v: nat)
    ensures var a := W.UpdateDraft(r, v);
            && (a == Err(W.VersionConflict) <==> r.version != v)
            && (a == Err(W.InvalidTransition) <==> r.version == v && r.status != Draft)
            && (a.Ok? <==> r.version == v && r.status == Draft)
            && (a.Ok? ==> IsNote(r, a.value, W.RequestUpdated, Student))
  {
  }

  /** A submission needs its version, a DRAFT, complete details, an active service and ready files, in this order. */
  lemma SubmissionAnswers(r: W.Request, v: nat, complete: bool, active: bool, ready: bool)
    ensures var a := W.Submit(r, v, complete, active, ready);
            var draft := r.version == v && r.status == Draft;
            && (a == Err(W.VersionConflict) <==> r.version != v)
            && (a == Err(W.RequestAlreadySubmitted) <==> r.version == v && r.status == Submitted)
            && (a == Err(W.InvalidTransition) <==> r.version == v && r.status != Draft && r.status != Submitted)
            && (a == Err(W.RequestIncomplete) <==> draft && !complete)
            && (a == Err(W.ServiceInactive) <==> draft && complete && !active)
            && (a == Err(W.AttachmentNotReady) <==> draft && complete && active && !ready)
            && (a.Ok? <==> draft && complete && active && ready)
            && (a.Ok? ==> IsMove(r, a.value, W.RequestSubmitted, Student, Submitted))
  {
    TheMatrix(Draft, Submitted, Student);
  }

  /** Student moves: the matrix decides, once the version is right; asked for a target that is not a student's, it is
      refused before. */
  lemma StudentAnswers(r: W.Request, v: nat, to: RequestStatus)
    ensures var a := W.Cancel(r, v);
            && (a == Err(W.VersionConflict) <==> r.version != v)
            && (a == Err(W.InvalidTransition) <==> r.version == v && !CanTransition(r.status, Cancelled, Student))
            && (a.Ok? <==> r.version == v && CanTransition(r.status, Cancelled, Student))
            && (a.Ok? ==> IsMove(r, a.value, W.RequestCancelled, Student, Cancelled))
    ensures var a := W.StudentTransition(r, v, to);
            var theirs := to in {Submitted, RequestStatus.Accepted, RevisionRequested, Completed};
            && (a == Err(W.VersionConflict) <==> theirs && r.version != v)
            && (a == Err(W.InvalidTransition) <==> !theirs || (r.version == v && !CanTransition(r.status, to, Student)))
            && (a.Ok? <==> theirs && r.version == v && CanTransition(r.status, to, Student))
            && (a.Ok? ==> IsMove(r, a.value, W.StatusChanged, Student, to))
  {
  }

  /** Administration: the matrix decides, but never out of DRAFT. An edit or an assignment that changes nothing succeeds
      and writes nothing. */
  lemma AdministrationAnswers(r: W.Request, v: nat, to: RequestStatus)
    ensures var a := W.AdminTransition(r, v, to);
            var may := r.status != Draft && CanTransition(r.status, to, Admin);
            && (a == Err(W.VersionConflict) <==> r.version != v)
            && (a == Err(W.InvalidTransition) <==> r.version == v && !may)
            && (a.Ok? <==> r.version == v && may)
            && (a.Ok? ==> IsMove(r, a.value, W.StatusChanged, Admin, to))
  {
  }

  lemma EditsAnswer(r: W.Request, v: nat, changed: bool)
    ensures var a := W.UpdateDetails(r, v, changed);
            && (a == Err(W.VersionConflict) <==> r.version != v) && (a.Ok? <==> r.version == v)
            && (a.Ok? && changed ==> IsNote(r, a.value, W.DetailsUpdated, Admin)) && (a.Ok? && !changed ==> a.value == r)
  {
  }

  lemma AssignmentAnswers(r: W.Request, v: nat, eligible: bool, changed: bool)
    ensures var a := W.Assign(r, v, eligible, changed);
            && (a == Err(W.VersionConflict) <==> r.version != v)
            && (a == Err(W.AssigneeInvalid) <==> r.version == v && !eligible)
            && (a.Ok? <==> r.version == v && eligible)
            && (a.Ok? && changed ==> IsNote(r, a.value, W.AssignmentChanged, Admin)) && (a.Ok? && !changed ==> a.value == r)
  {
  }

  // ------------------------------------------------------------ offers

  /** A quote that waits for an answer and can still get one. */
  predicate Waits(q: Quote, now: Time) { q.status == Pending && now < q.expiresAt }

  predicate SomeoneWaits(quotes: seq<Quote>, now: Time) { exists i :: 0 <= i < |quotes| && Waits(quotes[i], now) }

  predicate Used(d: Deal, admin: UserId, key: Key) {
    exists i :: 0 <= i < |d.quotes| && d.quotes[i].creator == admin && d.quotes[i].key == key
  }

  /** The statuses from which an offer is reached. */
  predicate OnTheWayToAnOffer(status: RequestStatus) {
    status in {Submitted, WaitingForStudent, UnderReview, RequestStatus.Quoted}
  }

  lemma EdgesTowardsAnOffer()
    ensures CanTransition(Submitted, UnderReview, Admin) && CanTransition(WaitingForStudent, UnderReview, Admin)
    ensures CanTransition(UnderReview, RequestStatus.Quoted, Admin)
  {
    TheMatrix(Submitted, UnderReview, Admin);
    TheMatrix(WaitingForStudent, UnderReview, Admin);
    TheMatrix(UnderReview, RequestStatus.Quoted, Admin);
  }

  lemma LeadingAnswers(r: W.Request)
    ensures LeadToQuoted(r).Ok? <==> OnTheWayToAnOffer(r.status)
    ensures LeadToQuoted(r).Ok? ==> LeadToQuoted(r).value.status == RequestStatus.Quoted
    ensures LeadToQuoted(r).Ok? ==>
              LeadToQuoted(r).value.version
              == r.version + (if r.status == RequestStatus.Quoted then 0 else if r.status == UnderReview then 1 else 2)
  {
    EdgesTowardsAnOffer();
  }

  lemma UsedIsFound(d: Deal, admin: UserId, key: Key)
    ensures Used(d, admin, key) <==> FindMade(d.quotes, admin, key).Some?
  {
  }

  lemma WaitingBlocks(quotes: seq<Quote>, now: Time)
    ensures AnyPending(ExpirePending(quotes, now)) <==> SomeoneWaits(quotes, now)
  {
    var after := ExpirePending(quotes, now);
    assert forall i :: 0 <= i < |quotes| ==> after[i] == Lapsed(quotes[i], now);
    if i :| 0 <= i < |quotes| && Waits(quotes[i], now) { assert after[i].status == Pending; }
    if AnyPending(after) {
      var i :| 0 <= i < |after| && after[i].status == Pending;
      assert Waits(quotes[i], now);
    }
  }

  /** A new key makes an offer exactly on a request that is found, at its version, with no offer that still waits, on
      the way to an offer; the refusals come in this order. */
  lemma CreationAnswers(now: Time, d: Deal, admin: UserId, o: Offer, found: bool, elsewhere: bool)
    requires !Used(d, admin, o.key)
    ensures var outcome := CreateQuote(now, d, admin, o, found, elsewhere).1;
            var here := !elsewhere && found;
            var current := here && d.request.version == o.expectedRequestVersion;
            var free := current && !SomeoneWaits(d.quotes, now);
            && (outcome == Refused(IdempotencyKeyReused) <==> elsewhere)
            && (outcome == Refused(RequestNotFound) <==> !elsewhere && !found)
            && (outcome == Refused(VersionConflict) <==> here && !current)
            && (outcome == Refused(QuoteNotPending) <==> current && !free)
            && (outcome == Refused(InvalidTransition) <==> free && !OnTheWayToAnOffer(d.request.status))
            && (outcome.Committed? <==> free && OnTheWayToAnOffer(d.request.status))
            && (!outcome.Committed? ==> CreateQuote(now, d, admin, o, found, elsewhere).0 == d)
  {
    UsedIsFound(d, admin, o.key);
    WaitingBlocks(d.quotes, now);
    LeadingAnswers(d.request);
  }

  /** A used key makes nothing: it answers with its quote, or is refused with another payload. */
  lemma UsedKeyAnswers(now: Time, d: Deal, admin: UserId, o: Offer, found: bool, elsewhere: bool)
    requires Used(d, admin, o.key)
    ensures var (d', outcome) := CreateQuote(now, d, admin, o, found, elsewhere);
            && d' == d
            && (outcome == Refused(IdempotencyKeyReused)
                || (outcome.Replayed? && outcome.quote < |d.quotes| && d.quotes[outcome.quote].creator == admin
                    && d.quotes[outcome.quote].key == o.key && d.quotes[outcome.quote].fingerprint == o.fingerprint))
  {
    UsedIsFound(d, admin, o.key);
  }

  // ------------------------------------------------------------ answers

  lemma EdgesOfAQuote()
    ensures CanTransition(RequestStatus.Quoted, RequestStatus.Accepted, Student)
    ensures CanTransition(RequestStatus.Quoted, UnderReview, Student)
    ensures CanTransition(RequestStatus.Quoted, UnderReview, Admin)
  {
    TheMatrix(RequestStatus.Quoted, RequestStatus.Accepted, Student);
    TheMatrix(RequestStatus.Quoted, UnderReview, Student);
    TheMatrix(RequestStatus.Quoted, UnderReview, Admin);
  }

  /** An answer that is no repetition needs the quote's version, a pending quote, its time and a QUOTED request, in this
      order; late, the quote expires and the caller is told so. */
  lemma ResponseAnswers(now: Time, d: Deal, q: QuoteId, key: Key, f: Fingerprint, v: nat, accept: bool)
    requires q < |d.quotes| ==> d.quotes[q].response.None? || d.quotes[q].response.value.key != key
    ensures var (d', outcome) := Respond(now, d, q, key, f, v, accept);
            var there := q < |d.quotes|;
            var current := there && d.quotes[q].version == v;
            var pending := current && d.quotes[q].status == Pending;
            var timely := pending && now < d.quotes[q].expiresAt;
            && (outcome == Refused(QuoteNotFound) <==> !there)
            && (outcome == Refused(QuoteVersionConflict) <==> there && !current)
            && (outcome == Refused(QuoteNotPending) <==> current && !pending)
            && (outcome == Expiring <==> pending && !timely)
            && (outcome == Refused(InvalidTransition) <==> timely && d.request.status != RequestStatus.Quoted)
            && (outcome == Committed(q) <==> timely && d.request.status == RequestStatus.Quoted)
            && (outcome.Refused? ==> d' == d) && !outcome.Replayed?
  {
    EdgesOfAQuote();
  }

  /** A committed answer settles the quote as the student said and moves the request. */
  lemma ResponseLeaves(now: Time, d: Deal, q: QuoteId, key: Key, f: Fingerprint, v: nat, accept: bool)
    requires Respond(now, d, q, key, f, v, accept).1.Committed?
    ensures var d', quote := Respond(now, d, q, key, f, v, accept).0, d.quotes[q];
            var to := if accept then RequestStatus.Accepted else UnderReview;
            && q < |d.quotes| && d'.files == d.files && d'.withdrawals == d.withdrawals
            && d'.quotes == d.quotes[q := quote.(status := if accept then QuoteStatus.Accepted else QuoteStatus.Rejected,
                                                 version := v + 1, response := Some(Response(key, f)))]
            && d'.request.status == to && d'.request.version == d.request.version + 1
            && d'.request.events == d.request.events
                 + [W.Event(W.StatusChanged, Student, Some(RequestStatus.Quoted), Some(to), d.request.version + 1)]
                 + [W.Event(W.QuoteNoted, Student, None, None, d.request.version + 1)]
  {
  }

  /** An acceptance opens its due, UNPAID over the quote's amount; a refusal opens none. */
  lemma AcceptanceOpensItsDue(now: Time, d: Deal, q: QuoteId, key: Key, f: Fingerprint, v: nat, accept: bool)
    requires S.Sound(d) && Respond(now, d, q, key, f, v, accept).1.Committed?
    ensures var d', quote := Respond(now, d, q, key, f, v, accept).0, d.quotes[q];
            d'.links == d.links + if accept then [Link(q, Ledger.Due(Ledger.Unpaid, 1, quote.amount, quote.currency,
                                    quote.minorUnit, [Ledger.Entry(1, Ledger.DueCreated, quote.amount, None)]))]
                                  else []
  {
    assert d.quotes[q].status == Pending;
    if accept {
      assert forall k :: 0 <= k < |d.links| ==> d.links[k].quote != q;
      assert FindLink(d.links, q).None?;
    }
  }

  predicate Withdrew(d: Deal, admin: UserId, key: Key) {
    exists i :: 0 <= i < |d.withdrawals| && d.withdrawals[i].admin == admin && d.withdrawals[i].key == key
  }

  /** A withdrawal with a new key needs the administrator's own quote, both versions, a pending quote, its time and a
      QUOTED request, in this order. */
  lemma WithdrawalAnswers(now: Time, d: Deal, admin: UserId, q: QuoteId, key: Key, f: Fingerprint, v: nat, rv: nat,
                          elsewhere: bool)
    requires !Withdrew(d, admin, key)
    ensures var (d', outcome) := Withdraw(now, d, admin, q, key, f, v, rv, elsewhere);
            var own := q < |d.quotes| && d.quotes[q].creator == admin;
            var fit := own && !elsewhere;
            var current := fit && d.quotes[q].version == v;
            var both := current && d.request.version == rv;
            var pending := both && d.quotes[q].status == Pending;
            var timely := pending && now < d.quotes[q].expiresAt;
            && (outcome == Refused(QuoteNotFound) <==> !own)
            && (outcome == Refused(IdempotencyKeyReused) <==> own && elsewhere)
            && (outcome == Refused(QuoteVersionConflict) <==> fit && !current)
            && (outcome == Refused(VersionConflict) <==> current && !both)
            && (outcome == Refused(QuoteNotPending) <==> both && !pending)
            && (outcome == Expiring <==> pending && !timely)
            && (outcome == Refused(InvalidTransition) <==> timely && d.request.status != RequestStatus.Quoted)
            && (outcome == Committed(q) <==> timely && d.request.status == RequestStatus.Quoted)
            && (outcome.Refused? ==> d' == d) && !outcome.Replayed?
  {
    EdgesOfAQuote();
    assert FindWithdrawal(d.withdrawals, admin, key).None?;
  }

  /** It marks the quote, records the action, and moves the request back under review as the administrator's. */
  lemma WithdrawalLeaves(now: Time, d: Deal, admin: UserId, q: QuoteId, key: Key, f: Fingerprint, v: nat, rv: nat,
                         elsewhere: bool)
    requires Withdraw(now, d, admin, q, key, f, v, rv, elsewhere).1.Committed?
    ensures var d' := Withdraw(now, d, admin, q, key, f, v, rv, elsewhere).0;
            && q < |d.quotes| && d'.files == d.files && d'.links == d.links
            && d'.quotes == d.quotes[q := d.quotes[q].(status := Withdrawn, version := v + 1)]
            && d'.withdrawals == d.withdrawals + [Withdrawal(admin, key, q, f)]
            && d'.request.status == UnderReview && d'.request.version == rv + 1
            && d'.request.events == d.request.events
                 + [W.Event(W.StatusChanged, Admin, Some(RequestStatus.Quoted), Some(UnderReview), rv + 1)]
                 + [W.Event(W.QuoteNoted, Admin, None, None, rv + 1)]
  {
    S.CommittedWithdrawalMoves(now, d, admin, q, key, f, v, rv, elsewhere);
  }

  /** A repeated answer or withdrawal writes nothing. */
  lemma RepetitionsWriteNothing(now: Time, d: Deal, admin: UserId, q: QuoteId, key: Key, f: Fingerprint, v: nat, rv: nat,
                                accept: bool, elsewhere: bool)
    ensures q < |d.quotes| && d.quotes[q].response.Some? && d.quotes[q].response.value.key == key ==>
              Respond(now, d, q, key, f, v, accept)
              == (d, if d.quotes[q].response.value.fingerprint == f then Replayed(q) else Refused(IdempotencyKeyReused))
    ensures Withdrew(d, admin, key) ==> Withdraw(now, d, admin, q, key, f, v, rv, elsewhere).0 == d
  {
  }

  /** The finance service changes the due of one quote, as a change of a due goes, and nothing else of the deal. */
  lemma FinanceChangesOneDue(d: Deal, i: nat, attempt: Ledger.Attempt, j: nat)
    ensures var d' := ChangeDue(d, i, attempt);
            && d' == d.(links := d'.links) && |d'.links| == |d.links|
            && (i < |d.links| ==> d'.links[i].quote == d.links[i].quote
                                  && d'.links[i].due == Ledger.Try(d.links[i].due, attempt))
            && (j < |d.links| && j != i ==> d'.links[j] == d.links[j])
  {
  }

  // ------------------------------------------------------------ files

  /** A reservation is admitted at the version, before the request ends; a deletion moreover needs a file that has its
      bytes or has failed. Only finalizing and deleting tell the request. */
  lemma FilesAnswer(d: Deal, v: nat, f: FileId, admitted: bool, actor: Role)
    ensures var open, there := d.request.status !in {Completed, Cancelled, RequestStatus.Rejected}, f < |d.files|;
            && ReserveFile(d, v, admitted)
               == (if d.request.version == v && open && admitted then d.(files := d.files + [Uploading]) else d)
            && (open && there && d.files[f] == Uploading ==>
                  FinalizeFile(d, f, actor).files == d.files[f := Kept]
                  && IsNote(d.request, FinalizeFile(d, f, actor).request, W.AttachmentNoted, actor))
            && (!(open && there && d.files[f] == Uploading) ==> FinalizeFile(d, f, actor) == d)
            && FailFile(d, f) == (if there && d.files[f] == Uploading then d.(files := d.files[f := Failed]) else d)
            && TakeFile(d, f)
               == (if there && d.files[f] in {Uploading, Failed} then d.(files := d.files[f := Removed]) else d)
            && (d.request.version == v && open && there && d.files[f] in {Kept, Failed} ==>
                  DeleteFile(d, v, f).files == d.files[f := Removed]
                  && IsNote(d.request, DeleteFile(d, v, f).request, W.AttachmentNoted, Student))
            && (!(d.request.version == v && open && there && d.files[f] in {Kept, Failed}) ==> DeleteFile(d, v, f) == d)
  {
  }
}
