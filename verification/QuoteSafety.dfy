/** What holds of a request, its quotes and their dues over every run. */
module QuoteSafety {
  import opened Wrappers
  import opened RequestStates
  import W = Workflow
  import Ledger
  import opened Quotes

  ghost predicate OnePending(quotes: seq<Quote>) {
    forall i, j :: 0 <= i < j < |quotes| ==> !(quotes[i].status == Pending && quotes[j].status == Pending)
  }

  /** No two quotes were made by the same administrator with the same key. */
  ghost predicate DistinctKeys(quotes: seq<Quote>) {
    forall i, j :: 0 <= i < j < |quotes| ==> !MadeWith(quotes[i], quotes[j].creator, quotes[j].key)
  }

  ghost predicate ResponsesOk(quotes: seq<Quote>) {
    forall i :: 0 <= i < |quotes| && quotes[i].response.Some? ==>
      quotes[i].status == QuoteStatus.Accepted || quotes[i].status == QuoteStatus.Rejected
  }

  /** The due is a well-kept due over the quote's amount, currency and minor unit. */
  ghost predicate DueOf(due: Ledger.Due, q: Quote) {
    Ledger.Consistent(due) && due.amount == q.amount && due.currency == q.currency && due.minorUnit == q.minorUnit
  }

  ghost predicate LinksOk(quotes: seq<Quote>, links: seq<Link>) {
    && (forall k :: 0 <= k < |links| ==>
          links[k].quote < |quotes| && quotes[links[k].quote].status == QuoteStatus.Accepted
          && DueOf(links[k].due, quotes[links[k].quote]))
    && (forall k, l :: 0 <= k < l < |links| ==> links[k].quote != links[l].quote)
    && (forall i :: 0 <= i < |quotes| && quotes[i].status == QuoteStatus.Accepted ==> FindLink(links, i).Some?)
  }

  ghost predicate WithdrawalsOk(quotes: seq<Quote>, ws: seq<Withdrawal>) {
    && (forall k :: 0 <= k < |ws| ==>
          ws[k].quote < |quotes| && quotes[ws[k].quote].status == Withdrawn && quotes[ws[k].quote].creator == ws[k].admin)
    && (forall k, l :: 0 <= k < l < |ws| ==> !(ws[k].admin == ws[l].admin && ws[k].key == ws[l].key))
  }

  ghost predicate Sound(d: Deal) {
    && W.Coherent(d.request) && OnePending(d.quotes) && DistinctKeys(d.quotes) && ResponsesOk(d.quotes)
    && LinksOk(d.quotes, d.links) && WithdrawalsOk(d.quotes, d.withdrawals)
  }

  // ------------------------------------------------------- updates of the parts

  /** A quote keeps what it offers and who made it; only a pending one changes otherwise. */
  ghost predicate Succeeds(q: Quote, q': Quote) {
    && q'.creator == q.creator && q'.key == q.key && q'.fingerprint == q.fingerprint && q'.amount == q.amount
    && q'.currency == q.currency && q'.minorUnit == q.minorUnit && q'.version >= q.version
    && (q.status != Pending ==> q' == q)
  }

  ghost predicate QuotesGrow(a: seq<Quote>, b: seq<Quote>) {
    |a| <= |b| && forall i :: 0 <= i < |a| ==> Succeeds(a[i], b[i])
  }

  /** What one step, and so any run, leaves of a deal. */
  ghost predicate Later(d: Deal, d': Deal) {
    && QuotesGrow(d.quotes, d'.quotes) && d.request.version <= d'.request.version
    && (Terminal(d.request.status) ==> d'.request.status == d.request.status)
    && d.withdrawals <= d'.withdrawals
  }

  /** Updating existing quotes without making any of them pending keeps what is said about quotes. */
  lemma UpdatedQuotes(a: seq<Quote>, b: seq<Quote>)
    requires OnePending(a) && DistinctKeys(a)
    requires |a| == |b| && QuotesGrow(a, b) && forall i :: 0 <= i < |a| && b[i].status == Pending ==> a[i].status == Pending
    ensures OnePending(b) && DistinctKeys(b)
  {
    forall i, j | 0 <= i < j < |b| ensures !MadeWith(b[i], b[j].creator, b[j].key) {
      assert Succeeds(a[i], b[i]) && Succeeds(a[j], b[j]);
      assert !MadeWith(a[i], a[j].creator, a[j].key);
    }
  }

  /** Quotes that keep their settled ones keep the links and withdrawals, unless one becomes ACCEPTED. */
  lemma LinksSurvive(a: seq<Quote>, b: seq<Quote>, links: seq<Link>, ws: seq<Withdrawal>)
    requires QuotesGrow(a, b) && LinksOk(a, links) && WithdrawalsOk(a, ws)
    requires forall i :: 0 <= i < |b| && b[i].status == QuoteStatus.Accepted ==>
               i < |a| && a[i].status == QuoteStatus.Accepted
    ensures LinksOk(b, links) && WithdrawalsOk(b, ws)
  {
    forall k | 0 <= k < |links| ensures links[k].quote < |b| && b[links[k].quote] == a[links[k].quote] {
      assert Succeeds(a[links[k].quote], b[links[k].quote]);
    }
    forall k | 0 <= k < |ws| ensures ws[k].quote < |b| && b[ws[k].quote] == a[ws[k].quote] {
      assert Succeeds(a[ws[k].quote], b[ws[k].quote]);
    }
  }

  // -------------------------------------------------------------- transactions

  lemma LeadingIsCoherent(r: W.Request)
    requires W.Coherent(r) && LeadToQuoted(r).Ok?
    ensures W.Coherent(LeadToQuoted(r).value) && r.version <= LeadToQuoted(r).value.version
    ensures LeadToQuoted(r).value.status == RequestStatus.Quoted
  {
    if r.status == Submitted || r.status == WaitingForStudent {
      W.MovedIsCoherent(r, W.StatusChanged, Admin, UnderReview);
      W.MovedIsCoherent(W.Moved(r, W.StatusChanged, Admin, UnderReview), W.StatusChanged, Admin, RequestStatus.Quoted);
    } else if r.status == UnderReview {
      W.MovedIsCoherent(r, W.StatusChanged, Admin, RequestStatus.Quoted);
    }
  }

  /** A quote event of the current version keeps the log coherent. */
  lemma QuoteNoteIsCoherent(r: W.Request, actor: Role)
    requires W.Coherent(r)
    ensures W.Coherent(QuoteNoted(r, actor))
  {
    W.ReplayOneMore(r.events, W.Event(W.QuoteNoted, actor, None, None, r.version));
  }

  lemma NewQuoteIsSound(quotes: seq<Quote>, q: Quote, links: seq<Link>, ws: seq<Withdrawal>)
    requires OnePending(quotes) && DistinctKeys(quotes) && ResponsesOk(quotes)
    requires LinksOk(quotes, links) && WithdrawalsOk(quotes, ws)
    requires !AnyPending(quotes) && FindMade(quotes, q.creator, q.key).None? && q.status == Pending && q.response.None?
    ensures OnePending(quotes + [q]) && DistinctKeys(quotes + [q]) && ResponsesOk(quotes + [q])
    ensures LinksOk(quotes + [q], links) && WithdrawalsOk(quotes + [q], ws) && QuotesGrow(quotes, quotes + [q])
  {
    LinksSurvive(quotes, quotes + [q], links, ws);
  }

  lemma ExpiryIsSound(quotes: seq<Quote>, now: Time, links: seq<Link>, ws: seq<Withdrawal>)
    requires OnePending(quotes) && DistinctKeys(quotes) && ResponsesOk(quotes)
    requires LinksOk(quotes, links) && WithdrawalsOk(quotes, ws)
    ensures var after := ExpirePending(quotes, now);
            && OnePending(after) && DistinctKeys(after) && ResponsesOk(after)
            && LinksOk(after, links) && WithdrawalsOk(after, ws) && QuotesGrow(quotes, after)
  {
    var after := ExpirePending(quotes, now);
    forall i | 0 <= i < |quotes| ensures Succeeds(quotes[i], after[i]) {
      assert after[i] == Lapsed(quotes[i], now);
    }
    UpdatedQuotes(quotes, after);
    LinksSurvive(quotes, after, links, ws);
  }

  lemma UnmadeStaysUnmade(quotes: seq<Quote>, now: Time, creator: UserId, key: Key)
    requires FindMade(quotes, creator, key).None?
    ensures FindMade(ExpirePending(quotes, now), creator, key).None?
  {
    var after := ExpirePending(quotes, now);
    assert forall i :: 0 <= i < |after| ==> !MadeWith(quotes[i], creator, key) && after[i] == Lapsed(quotes[i], now);
  }

  /** What a committed creation does: lapsed quotes expire, none is left pending, and the offer follows them on a
      request that was led to QUOTED. */
  lemma CommittedCreationStores(now: Time, d: Deal, admin: UserId, o: Offer, found: bool, elsewhere: bool)
    requires CreateQuote(now, d, admin, o, found, elsewhere).1.Committed?
    ensures d.request.version == o.expectedRequestVersion && FindMade(d.quotes, admin, o.key).None?
    ensures LeadToQuoted(d.request).Ok? && !AnyPending(ExpirePending(d.quotes, now))
    ensures CreateQuote(now, d, admin, o, found, elsewhere)
            == (d.(quotes := ExpirePending(d.quotes, now) + [Made(admin, o)],
                   request := QuoteNoted(LeadToQuoted(d.request).value, Admin)), Committed(|d.quotes|))
  {
  }

  lemma RefusedCreationWritesNothing(now: Time, d: Deal, admin: UserId, o: Offer, found: bool, elsewhere: bool)
    requires !CreateQuote(now, d, admin, o, found, elsewhere).1.Committed?
    ensures CreateQuote(now, d, admin, o, found, elsewhere).0 == d
  {
  }

  lemma StoringIsSound(now: Time, d: Deal, q: Quote)
    requires Sound(d) && FindMade(d.quotes, q.creator, q.key).None? && !AnyPending(ExpirePending(d.quotes, now))
    requires LeadToQuoted(d.request).Ok? && q.status == Pending && q.response.None?
    ensures var d' := d.(quotes := ExpirePending(d.quotes, now) + [q],
                         request := QuoteNoted(LeadToQuoted(d.request).value, Admin));
            Sound(d') && Later(d, d')
  {
    var after := ExpirePending(d.quotes, now);
    ExpiryIsSound(d.quotes, now, d.links, d.withdrawals);
    UnmadeStaysUnmade(d.quotes, now, q.creator, q.key);
    NewQuoteIsSound(after, q, d.links, d.withdrawals);
    GrowthComposes(d.quotes, after, after + [q]);
    LeadingIsCoherent(d.request);
    QuoteNoteIsCoherent(LeadToQuoted(d.request).value, Admin);
  }

  lemma CreateIsSound(now: Time, d: Deal, admin: UserId, o: Offer, found: bool, elsewhere: bool)
    requires Sound(d)
    ensures var d' := CreateQuote(now, d, admin, o, found, elsewhere).0;
            Sound(d') && Later(d, d')
  {
    if CreateQuote(now, d, admin, o, found, elsewhere).1.Committed? {
      CommittedCreationStores(now, d, admin, o, found, elsewhere);
      StoringIsSound(now, d, Made(admin, o));
    } else {
      RefusedCreationWritesNothing(now, d, admin, o, found, elsewhere);
      GrowthIsReflexive(d.quotes);
    }
  }

  lemma GrowthIsReflexive(a: seq<Quote>)
    ensures QuotesGrow(a, a)
  {
  }

  lemma GrowthComposes(a: seq<Quote>, b: seq<Quote>, c: seq<Quote>)
    requires QuotesGrow(a, b) && QuotesGrow(b, c)
    ensures QuotesGrow(a, c)
  {
    forall i | 0 <= i < |a| ensures Succeeds(a[i], c[i]) {
      assert Succeeds(a[i], b[i]) && Succeeds(b[i], c[i]);
    }
  }

  /** One pending quote settled, not ACCEPTED. */
  lemma SettlingIsSound(quotes: seq<Quote>, q: QuoteId, settled: Quote, links: seq<Link>, ws: seq<Withdrawal>)
    requires OnePending(quotes) && DistinctKeys(quotes) && ResponsesOk(quotes)
    requires LinksOk(quotes, links) && WithdrawalsOk(quotes, ws)
    requires q < |quotes| && quotes[q].status == Pending && Succeeds(quotes[q], settled) && settled.status != Pending
    requires settled.response.Some? ==> settled.status == QuoteStatus.Accepted || settled.status == QuoteStatus.Rejected
    ensures OnePending(quotes[q := settled]) && DistinctKeys(quotes[q := settled]) && ResponsesOk(quotes[q := settled])
    ensures QuotesGrow(quotes, quotes[q := settled])
    ensures settled.status != QuoteStatus.Accepted ==> LinksOk(quotes[q := settled], links)
    ensures WithdrawalsOk(quotes[q := settled], ws)
  {
    var after := quotes[q := settled];
    UpdatedQuotes(quotes, after);
    if settled.status != QuoteStatus.Accepted { LinksSurvive(quotes, after, links, ws); }
    forall k | 0 <= k < |ws| ensures after[ws[k].quote] == quotes[ws[k].quote] {
    }
  }

  lemma {:induction false} FindLinkAppended(links: seq<Link>, link: Link, i: QuoteId)
    ensures FindLink(links + [link], i).Some? <==> link.quote == i || FindLink(links, i).Some?
  {
    assert (links + [link])[..|links|] == links;
  }

  /** One more due, for a quote that had none. */
  lemma LinkAppended(quotes: seq<Quote>, links: seq<Link>, link: Link, after: seq<Quote>)
    requires LinksOk(quotes, links) && |after| == |quotes| && link.quote < |quotes|
    requires after[link.quote].status == QuoteStatus.Accepted && DueOf(link.due, after[link.quote])
    requires forall k :: 0 <= k < |links| ==> links[k].quote != link.quote
    requires forall i :: 0 <= i < |quotes| && i != link.quote ==> after[i] == quotes[i]
    ensures LinksOk(after, links + [link])
  {
    forall i | 0 <= i < |after| && after[i].status == QuoteStatus.Accepted ensures FindLink(links + [link], i).Some? {
      FindLinkAppended(links, link, i);
    }
  }

  /** Accepting a pending quote opens exactly one due for it, over its own amount. */
  lemma AcceptingIsSound(quotes: seq<Quote>, q: QuoteId, accepted: Quote, links: seq<Link>)
    requires LinksOk(quotes, links) && q < |quotes| && quotes[q].status == Pending
    requires Succeeds(quotes[q], accepted) && accepted.status == QuoteStatus.Accepted
    ensures LinksOk(quotes[q := accepted], OpenLink(links, q, quotes[q]))
    ensures OpenLink(links, q, quotes[q])
            == links + [Link(q, Ledger.Opened(accepted.amount, accepted.currency, accepted.minorUnit))]
  {
    assert forall k :: 0 <= k < |links| ==> links[k].quote != q;
    Ledger.OpenedIsConsistent(accepted.amount, accepted.currency, accepted.minorUnit);
    LinkAppended(quotes, links, Link(q, Ledger.Opened(accepted.amount, accepted.currency, accepted.minorUnit)),
                 quotes[q := accepted]);
  }

  /** The quote is EXPIRED; the request, the dues, the withdrawals, the attachments and every other quote are untouched.
      */
  ghost predicate OnlyExpires(now: Time, d: Deal, d': Deal, q: QuoteId, v: nat) {
    && q < |d.quotes| && d.quotes[q].status == Pending && d.quotes[q].expiresAt <= now && d.quotes[q].version == v
    && d' == d.(quotes := d.quotes[q := d.quotes[q].(status := Expired, version := v + 1)])
  }

  lemma ExpiringIsSound(now: Time, d: Deal, d': Deal, q: QuoteId, v: nat)
    requires Sound(d) && OnlyExpires(now, d, d', q, v)
    ensures Sound(d') && Later(d, d')
  {
    SettlingIsSound(d.quotes, q, Settled(d.quotes[q], Expired), d.links, d.withdrawals);
  }

  lemma ExpiredAnswerTouchesOnlyTheQuote(now: Time, d: Deal, q: QuoteId, key: Key, f: Fingerprint, v: nat, accept: bool)
    requires Respond(now, d, q, key, f, v, accept).1.Expiring?
    ensures OnlyExpires(now, d, Respond(now, d, q, key, f, v, accept).0, q, v)
  {
  }

  lemma ExpiredWithdrawalTouchesOnlyTheQuote(now: Time, d: Deal, admin: UserId, q: QuoteId, key: Key, f: Fingerprint,
                                             v: nat, rv: nat, elsewhere: bool)
    requires Withdraw(now, d, admin, q, key, f, v, rv, elsewhere).1.Expiring?
    ensures OnlyExpires(now, d, Withdraw(now, d, admin, q, key, f, v, rv, elsewhere).0, q, v)
  {
  }

  lemma AnsweringIsSound(d: Deal, q: QuoteId, response: Response, accept: bool)
    requires Sound(d) && q < |d.quotes| && d.quotes[q].status == Pending && d.request.status == RequestStatus.Quoted
    requires CanTransition(RequestStatus.Quoted, if accept then RequestStatus.Accepted else UnderReview, Student)
    ensures var r := W.Moved(d.request, W.StatusChanged, Student, if accept then RequestStatus.Accepted else UnderReview);
            var answered := Answered(d.quotes[q], response, accept);
            var d' := d.(request := QuoteNoted(r, Student), quotes := d.quotes[q := answered],
                         links := if accept then OpenLink(d.links, q, d.quotes[q]) else d.links);
            Sound(d') && Later(d, d')
  {
    var to := if accept then RequestStatus.Accepted else UnderReview;
    var answered := Answered(d.quotes[q], response, accept);
    SettlingIsSound(d.quotes, q, answered, d.links, d.withdrawals);
    if accept { AcceptingIsSound(d.quotes, q, answered, d.links); }
    W.MovedIsCoherent(d.request, W.StatusChanged, Student, to);
    QuoteNoteIsCoherent(W.Moved(d.request, W.StatusChanged, Student, to), Student);
  }

  lemma RespondIsSound(now: Time, d: Deal, q: QuoteId, key: Key, f: Fingerprint, v: nat, accept: bool)
    requires Sound(d)
    ensures var d' := Respond(now, d, q, key, f, v, accept).0;
            Sound(d') && Later(d, d')
  {
    var (d', outcome) := Respond(now, d, q, key, f, v, accept);
    if outcome.Expiring? {
      ExpiredAnswerTouchesOnlyTheQuote(now, d, q, key, f, v, accept);
      ExpiringIsSound(now, d, d', q, v);
    } else if outcome.Committed? {
      AnsweringIsSound(d, q, Response(key, f), accept);
    } else {
      GrowthIsReflexive(d.quotes);
    }
  }

  lemma WithdrawingIsSound(d: Deal, q: QuoteId, w: Withdrawal)
    requires Sound(d) && q < |d.quotes| && d.quotes[q].status == Pending && d.quotes[q].creator == w.admin && w.quote == q
    requires FindWithdrawal(d.withdrawals, w.admin, w.key).None? && d.request.status == RequestStatus.Quoted
    requires CanTransition(RequestStatus.Quoted, UnderReview, Admin)
    ensures var r := W.Moved(d.request, W.StatusChanged, Admin, UnderReview);
            var d' := d.(request := QuoteNoted(r, Admin), quotes := d.quotes[q := Settled(d.quotes[q], Withdrawn)],
                         withdrawals := d.withdrawals + [w]);
            Sound(d') && Later(d, d')
  {
    var quotes := d.quotes[q := Settled(d.quotes[q], Withdrawn)];
    SettlingIsSound(d.quotes, q, Settled(d.quotes[q], Withdrawn), d.links, d.withdrawals);
    WithdrawalRecorded(quotes, d.withdrawals, w);
    W.MovedIsCoherent(d.request, W.StatusChanged, Admin, UnderReview);
    QuoteNoteIsCoherent(W.Moved(d.request, W.StatusChanged, Admin, UnderReview), Admin);
  }

  /** What a committed withdrawal does: the quote is WITHDRAWN, the action recorded, and the QUOTED request goes back
      under review as the administrator's move. */
  lemma CommittedWithdrawalMoves(now: Time, d: Deal, admin: UserId, q: QuoteId, key: Key, f: Fingerprint, v: nat, rv: nat,
                                 elsewhere: bool)
    requires Withdraw(now, d, admin, q, key, f, v, rv, elsewhere).1.Committed?
    ensures q < |d.quotes| && d.quotes[q].status == Pending && d.quotes[q].creator == admin && d.quotes[q].version == v
    ensures FindWithdrawal(d.withdrawals, admin, key).None? && CanTransition(RequestStatus.Quoted, UnderReview, Admin)
    ensures d.request.status == RequestStatus.Quoted && d.request.version == rv && now < d.quotes[q].expiresAt
    ensures var r := W.Moved(d.request, W.StatusChanged, Admin, UnderReview);
            Withdraw(now, d, admin, q, key, f, v, rv, elsewhere).0
            == d.(request := QuoteNoted(r, Admin), quotes := d.quotes[q := Settled(d.quotes[q], Withdrawn)],
                  withdrawals := d.withdrawals + [Withdrawal(admin, key, q, f)])
  {
  }

  lemma RefusedWithdrawalWritesNothing(now: Time, d: Deal, admin: UserId, q: QuoteId, key: Key, f: Fingerprint, v: nat,
                                       rv: nat, elsewhere: bool)
    requires !Withdraw(now, d, admin, q, key, f, v, rv, elsewhere).1.Expiring?
    requires !Withdraw(now, d, admin, q, key, f, v, rv, elsewhere).1.Committed?
    ensures Withdraw(now, d, admin, q, key, f, v, rv, elsewhere).0 == d
  {
  }

  lemma WithdrawIsSound(now: Time, d: Deal, admin: UserId, q: QuoteId, key: Key, f: Fingerprint, v: nat, rv: nat,
                        elsewhere: bool)
    requires Sound(d)
    ensures var d' := Withdraw(now, d, admin, q, key, f, v, rv, elsewhere).0;
            Sound(d') && Later(d, d')
  {
    var (d', outcome) := Withdraw(now, d, admin, q, key, f, v, rv, elsewhere);
    if outcome.Expiring? {
      ExpiredWithdrawalTouchesOnlyTheQuote(now, d, admin, q, key, f, v, rv, elsewhere);
      ExpiringIsSound(now, d, d', q, v);
    } else if outcome.Committed? {
      CommittedWithdrawalMoves(now, d, admin, q, key, f, v, rv, elsewhere);
      WithdrawingIsSound(d, q, Withdrawal(admin, key, q, f));
    } else {
      RefusedWithdrawalWritesNothing(now, d, admin, q, key, f, v, rv, elsewhere);
      GrowthIsReflexive(d.quotes);
    }
  }

  lemma WithdrawalRecorded(quotes: seq<Quote>, ws: seq<Withdrawal>, w: Withdrawal)
    requires WithdrawalsOk(quotes, ws) && FindWithdrawal(ws, w.admin, w.key).None?
    requires w.quote < |quotes| && quotes[w.quote].status == Withdrawn && quotes[w.quote].creator == w.admin
    ensures WithdrawalsOk(quotes, ws + [w])
  {
  }

  lemma DueChangeIsSound(quotes: seq<Quote>, links: seq<Link>, k: nat, attempt: Ledger.Attempt)
    requires LinksOk(quotes, links) && k < |links|
    ensures LinksOk(quotes, links[k := Link(links[k].quote, Ledger.Try(links[k].due, attempt))])
  {
    var due := links[k].due;
    if attempt.kind != Ledger.DueCreated { Ledger.ChangeKeepsLedger(due, attempt.expectedVersion, attempt.kind); }
    var after := links[k := Link(links[k].quote, Ledger.Try(due, attempt))];
    forall i | 0 <= i < |quotes| && quotes[i].status == QuoteStatus.Accepted ensures FindLink(after, i).Some? {
      var j := FindLink(links, i).value;
      assert after[j].quote == i;
    }
  }

  // ---------------------------------------------------------- the request alone

  lemma MoveIsCoherent(r: W.Request, kind: W.EventKind, actor: Role, to: RequestStatus)
    requires W.Coherent(r) && W.Move(r, kind, actor, to).Ok?
    ensures W.Coherent(W.Move(r, kind, actor, to).value) && W.Move(r, kind, actor, to).value.version == r.version + 1
    ensures !Terminal(r.status)
  {
    W.MovedIsCoherent(r, kind, actor, to);
    TerminalMeansNoExit(r.status);
  }

  /** One successful write of a request service: a status move along an allowed edge, a note, or nothing. */
  lemma WriteIsCoherent(r: W.Request, step: Step)
    requires W.Coherent(r) && RequestStep(step) && WriteRequest(r, step).Ok?
    ensures var r' := WriteRequest(r, step).value;
            W.Coherent(r') && (r' == r || r'.version == r.version + 1) && (Terminal(r.status) ==> r'.status == r.status)
  {
    match step
    case UpdatingDraft(v) => W.NotedIsCoherent(r, W.RequestUpdated, Student);
    case Submitting(v, _, _, _) => MoveIsCoherent(r, W.RequestSubmitted, Student, Submitted);
    case Cancelling(v) => MoveIsCoherent(r, W.RequestCancelled, Student, Cancelled);
    case StudentMoving(v, to) => MoveIsCoherent(r, W.StatusChanged, Student, to);
    case AdminMoving(v, to) => MoveIsCoherent(r, W.StatusChanged, Admin, to);
    case UpdatingDetails(v, changed) => W.NotedIsCoherent(r, W.DetailsUpdated, Admin);
    case Assigning(v, _, changed) => W.NotedIsCoherent(r, W.AssignmentChanged, Admin);
    case NotingScan => W.NotedIsCoherent(r, W.AttachmentNoted, System);
  }

  // ------------------------------------------------------------------ all runs

  lemma DueStepIsSound(d: Deal, k: nat, attempt: Ledger.Attempt)
    requires Sound(d)
    ensures Sound(ChangeDue(d, k, attempt)) && Later(d, ChangeDue(d, k, attempt))
  {
    GrowthIsReflexive(d.quotes);
    if k < |d.links| { DueChangeIsSound(d.quotes, d.links, k, attempt); }
  }

  lemma RequestStepIsSound(d: Deal, step: Step)
    requires Sound(d) && RequestStep(step)
    ensures Sound(WriteRow(d, step)) && Later(d, WriteRow(d, step))
  {
    GrowthIsReflexive(d.quotes);
    if WriteRequest(d.request, step).Ok? { WriteIsCoherent(d.request, step); }
  }

  /** An attachment transaction leaves the request's row, or notes an event on it. */
  lemma FileStepIsSound(d: Deal, step: Step)
    requires Sound(d) && FileStep(step)
    ensures Sound(WriteFiles(d, step)) && Later(d, WriteFiles(d, step))
  {
    GrowthIsReflexive(d.quotes);
    var actor := if step.FinalizingFile? then step.actor else Student;
    W.NotedIsCoherent(d.request, W.AttachmentNoted, actor);
    var d' := WriteFiles(d, step);
    assert d' == d.(files := d'.files)
           || d' == d.(files := d'.files, request := W.Noted(d.request, W.AttachmentNoted, actor));
  }

  lemma SoundStep(now: Time, d: Deal, step: Step)
    requires Sound(d)
    ensures Sound(Next(now, d, step)) && Later(d, Next(now, d, step))
  {
    if RequestStep(step) {
      RequestStepIsSound(d, step);
    } else if FileStep(step) {
      FileStepIsSound(d, step);
    } else if step.ChangingDue? {
      DueStepIsSound(d, step.link, step.attempt);
    } else if step.Quoting? {
      CreateIsSound(now, d, step.admin, step.offer, step.found, step.usedElsewhere);
    } else if step.Responding? {
      RespondIsSound(now, d, step.quote, step.key, step.fingerprint, step.expected, step.accept);
    } else {
      WithdrawIsSound(now, d, step.admin, step.quote, step.key, step.fingerprint, step.expected, step.expectedRequest,
                      step.usedElsewhere);
    }
  }

  lemma LaterComposes(a: Deal, b: Deal, c: Deal)
    requires Later(a, b) && Later(b, c)
    ensures Later(a, c)
  {
    GrowthComposes(a.quotes, b.quotes, c.quotes);
  }

  /** In every run over the student, administration, quote, attachment and finance services: the event log replays to
      the row along allowed edges, at most one quote is pending, a quote is ACCEPTED exactly when it has its one linked
      due over its own amount, currency and minor unit, settled quotes never change, and a terminal request stays so. */
  lemma {:induction false} DealsStaySound(d: Deal, timeline: seq<(Time, Step)>)
    requires Sound(d)
    ensures Sound(Run(d, timeline)) && Later(d, Run(d, timeline))
    decreases |timeline|
  {
    if timeline == [] {
      GrowthIsReflexive(d.quotes);
    } else {
      var next := Next(timeline[0].0, d, timeline[0].1);
      SoundStep(timeline[0].0, d, timeline[0].1);
      DealsStaySound(next, timeline[1..]);
      LaterComposes(d, next, Run(d, timeline));
    }
  }

  lemma NewRequestsAreSound(actor: Role, submit: bool)
    ensures Sound(Started(W.Drafted(actor))) && Sound(Started(W.CreatedForStudent(submit)))
  {
    W.CreationIsCoherent(actor, submit);
  }

  function LinksOfQuote(links: seq<Link>, i: QuoteId): nat {
    if links == [] then 0
    else LinksOfQuote(links[..|links| - 1], i) + if links[|links| - 1].quote == i then 1 else 0
  }

  lemma {:induction false} LinksAreCounted(links: seq<Link>, i: QuoteId)
    requires forall k, l :: 0 <= k < l < |links| ==> links[k].quote != links[l].quote
    ensures LinksOfQuote(links, i) == if FindLink(links, i).Some? then 1 else 0
    decreases |links|
  {
    if links != [] { LinksAreCounted(links[..|links| - 1], i); }
  }

  /** A quote is ACCEPTED exactly when one linked due exists, and then that due has its amount, currency and minor unit;
      any other quote has none. */
  lemma AcceptedMeansOneDue(d: Deal, i: QuoteId)
    requires Sound(d) && i < |d.quotes|
    ensures d.quotes[i].status == QuoteStatus.Accepted <==> LinksOfQuote(d.links, i) == 1
    ensures d.quotes[i].status != QuoteStatus.Accepted <==> LinksOfQuote(d.links, i) == 0
    ensures forall k :: 0 <= k < |d.links| && d.links[k].quote == i ==> DueOf(d.links[k].due, d.quotes[i])
  {
    LinksAreCounted(d.links, i);
  }

  // ------------------------------------------------------- one writer per version

  /** The request version a step insists on; none for the end of an upload, scans and responses, which lock the row and
      take it as they find it. */
  function Expects(step: Step): Option<nat> {
    match step
    case UpdatingDraft(v) => Some(v)
    case Submitting(v, _, _, _) => Some(v)
    case Cancelling(v) => Some(v)
    case StudentMoving(v, _) => Some(v)
    case AdminMoving(v, _) => Some(v)
    case UpdatingDetails(v, _) => Some(v)
    case Assigning(v, _, _) => Some(v)
    case ReservingFile(v, _) => Some(v)
    case DeletingFile(v, _) => Some(v)
    case Quoting(_, o, _, _) => Some(o.expectedRequestVersion)
    case Withdrawing(_, _, _, _, _, rv, _) => Some(rv)
    case _ => None
  }

  lemma StaleWritersWriteNothing(now: Time, d: Deal, step: Step)
    requires Expects(step).Some? && Expects(step).value != d.request.version
    ensures Next(now, d, step) == d
  {
  }

  /** Once a step has moved the row past a version, no step that expects that version ever writes anything again. */
  lemma OneWriterPerVersion(d: Deal, first: (Time, Step), between: seq<(Time, Step)>, second: (Time, Step))
    requires Sound(d) && Expects(second.1) == Some(d.request.version)
    requires Next(first.0, d, first.1).request.version > d.request.version
    ensures var d' := Run(Next(first.0, d, first.1), between); Next(second.0, d', second.1) == d'
  {
    SoundStep(first.0, d, first.1);
    var next := Next(first.0, d, first.1);
    DealsStaySound(next, between);
    StaleWritersWriteNothing(second.0, Run(next, between), second.1);
  }

  /** The versioned writers whose commit, if they commit anything, leaves the version where it is: a reservation of an
      upload, an offer on a request that is QUOTED already, and a withdrawal that finds its quote expired. */
  predicate KeepsVersion(now: Time, d: Deal, step: Step) {
    || step.ReservingFile?
    || (step.Quoting? && d.request.status == RequestStatus.Quoted)
    || (step.Withdrawing? && step.quote < |d.quotes| && d.quotes[step.quote].expiresAt <= now)
  }

  lemma LeadingBumpsUnlessQuoted(r: W.Request)
    requires LeadToQuoted(r).Ok?
    ensures LeadToQuoted(r).value.version == r.version <==> r.status == RequestStatus.Quoted
  {
  }

  lemma CreationBumpsUnlessQuoted(now: Time, d: Deal, admin: UserId, o: Offer, found: bool, elsewhere: bool)
    requires CreateQuote(now, d, admin, o, found, elsewhere).0 != d
    ensures CreateQuote(now, d, admin, o, found, elsewhere).0.request.version == d.request.version
            <==> d.request.status == RequestStatus.Quoted
  {
    if CreateQuote(now, d, admin, o, found, elsewhere).1.Committed? {
      CommittedCreationStores(now, d, admin, o, found, elsewhere);
      LeadingBumpsUnlessQuoted(d.request);
    }
  }

  lemma WithdrawalBumpsUnlessExpired(now: Time, d: Deal, admin: UserId, q: QuoteId, key: Key, f: Fingerprint, v: nat,
                                     rv: nat, elsewhere: bool)
    requires Withdraw(now, d, admin, q, key, f, v, rv, elsewhere).0 != d
    ensures q < |d.quotes|
    ensures Withdraw(now, d, admin, q, key, f, v, rv, elsewhere).0.request.version == d.request.version
            <==> d.quotes[q].expiresAt <= now
  {
  }

  /** Exactly these commits of versioned writers leave the version. */
  lemma CommitsKeepTheVersionIff(now: Time, d: Deal, step: Step)
    requires Expects(step).Some? && Next(now, d, step) != d
    ensures Next(now, d, step).request.version == d.request.version <==> KeepsVersion(now, d, step)
  {
    if step.Quoting? {
      CreationBumpsUnlessQuoted(now, d, step.admin, step.offer, step.found, step.usedElsewhere);
    } else if step.Withdrawing? {
      WithdrawalBumpsUnlessExpired(now, d, step.admin, step.quote, step.key, step.fingerprint, step.expected,
                                   step.expectedRequest, step.usedElsewhere);
    } else {
      assert RequestStep(step) || FileStep(step);
    }
  }

  /** After `between`, the step expects another version or writes nothing. */
  ghost predicate ShutOut(d: Deal, v: nat, between: seq<(Time, Step)>, later: (Time, Step)) {
    Expects(later.1) == Some(v) ==>
      Next(later.0, Run(d, between), later.1) == Run(d, between)
  }

  /** Nobody who expects version `v` ever writes again. */
  ghost predicate VersionIsSpent(d: Deal, v: nat) {
    forall between, later :: ShutOut(d, v, between, later)
  }

  lemma AtTheVersionSomeoneWrites(d: Deal)
    ensures !VersionIsSpent(d, d.request.version)
  {
    var later: (Time, Step) := (0, Assigning(d.request.version, true, true));
    assert Next(0, d, later.1).request == W.Noted(d.request, W.AssignmentChanged, Admin);
    assert Run(d, []) == d;
    assert !ShutOut(d, d.request.version, [], later);
  }

  /** Of the writers that hold one version, the first to commit is the only one ever to commit, whatever happens in
      between, exactly when its commit is not one of those that keep the version. */
  lemma FirstWriterIsTheOnlyOneIff(now: Time, d: Deal, first: Step)
    requires Sound(d) && Expects(first) == Some(d.request.version) && Next(now, d, first) != d
    ensures VersionIsSpent(Next(now, d, first), d.request.version) <==> !KeepsVersion(now, d, first)
  {
    var d1, v := Next(now, d, first), d.request.version;
    CommitsKeepTheVersionIff(now, d, first);
    SoundStep(now, d, first);
    if KeepsVersion(now, d, first) {
      AtTheVersionSomeoneWrites(d1);
    } else {
      forall between, later ensures ShutOut(d1, v, between, later) {
        if Expects(later.1) == Some(v) { OneWriterPerVersion(d, (now, first), between, later); }
      }
    }
  }

  /** A request submitted by an administrator and moved on to QUOTED without an offer. */
  function QuotedWithoutOffer(): W.Request {
    var reviewed := W.Moved(W.CreatedForStudent(true), W.StatusChanged, Admin, UnderReview);
    W.Moved(reviewed, W.StatusChanged, Admin, RequestStatus.Quoted)
  }

  lemma EdgesToAnOffer()
    ensures CanTransition(Submitted, UnderReview, Admin) && CanTransition(UnderReview, RequestStatus.Quoted, Admin)
    ensures CanTransition(RequestStatus.Quoted, Cancelled, Admin)
  {
    assert TRANSITIONS[2].to == UnderReview && TRANSITIONS[6].to == RequestStatus.Quoted && TRANSITIONS[16].to == Cancelled;
  }

  lemma QuotedWithoutOfferIsCoherent()
    ensures W.Coherent(QuotedWithoutOffer()) && QuotedWithoutOffer().status == RequestStatus.Quoted
    ensures QuotedWithoutOffer().version == 4
  {
    EdgesToAnOffer();
    W.CreationIsCoherent(Admin, true);
    var reviewed := W.Moved(W.CreatedForStudent(true), W.StatusChanged, Admin, UnderReview);
    W.MovedIsCoherent(W.CreatedForStudent(true), W.StatusChanged, Admin, UnderReview);
    W.MovedIsCoherent(reviewed, W.StatusChanged, Admin, RequestStatus.Quoted);
  }

  /** The administration moves a request that it submitted for a student to QUOTED, without an offer. */
  function ToQuoted(): seq<(Time, Step)> {
    [(0, AdminMoving(2, UnderReview)), (0, AdminMoving(3, RequestStatus.Quoted))]
  }

  lemma ReachesQuotedWithoutOffer()
    ensures Run(Started(W.CreatedForStudent(true)), ToQuoted()) == Started(QuotedWithoutOffer())
  {
    EdgesToAnOffer();
    var d, steps := Started(W.CreatedForStudent(true)), ToQuoted();
    var reviewed := Started(W.Moved(d.request, W.StatusChanged, Admin, UnderReview));
    assert Next(0, d, AdminMoving(2, UnderReview)) == reviewed;
    assert Next(0, reviewed, AdminMoving(3, RequestStatus.Quoted)) == Started(QuotedWithoutOffer());
    assert steps[1..] == [(0, AdminMoving(3, RequestStatus.Quoted))] && steps[1..][1..] == [];
    assert Run(reviewed, steps[1..]) == Run(Started(QuotedWithoutOffer()), []);
  }

  /** An offer on a request that is QUOTED without quotes commits and leaves the row's status and version. */
  lemma OfferOnQuotedCommits(r: W.Request, o: Offer)
    requires r.status == RequestStatus.Quoted && o.expectedRequestVersion == r.version
    ensures CreateQuote(0, Started(r), 0, o, true, false)
            == (Started(r).(quotes := [Made(0, o)], request := QuoteNoted(r, Admin)), Committed(0))
  {
    assert ExpirePending([], 0) == [] && !AnyPending([]) && FindMade([], 0, o.key).None?;
    assert LeadToQuoted(r) == Ok(r);
    assert [] + [Made(0, o)] == [Made(0, o)];
  }

  /** So two writers that both expect version 4 can commit in a reachable state: an administrator's offer on a request
      that is QUOTED without a pending quote, and the transition of another administrator. */
  lemma TwoWritersOneVersion(o: Offer)
    requires o.expectedRequestVersion == 4
    ensures var d := Run(Started(W.CreatedForStudent(true)), ToQuoted());
            var (d1, first) := CreateQuote(0, d, 0, o, true, false);
            && Sound(d) && d.request.version == 4 && first.Committed?
            && W.AdminTransition(d1.request, 4, Cancelled).Ok?
  {
    QuotedWithoutOfferIsCoherent();
    EdgesToAnOffer();
    ReachesQuotedWithoutOffer();
    OfferOnQuotedCommits(QuotedWithoutOffer(), o);
  }

  /** Nor does one reservation shut out another: as long as the capacity admits them, any number commits at one version.
      */
  lemma {:induction false} ReservationsShareAVersion(now: Time, d: Deal, n: nat)
    requires !Terminal(d.request.status)
    ensures var v := d.request.version;
            var d' := Run(d, seq(n, _ => (now, ReservingFile(v, true))));
            d'.request == d.request && |d'.files| == |d.files| + n
    decreases n
  {
    if n > 0 {
      var v := d.request.version;
      var steps := seq(n, _ => (now, ReservingFile(v, true)));
      assert steps[1..] == seq(n - 1, _ => (now, ReservingFile(v, true)));
      ReservationsShareAVersion(now, Next(now, d, steps[0].1), n - 1);
    }
  }

  // --------------------------------------------------------------------- replays

  lemma {:induction false} MadeQuoteIsFound(quotes: seq<Quote>, i: QuoteId)
    requires DistinctKeys(quotes) && i < |quotes|
    ensures FindMade(quotes, quotes[i].creator, quotes[i].key) == Some(i)
    decreases |quotes|
  {
    var n := |quotes| - 1;
    if i < n {
      assert !MadeWith(quotes[i], quotes[n].creator, quotes[n].key);
      MadeQuoteIsFound(quotes[..n], i);
    }
  }

  lemma RunKeepsQuote(d: Deal, timeline: seq<(Time, Step)>, i: QuoteId)
    requires Sound(d) && i < |d.quotes|
    ensures i < |Run(d, timeline).quotes| && Succeeds(d.quotes[i], Run(d, timeline).quotes[i])
    ensures Sound(Run(d, timeline)) && d.withdrawals <= Run(d, timeline).withdrawals
  {
    DealsStaySound(d, timeline);
  }

  /** A committed creation answers every later repetition of its key with the same quote and changes nothing; the same
      key with another payload is refused. */
  lemma CreationReplays(now: Time, d: Deal, admin: UserId, o: Offer, found: bool, elsewhere: bool,
                        between: seq<(Time, Step)>, later: Time, f: Fingerprint, found': bool, elsewhere': bool)
    requires Sound(d) && CreateQuote(now, d, admin, o, found, elsewhere).1.Committed?
    ensures var (d1, outcome) := CreateQuote(now, d, admin, o, found, elsewhere);
            var d2 := Run(d1, between);
            CreateQuote(later, d2, admin, o.(fingerprint := f), found', elsewhere')
            == (d2, if f == o.fingerprint then Replayed(outcome.quote) else Refused(IdempotencyKeyReused))
  {
    var (d1, outcome) := CreateQuote(now, d, admin, o, found, elsewhere);
    CreateIsSound(now, d, admin, o, found, elsewhere);
    DealsStaySound(d1, between);
    var d2 := Run(d1, between);
    assert Succeeds(d1.quotes[outcome.quote], d2.quotes[outcome.quote]);
    MadeQuoteIsFound(d2.quotes, outcome.quote);
  }

  lemma AnsweredQuoteReplays(now: Time, d: Deal, q: QuoteId, r: Response, f: Fingerprint, v: nat, accept: bool)
    requires q < |d.quotes| && d.quotes[q].response == Some(r)
    ensures Respond(now, d, q, r.key, f, v, accept)
            == (d, if f == r.fingerprint then Replayed(q) else Refused(IdempotencyKeyReused))
  {
  }

  lemma CommittedResponseIsStored(now: Time, d: Deal, q: QuoteId, key: Key, f: Fingerprint, v: nat, accept: bool)
    requires Respond(now, d, q, key, f, v, accept).1.Committed?
    ensures var d' := Respond(now, d, q, key, f, v, accept).0;
            q < |d'.quotes| && d'.quotes[q].response == Some(Response(key, f)) && d'.quotes[q].status != Pending
  {
  }

  /** A committed response answers every later repetition of its key the same way and changes nothing. */
  lemma ResponseReplays(now: Time, d: Deal, q: QuoteId, key: Key, f: Fingerprint, v: nat, accept: bool,
                        between: seq<(Time, Step)>, later: Time, f': Fingerprint, v': nat, accept': bool)
    requires Sound(d) && Respond(now, d, q, key, f, v, accept).1.Committed?
    ensures var d2 := Run(Respond(now, d, q, key, f, v, accept).0, between);
            Respond(later, d2, q, key, f', v', accept')
            == (d2, if f' == f then Replayed(q) else Refused(IdempotencyKeyReused))
  {
    var d1 := Respond(now, d, q, key, f, v, accept).0;
    RespondIsSound(now, d, q, key, f, v, accept);
    CommittedResponseIsStored(now, d, q, key, f, v, accept);
    RunKeepsQuote(d1, between, q);
    AnsweredQuoteReplays(later, Run(d1, between), q, Response(key, f), f', v', accept');
  }

  lemma {:induction false} WithdrawalIsFound(quotes: seq<Quote>, ws: seq<Withdrawal>, k: nat)
    requires WithdrawalsOk(quotes, ws) && k < |ws|
    ensures FindWithdrawal(ws, ws[k].admin, ws[k].key) == Some(ws[k])
    decreases |ws|
  {
    if k < |ws| - 1 { WithdrawalIsFound(quotes, ws[..|ws| - 1], k); }
  }

  lemma RecordedWithdrawalReplays(now: Time, d: Deal, w: Withdrawal, f: Fingerprint, v: nat, rv: nat, elsewhere: bool)
    requires FindWithdrawal(d.withdrawals, w.admin, w.key) == Some(w)
    requires w.quote < |d.quotes| && d.quotes[w.quote].creator == w.admin
    ensures Withdraw(now, d, w.admin, w.quote, w.key, f, v, rv, elsewhere)
            == (d, if f == w.fingerprint then Replayed(w.quote) else Refused(IdempotencyKeyReused))
  {
  }

  lemma CommittedWithdrawalIsRecorded(now: Time, d: Deal, admin: UserId, q: QuoteId, key: Key, f: Fingerprint, v: nat,
                                      rv: nat, elsewhere: bool)
    requires Withdraw(now, d, admin, q, key, f, v, rv, elsewhere).1.Committed?
    ensures var d' := Withdraw(now, d, admin, q, key, f, v, rv, elsewhere).0;
            q < |d'.quotes| && d'.quotes[q].creator == admin
            && d'.withdrawals == d.withdrawals + [Withdrawal(admin, key, q, f)]
  {
  }

  /** A committed withdrawal answers every later repetition of its key the same way and changes nothing. */
  lemma WithdrawalReplays(now: Time, d: Deal, w: Withdrawal, v: nat, rv: nat, elsewhere: bool,
                          between: seq<(Time, Step)>, later: Time, f: Fingerprint, v': nat, rv': nat, elsewhere': bool)
    requires Sound(d) && Withdraw(now, d, w.admin, w.quote, w.key, w.fingerprint, v, rv, elsewhere).1.Committed?
    ensures var d2 := Run(Withdraw(now, d, w.admin, w.quote, w.key, w.fingerprint, v, rv, elsewhere).0, between);
            Withdraw(later, d2, w.admin, w.quote, w.key, f, v', rv', elsewhere')
            == (d2, if f == w.fingerprint then Replayed(w.quote) else Refused(IdempotencyKeyReused))
  {
    var d1 := Withdraw(now, d, w.admin, w.quote, w.key, w.fingerprint, v, rv, elsewhere).0;
    WithdrawIsSound(now, d, w.admin, w.quote, w.key, w.fingerprint, v, rv, elsewhere);
    CommittedWithdrawalIsRecorded(now, d, w.admin, w.quote, w.key, w.fingerprint, v, rv, elsewhere);
    RunKeepsQuote(d1, between, w.quote);
    var d2 := Run(d1, between);
    WithdrawalIsFound(d2.quotes, d2.withdrawals, |d.withdrawals|);
    RecordedWithdrawalReplays(later, d2, w, f, v', rv', elsewhere');
  }

  /** A committed creation stores exactly the offer, pending at version 1, lets lapsed quotes expire and touches no
      other, and leaves the request QUOTED. */
  lemma CreationStoresTheOffer(now: Time, d: Deal, admin: UserId, o: Offer, found: bool, elsewhere: bool)
    requires W.Coherent(d.request) && CreateQuote(now, d, admin, o, found, elsewhere).1.Committed?
    ensures var (d', outcome) := CreateQuote(now, d, admin, o, found, elsewhere);
            && d.request.version == o.expectedRequestVersion && d'.request.status == RequestStatus.Quoted
            && outcome.quote == |d.quotes| && |d'.quotes| == |d.quotes| + 1
            && d'.quotes[outcome.quote] == Quote(admin, o.key, o.fingerprint, o.amount, o.currency,
                                                 Ledger.MinorUnit(o.currency), o.expiresAt, Pending, 1, None)
            && (forall i :: 0 <= i < |d.quotes| ==>
                  && (d.quotes[i].status == Pending ==>
                        && d.quotes[i].expiresAt <= now
                        && d'.quotes[i] == d.quotes[i].(status := Expired, version := d.quotes[i].version + 1))
                  && (d.quotes[i].status != Pending ==> d'.quotes[i] == d.quotes[i]))
            && d'.links == d.links && d'.withdrawals == d.withdrawals && d'.files == d.files
  {
    CommittedCreationStores(now, d, admin, o, found, elsewhere);
    LeadingIsCoherent(d.request);
    assert forall i :: 0 <= i < |d.quotes| ==> ExpirePending(d.quotes, now)[i] == Lapsed(d.quotes[i], now);
  }

  /** A committed answer settles its quote and moves the QUOTED request, as the student, to ACCEPTED or back under
      review. */
  lemma ResponseMovesTheRequest(now: Time, d: Deal, q: QuoteId, key: Key, f: Fingerprint, v: nat, accept: bool)
    requires Respond(now, d, q, key, f, v, accept).1.Committed?
    ensures var d' := Respond(now, d, q, key, f, v, accept).0;
            && d.request.status == RequestStatus.Quoted && d'.request.version == d.request.version + 1
            && d'.request.status == (if accept then RequestStatus.Accepted else UnderReview)
            && q < |d.quotes| && d.quotes[q].version == v
            && d'.quotes == d.quotes[q := Answered(d.quotes[q], Response(key, f), accept)]
            && d.quotes[q].status == Pending && now < d.quotes[q].expiresAt
            && (!accept ==> d'.links == d.links) && d'.withdrawals == d.withdrawals && d'.files == d.files
  {
  }
}
