/** What each finance operation answers and leaves behind, told by the dues and the texts themselves. */
module BookOutcomes {
  import opened Wrappers
  import opened RequestStates
  import opened Ledger
  import opened Amounts
  import opened Bookkeeping
  import opened Settlement
  import opened FinanceRecords

  // ------------------------------------------------------------ one due

  /** A payment and a voiding need an UNPAID due, a reversal a PAID one, and each the version it was offered for. */
  lemma ChangeAnswers(d: Due, v: nat, kind: EntryKind)
    requires Consistent(d) && kind in {PaymentRecorded, PaymentReversed, DueVoided}
    ensures Change(d, v, kind) == Err(VersionConflict) <==> d.version != v
    ensures Change(d, v, kind) == Err(InvalidTransition)
            <==> d.version == v && (d.status == Voided || (kind == PaymentReversed <==> d.status != Paid))
    ensures Change(d, v, kind).Ok?
            <==> d.version == v && d.status != Voided && (kind == PaymentReversed <==> d.status == Paid)
  {
    if d.status == Paid { PaidDueHasItsPayment(d); }
  }

  /** What was agreed on stays; the status moves, and the entry at the new version says by how much: the amount, the
      amount taken back from the payment entered just before, or nothing. */
  lemma ChangeLeaves(d: Due, v: nat, kind: EntryKind)
    requires Consistent(d) && kind in {PaymentRecorded, PaymentReversed, DueVoided} && Change(d, v, kind).Ok?
    ensures var e := Change(d, v, kind).value;
            && e.version == v + 1 && e.amount == d.amount && e.currency == d.currency && e.minorUnit == d.minorUnit
            && |e.ledger| == |d.ledger| + 1 && e.ledger[..|d.ledger|] == d.ledger
            && var entry := e.ledger[|d.ledger|];
               entry.version == v + 1 && entry.kind == kind
    ensures kind == PaymentRecorded ==>
              Change(d, v, kind).value.status == Paid
              && Change(d, v, kind).value.ledger[|d.ledger|] == Entry(v + 1, kind, d.amount, None)
    ensures kind == PaymentReversed ==>
              Change(d, v, kind).value.status == Unpaid
              && Change(d, v, kind).value.ledger[|d.ledger|] == Entry(v + 1, kind, 0 - d.amount, Some(|d.ledger| - 1))
    ensures kind == DueVoided ==>
              Change(d, v, kind).value.status == Voided
              && Change(d, v, kind).value.ledger[|d.ledger|] == Entry(v + 1, kind, 0, None)
  {
    if d.status == Paid { PaidDueHasItsPayment(d); }
  }

  /** A payment and its reversal leave an UNPAID due over the same amount that can be paid again. */
  lemma ReversalUndoesPayment(d: Due)
    requires Consistent(d) && d.status == Unpaid
    ensures var paid := Change(d, d.version, PaymentRecorded);
            && paid.Ok?
            && var back := Change(paid.value, d.version + 1, PaymentReversed);
               && back.Ok? && back.value.status == Unpaid && back.value.amount == d.amount
               && NetPayments(back.value.ledger) == 0
               && Change(back.value, d.version + 2, PaymentRecorded).Ok?
  {
    ChangeAnswers(d, d.version, PaymentRecorded);
    var paid := Change(d, d.version, PaymentRecorded).value;
    ChangeKeepsLedger(d, d.version, PaymentRecorded);
    ChangeAnswers(paid, d.version + 1, PaymentReversed);
    var back := Change(paid, d.version + 1, PaymentReversed).value;
    ChangeKeepsLedger(paid, d.version + 1, PaymentReversed);
    ChangeAnswers(back, d.version + 2, PaymentRecorded);
    PaymentsSumToTheBalance(back.ledger);
  }

  // ------------------------------------------------------------ the books

  predicate Welcome(request: Option<RequestStatus>) { request.Some? && request.value != Draft }

  /** Creating reads the amount first, and needs a request that has left DRAFT. */
  lemma CreationAnswers(b: Books, request: Option<RequestStatus>, text: string, c: Currency)
    ensures var amount, r := AmountToMinorUnits(text, c), CreateDue(b, request, text, c);
            && (r.Ok? <==> amount.Ok? && request.Some? && request.value != Draft)
            && (r == Err(InvalidAmount) <==> amount.Err?)
            && (r == Err(RequestNotFound) <==> amount.Ok? && request.None?)
            && (r == Err(RequestNotEligible) <==> amount.Ok? && request == Some(Draft))
  {
  }

  lemma CreationIsOpening(b: Books, request: Option<RequestStatus>, text: string, c: Currency, amount: nat)
    requires AmountToMinorUnits(text, c) == Ok(amount)
    ensures CreateDue(b, request, text, c) == OpenDue(b, request, amount, c)
  {
  }

  /** The new due takes the next identifier, UNPAID at version 1 over the amount read, with the one entry that says so;
      every other due is untouched. */
  lemma OpeningTakesTheNextIdentifier(b: Books, request: Option<RequestStatus>, amount: nat, c: Currency, id: DueId)
    requires Welcome(request)
    ensures var r := OpenDue(b, request, amount, c);
            && r.Ok? && r.value.next == b.next + 1 && r.value.dues.Keys == b.dues.Keys + {b.next}
            && r.value.dues[b.next]
               == Due(Unpaid, 1, amount, c, if c == KWD then 3 else 2, [Entry(1, DueCreated, amount, None)])
            && (id != b.next && id in b.dues ==> r.value.dues[id] == b.dues[id])
  {
  }

  /** Changing one due finds it, or says so, and touches no other. */
  lemma ChangeTouchesOneDue(b: Books, id: DueId, v: nat, kind: EntryKind, other: DueId)
    requires kind in {PaymentRecorded, PaymentReversed, DueVoided}
    ensures ChangeDue(b, id, v, kind) == Err(DueNotFound) <==> id !in b.dues
    ensures id in b.dues ==> (ChangeDue(b, id, v, kind).Ok? <==> Change(b.dues[id], v, kind).Ok?)
    ensures ChangeDue(b, id, v, kind).Ok? ==>
              var b' := ChangeDue(b, id, v, kind).value;
              && b'.next == b.next && b'.dues.Keys == b.dues.Keys && Ok(b'.dues[id]) == Change(b.dues[id], v, kind)
              && (other != id && other in b.dues ==> b'.dues[other] == b.dues[other])
  {
  }

  // ------------------------------------------------------------ split and replacement

  /** A split starts exactly for an UNPAID due and a text that is a smaller amount, whatever its share of the whole; a
      missing due, another status and any other text are told apart in this order. */
  lemma SplitAnswers(b: Books, id: DueId, text: string)
    ensures var r := BeginSplit(b, id, text);
            && (r == Err(DueNotFound) <==> id !in b.dues)
            && (r == Err(InvalidTransition) <==> id in b.dues && b.dues[id].status != Unpaid)
            && (r.Ok? || r == Err(InvalidAmount) <==> id in b.dues && b.dues[id].status == Unpaid)
            && (r.Ok? <==>
                  && id in b.dues && b.dues[id].status == Unpaid
                  && exists paid :: AmountToMinorUnits(text, b.dues[id].currency) == Ok(paid) && paid < b.dues[id].amount)
  {
    if id in b.dues {
      var amount := AmountToMinorUnits(text, b.dues[id].currency);
      if amount.Ok? && amount.value < b.dues[id].amount { assert amount == Ok(amount.value); }
    }
  }

  /** What it starts reissues the rest T - P, voids the original, opens the part P and pays it, in this order, and has
      committed nothing yet: the accounts of MoneyIsAccountedFor and SplitOffsets begin here. */
  lemma SplitPlans(b: Books, id: DueId, text: string)
    requires BooksOk(b) && BeginSplit(b, id, text).Ok?
    ensures var o := BeginSplit(b, id, text).value;
            var T, P := b.dues[id].amount, AmountToMinorUnits(text, b.dues[id].currency).value;
            && Fresh(b, o) && o.original == id && o.total == T && o.currency == b.dues[id].currency
            && 1 <= P < T && o.plan == [Open(T - P), VoidOriginal, Open(P), PayLast(P)] && o.plan == SplitPlan(T, P)
  {
    SplitBegins(b, id, AmountToMinorUnits(text, b.dues[id].currency).value);
  }

  lemma ReplacementAnswers(b: Books, id: DueId, text: string)
    ensures var r := BeginReplace(b, id, text);
            && (r == Err(DueNotFound) <==> id !in b.dues)
            && (r == Err(InvalidTransition) <==> id in b.dues && b.dues[id].status != Unpaid)
            && (r == Err(InvalidAmount) <==>
                  id in b.dues && b.dues[id].status == Unpaid && AmountToMinorUnits(text, b.dues[id].currency).Err?)
            && (r.Ok? <==>
                  id in b.dues && b.dues[id].status == Unpaid && AmountToMinorUnits(text, b.dues[id].currency).Ok?)
  {
  }

  lemma ReplacementOf(b: Books, id: DueId, text: string, N: nat)
    requires id in b.dues && b.dues[id].status == Unpaid && AmountToMinorUnits(text, b.dues[id].currency) == Ok(N)
    ensures BeginReplace(b, id, text)
            == Ok(Planning(id, b.dues[id], if N == b.dues[id].amount then [] else [Open(N), VoidOriginal]))
  {
  }

  /** A replacement reissues at the new amount and voids the original, and plans nothing for the amount it has. */
  lemma ReplacementPlans(b: Books, id: DueId, text: string, N: nat)
    requires BooksOk(b) && id in b.dues && b.dues[id].status == Unpaid
    requires AmountToMinorUnits(text, b.dues[id].currency) == Ok(N) && 1 <= N <= MaxMinor(b.dues[id].currency)
    ensures var r := BeginReplace(b, id, text);
            && r.Ok? && Fresh(b, r.value) && r.value.original == id && r.value.total == b.dues[id].amount
            && r.value.currency == b.dues[id].currency
            && r.value.plan == if N == b.dues[id].amount then [] else [Open(N), VoidOriginal]
  {
    ReplacementOf(b, id, text, N);
    ReplaceBegins(b, id, N);
  }

  // ------------------------------------------------------- when nothing is in the way

  /** The next transaction when it commits, with the text of an amount left aside. */
  function Commit(b: Books, o: Operation): (Books, Operation)
    requires o.done < |o.plan| && o.original in b.dues && (o.plan[o.done].PayLast? ==> o.last in b.dues)
  {
    match o.plan[o.done]
    case Open(amount) =>
      (Books(b.dues[b.next := Opened(amount, o.currency, MinorUnit(o.currency))], b.next + 1),
       o.(done := o.done + 1, last := b.next))
    case VoidOriginal =>
      var d := b.dues[o.original];
      (b.(dues := b.dues[o.original := d.(status := Voided, version := d.version + 1,
                                          ledger := d.ledger + [Entry(d.version + 1, DueVoided, 0, None)])]),
       o.(done := o.done + 1))
    case PayLast(_) =>
      var d := b.dues[o.last];
      (b.(dues := b.dues[o.last := d.(status := Paid, version := 2,
                                      ledger := d.ledger + [Entry(2, PaymentRecorded, d.amount, None)])]),
       o.(done := o.done + 1))
  }

  /** What stands in the way of the next transaction: the request for an opening, the version and then the status of the
      due for a change. */
  function InTheWay(b: Books, o: Operation, request: Option<RequestStatus>): Option<FinanceError>
    requires o.done < |o.plan| && o.original in b.dues && (o.plan[o.done].PayLast? ==> o.last in b.dues)
  {
    match o.plan[o.done]
    case Open(_) =>
      if request.None? then Some(RequestNotFound) else if request.value == Draft then Some(RequestNotEligible) else None
    case VoidOriginal =>
      if b.dues[o.original].version != o.version then Some(VersionConflict)
      else if b.dues[o.original].status != Unpaid then Some(InvalidTransition) else None
    case PayLast(_) =>
      if b.dues[o.last].version != 1 then Some(VersionConflict)
      else if b.dues[o.last].status != Unpaid then Some(InvalidTransition) else None
  }

  /** An operation's next transaction commits exactly when nothing stands in its way. Otherwise it changes no due, and
      the operation is over with that error: no later one commits. */
  lemma TransactionAnswers(b: Books, o: Operation, request: Option<RequestStatus>, q: real)
    requires BooksOk(b) && OperationOk(b, o) && o.failure.None? && o.done < |o.plan|
    requires o.plan[o.done].Open? ==> q >= 0.0 && RoundedQuotient(q, o.plan[o.done].amount, MinorUnit(o.currency))
    ensures o.plan[o.done].PayLast? ==> o.last in b.dues
    ensures InTheWay(b, o, request).None? ==> Advance(b, o, request, q) == Commit(b, o)
    ensures InTheWay(b, o, request).Some? ==> Advance(b, o, request, q) == (b, o.(failure := InTheWay(b, o, request)))
  {
    assert PlannedOk(o.plan, o.done, o.currency);
    match o.plan[o.done]
    case Open(amount) => PrintedAmountOpens(b, o, request, amount, q);
    case VoidOriginal => ChangeAnswers(b.dues[o.original], o.version, DueVoided);
    case PayLast(_) => ChangeAnswers(b.dues[o.last], 1, PaymentRecorded);
  }

  lemma OverIsOver(b: Books, o: Operation, request: Option<RequestStatus>, q: real)
    requires o.failure.Some? || o.done >= |o.plan|
    ensures Advance(b, o, request, q) == (b, o)
  {
  }

  /** Nothing stands in its way: the request is there, the quotient is the one a double division gives, and the due it
      changes is as it was read. */
  predicate Ready(b: Books, o: Operation, move: Move) {
    && move.Own? && o.failure.None? && o.done < |o.plan| && Welcome(move.request) && o.original in b.dues
    && match o.plan[o.done]
       case Open(amount) =>
         1 <= amount <= MaxMinor(o.currency) && move.q >= 0.0 && RoundedQuotient(move.q, amount, MinorUnit(o.currency))
       case VoidOriginal => b.dues[o.original].status == Unpaid && b.dues[o.original].version == o.version
       case PayLast(_) => o.last in b.dues && b.dues[o.last].status == Unpaid && b.dues[o.last].version == 1
  }

  lemma ReadyCommits(b: Books, o: Operation, move: Move)
    requires Ready(b, o, move)
    ensures Advance(b, o, move.request, move.q) == Commit(b, o)
  {
    if o.plan[o.done].Open? { PrintedAmountOpens(b, o, move.request, o.plan[o.done].amount, move.q); }
  }

  // ------------------------------------------------------- what they have moved

  function Portion(P: nat, c: Currency): Due {
    Due(Paid, 2, P, c, MinorUnit(c), [Entry(1, DueCreated, P, None)] + [Entry(2, PaymentRecorded, P, None)])
  }

  /** A reissue is an opening and a voiding. */
  lemma ReissueTotals(b: Books, id: DueId, N: nat, statuses: set<DueStatus>)
    requires BooksOk(b) && id in b.dues && b.dues[id].status == Unpaid && 1 <= N <= MaxMinor(b.dues[id].currency)
    ensures var c, T := b.dues[id].currency, b.dues[id].amount;
            && BooksOk(Reissued(b, id, N)) && Reissued(b, id, N).next == b.next + 1
            && BooksTotal(Reissued(b, id, N), c, statuses)
               == BooksTotal(b, c, statuses)
                  + (if Unpaid in statuses then N - T else 0) + (if Voided in statuses then T else 0)
  {
    var d := b.dues[id];
    OpenKeepsBooks(b, Some(Submitted), N, d.currency);
    CreateTotal(b, Some(Submitted), N, d.currency, d.currency, statuses);
    var b1 := OpenDue(b, Some(Submitted), N, d.currency).value;
    assert b1.dues[id] == d;
    assert ChangeDue(b1, id, d.version, DueVoided) == Ok(Reissued(b, id, N));
    ChangeTotal(b1, id, d.version, DueVoided, d.currency, statuses);
    ChangeKeepsBooks(b1, id, d.version, DueVoided);
  }

  lemma PortionIsPaid(b: Books, P: nat, c: Currency)
    ensures var b1 := OpenDue(b, Some(Submitted), P, c);
            && b1.Ok?
            && ChangeDue(b1.value, b.next, 1, PaymentRecorded)
               == Ok(Books(b.dues[b.next := Portion(P, c)], b.next + 1))
  {
    var b1 := OpenDue(b, Some(Submitted), P, c).value;
    assert b1.dues[b.next := Portion(P, c)] == b.dues[b.next := Portion(P, c)];
  }

  /** The paid part is an opening and a payment. */
  lemma PortionTotals(b: Books, P: nat, c: Currency, statuses: set<DueStatus>)
    requires BooksOk(b) && 1 <= P <= MaxMinor(c)
    ensures var b' := Books(b.dues[b.next := Portion(P, c)], b.next + 1);
            && BooksOk(b')
            && BooksTotal(b', c, statuses) == BooksTotal(b, c, statuses) + if Paid in statuses then P else 0
  {
    PortionIsPaid(b, P, c);
    OpenKeepsBooks(b, Some(Submitted), P, c);
    CreateTotal(b, Some(Submitted), P, c, c, statuses);
    var b1 := OpenDue(b, Some(Submitted), P, c).value;
    assert b1.dues[b.next].amount == P && b1.dues[b.next].status == Unpaid;
    ChangeTotal(b1, b.next, 1, PaymentRecorded, c, statuses);
    ChangeKeepsBooks(b1, b.next, 1, PaymentRecorded);
  }

  lemma SplitIsReissueAndPortion(b: Books, id: DueId, P: nat)
    requires id in b.dues && P <= b.dues[id].amount
    ensures var half := Reissued(b, id, b.dues[id].amount - P);
            SplitUp(b, id, P) == Books(half.dues[half.next := Portion(P, b.dues[id].currency)], half.next + 1)
  {
  }

  lemma SplitAmountsFit(b: Books, id: DueId, P: nat)
    requires BooksOk(b) && id in b.dues && 1 <= P < b.dues[id].amount
    ensures 1 <= b.dues[id].amount - P <= MaxMinor(b.dues[id].currency) && P <= MaxMinor(b.dues[id].currency)
  {
    assert DueOk(b.dues[id]);
  }

  lemma SplitTotals(b: Books, id: DueId, P: nat, statuses: set<DueStatus>)
    requires BooksOk(b) && id in b.dues && b.dues[id].status == Unpaid && 1 <= P < b.dues[id].amount
    ensures var c, T := b.dues[id].currency, b.dues[id].amount;
            && BooksOk(SplitUp(b, id, P))
            && BooksTotal(SplitUp(b, id, P), c, statuses)
               == BooksTotal(b, c, statuses) + (if Paid in statuses then P else 0)
                  - (if Unpaid in statuses then P else 0) + (if Voided in statuses then T else 0)
  {
    var T, c := b.dues[id].amount, b.dues[id].currency;
    var half := Reissued(b, id, T - P);
    SplitAmountsFit(b, id, P);
    ReissueTotals(b, id, T - P, statuses);
    PortionTotals(half, P, c, statuses);
    SplitIsReissueAndPortion(b, id, P);
    assert BooksTotal(SplitUp(b, id, P), c, statuses) == BooksTotal(half, c, statuses) + if Paid in statuses then P else 0;
  }

  /** A completed split has moved exactly P from outstanding to paid: the live total is what it was, the amount paid
      grew by P, the amount outstanding shrank by P, and T was voided; and the books are in order. */
  lemma SplitMovesThePart(b: Books, id: DueId, P: nat)
    requires BooksOk(b) && id in b.dues && b.dues[id].status == Unpaid && 1 <= P < b.dues[id].amount
    ensures var b', c, T := SplitUp(b, id, P), b.dues[id].currency, b.dues[id].amount;
            && BooksOk(b')
            && BooksTotal(b', c, LIVE) == BooksTotal(b, c, LIVE)
            && BooksTotal(b', c, {Paid}) == BooksTotal(b, c, {Paid}) + P
            && BooksTotal(b', c, {Unpaid}) == BooksTotal(b, c, {Unpaid}) - P
            && BooksTotal(b', c, {Voided}) == BooksTotal(b, c, {Voided}) + T
  {
    SplitTotals(b, id, P, LIVE);
    SplitTotals(b, id, P, {Paid});
    SplitTotals(b, id, P, {Unpaid});
    SplitTotals(b, id, P, {Voided});
  }

  /** The original is voided, the rest outstanding under the next identifier, the part paid under the one after, and no
      other due is touched. */
  lemma SplitLeaves(b: Books, id: DueId, P: nat, other: DueId)
    requires BooksOk(b) && id in b.dues && P < b.dues[id].amount
    ensures var b', d := SplitUp(b, id, P), b.dues[id];
            && b'.next == b.next + 2 && b'.dues.Keys == b.dues.Keys + {b.next, b.next + 1}
            && b'.dues[id].status == Voided && b'.dues[id].amount == d.amount && b'.dues[id].version == d.version + 1
            && b'.dues[b.next].status == Unpaid && b'.dues[b.next].amount == d.amount - P
            && b'.dues[b.next + 1].status == Paid && b'.dues[b.next + 1].amount == P
            && b'.dues[b.next].currency == b'.dues[b.next + 1].currency == b'.dues[id].currency == d.currency
            && (other in b.dues && other != id ==> b'.dues[other] == b.dues[other])
  {
  }

  lemma ReplacementLeaves(b: Books, id: DueId, N: nat, other: DueId)
    requires BooksOk(b) && id in b.dues
    ensures var b', d := Reissued(b, id, N), b.dues[id];
            && b'.next == b.next + 1 && b'.dues.Keys == b.dues.Keys + {b.next}
            && b'.dues[id].status == Voided && b'.dues[id].amount == d.amount
            && b'.dues[b.next].status == Unpaid && b'.dues[b.next].amount == N && b'.dues[b.next].currency == d.currency
            && (other in b.dues && other != id ==> b'.dues[other] == b.dues[other])
  {
  }

  /** A completed replacement has moved the outstanding total from T to N. */
  lemma ReplacementMovesTheAmount(b: Books, id: DueId, N: nat)
    requires BooksOk(b) && id in b.dues && b.dues[id].status == Unpaid && 1 <= N <= MaxMinor(b.dues[id].currency)
    ensures var b', c, T := Reissued(b, id, N), b.dues[id].currency, b.dues[id].amount;
            && BooksOk(b')
            && BooksTotal(b', c, {Unpaid}) == BooksTotal(b, c, {Unpaid}) + N - T
            && BooksTotal(b', c, {Paid}) == BooksTotal(b, c, {Paid})
            && BooksTotal(b', c, {Voided}) == BooksTotal(b, c, {Voided}) + T
  {
    ReissueTotals(b, id, N, {Unpaid});
    ReissueTotals(b, id, N, {Paid});
    ReissueTotals(b, id, N, {Voided});
  }

  // ------------------------------------------------------------ settlement

  /** The settlement of one list after another: what failed in the first ends it, with what was paid before. */
  lemma {:induction false} SettleInTwo(b: Books, first: seq<DueRef>, second: seq<DueRef>)
    ensures var (b1, r1) := SettleAll(b, first);
            var (b2, r2) := SettleAll(b1, second);
            SettleAll(b, first + second)
            == if r1.Err? then (b1, r1) else (b2, if r2.Ok? then Ok(r1.value + r2.value) else r2)
    decreases |first|
  {
    if first == [] {
      assert first + second == second;
    } else {
      assert (first + second)[1..] == first[1..] + second;
      var r := ChangeDue(b, first[0].id, first[0].version, PaymentRecorded);
      if r.Ok? { SettleInTwo(r.value, first[1..], second); }
    }
  }

  /** When the first `k` dues are as they were read and the next one is not, exactly those `k` are paid. */
  lemma SettlementStopsAtTheFirstChange(b: Books, refs: seq<DueRef>, k: nat, id: DueId)
    requires k < |refs| && ReadsUnpaid(b, refs[..k]) && !Names(refs[..k], refs[k].id)
    requires refs[k].id in b.dues && b.dues[refs[k].id].version != refs[k].version && id in b.dues
    ensures var (b', r) := SettleAll(b, refs);
            && r == Err(VersionConflict) && id in b'.dues
            && (if Names(refs[..k], id) then b'.dues[id].status == Paid else b'.dues[id] == b.dues[id])
  {
    UndisturbedSettlementPaysAll(b, refs[..k], id);
    UndisturbedSettlementPaysAll(b, refs[..k], refs[k].id);
    SettleInTwo(b, refs[..k], refs[k..]);
    assert refs == refs[..k] + refs[k..];
  }
}
