/** Conservation of money through split payments and amount replacements, crash by crash and in every interleaving. */
module Settlement {
  import opened Wrappers
  import opened RequestStates
  import opened Ledger
  import opened Amounts
  import opened Bookkeeping

  /** A run mixes the operation's own transactions with those of everybody else. Stopping anywhere is a crash. */
  datatype Move =
    | Own(request: Option<RequestStatus>, q: real)
    | Foreign(step: BookStep)

  function RunMoves(b: Books, o: Operation, moves: seq<Move>): (Books, Operation)
    decreases |moves|
  {
    if moves == [] then (b, o)
    else
      match moves[0]
      case Own(request, q) => var (b', o') := Advance(b, o, request, q); RunMoves(b', o', moves[1..])
      case Foreign(step) => RunMoves(NextBooks(b, step), o, moves[1..])
  }

  /** What the foreign transactions of a run add to a total: the share of each, where it happens. */
  function ForeignShare(b: Books, o: Operation, moves: seq<Move>, statuses: set<DueStatus>): int
    decreases |moves|
  {
    if moves == [] then 0
    else
      match moves[0]
      case Own(request, q) =>
        var (b', o') := Advance(b, o, request, q); ForeignShare(b', o', moves[1..], statuses)
      case Foreign(step) =>
        Share(b, step, o.currency, statuses) + ForeignShare(NextBooks(b, step), o, moves[1..], statuses)
  }

  /** What one own move leaves: everything stays well-formed, and the total moved with the plan's progress. */
  ghost predicate Accounted(b: Books, o: Operation, b': Books, o': Operation, statuses: set<DueStatus>)
    requires o.done <= |o.plan|
  {
    && BooksOk(b') && OperationOk(b', o')
    && o'.plan == o.plan && o'.currency == o.currency && o'.total == o.total && o'.original == o.original
    && BooksTotal(b', o.currency, statuses) - Offset(o'.plan, o'.total, o'.done, statuses)
       == BooksTotal(b, o.currency, statuses) - Offset(o.plan, o.total, o.done, statuses)
  }

  lemma OpenMove(b: Books, o: Operation, request: Option<RequestStatus>, statuses: set<DueStatus>)
    requires BooksOk(b) && OperationOk(b, o) && o.done < |o.plan| && o.plan[o.done].Open?
    ensures var (b', o') := OpenNext(b, o, request, o.plan[o.done].amount); Accounted(b, o, b', o', statuses)
  {
    var amount := o.plan[o.done].amount;
    assert PlannedOk(o.plan, o.done, o.currency);
    if OpenDue(b, request, amount, o.currency).Ok? {
      CreateTotal(b, request, amount, o.currency, o.currency, statuses);
      OpenKeepsBooks(b, request, amount, o.currency);
    }
  }

  /** Printing and parsing in between makes no difference. */
  lemma PrintedAmountOpens(b: Books, o: Operation, request: Option<RequestStatus>, amount: nat, q: real)
    requires 1 <= amount <= MaxMinor(o.currency) && q >= 0.0 && RoundedQuotient(q, amount, MinorUnit(o.currency))
    ensures OpenPrinted(b, o, request, amount, q) == OpenNext(b, o, request, amount)
  {
    PrintedAmountParsesBack(amount, o.currency, q);
  }

  lemma PrintMove(b: Books, o: Operation, request: Option<RequestStatus>, q: real, statuses: set<DueStatus>)
    requires BooksOk(b) && OperationOk(b, o) && o.done < |o.plan| && o.plan[o.done].Open?
    ensures var (b', o') := OpenPrinted(b, o, request, o.plan[o.done].amount, q); Accounted(b, o, b', o', statuses)
  {
    var amount := o.plan[o.done].amount;
    assert PlannedOk(o.plan, o.done, o.currency);
    if q >= 0.0 && RoundedQuotient(q, amount, MinorUnit(o.currency)) {
      PrintedAmountOpens(b, o, request, amount, q);
      OpenMove(b, o, request, statuses);
    }
  }

  lemma OffsetGrows(o: Operation, statuses: set<DueStatus>)
    requires o.done < |o.plan|
    ensures Offset(o.plan, o.total, o.done + 1, statuses)
            == Offset(o.plan, o.total, o.done, statuses) + Effect(o.plan[o.done], o.total, statuses)
  {
  }

  lemma ChangeKeepsOperation(b: Books, o: Operation, id: DueId, version: nat, kind: EntryKind, statuses: set<DueStatus>)
    requires BooksOk(b) && OperationOk(b, o) && o.done < |o.plan| && !o.plan[o.done].Open?
    requires kind != DueCreated && ChangeDue(b, id, version, kind).Ok?
    ensures var b' := ChangeDue(b, id, version, kind).value; BooksOk(b') && OperationOk(b', o.(done := o.done + 1))
  {
    ChangeTotal(b, id, version, kind, o.currency, statuses);
    ChangeKeepsBooks(b, id, version, kind);
    assert Holds(ChangeDue(b, id, version, kind).value, o.original, o.total, o.currency);
  }

  lemma PlannedChangeTotal(b: Books, id: DueId, version: nat, kind: EntryKind, amount: nat, c: Currency,
                           statuses: set<DueStatus>)
    requires BooksOk(b) && Holds(b, id, amount, c) && (kind == DueVoided || kind == PaymentRecorded)
    requires ChangeDue(b, id, version, kind).Ok?
    ensures BooksTotal(ChangeDue(b, id, version, kind).value, c, statuses)
            == BooksTotal(b, c, statuses)
               + (if StatusAfter(kind) in statuses then amount else 0) - (if Unpaid in statuses then amount else 0)
  {
    ChangeTotal(b, id, version, kind, c, statuses);
  }

  /** The plan's transaction on due `id`, of that plan's amount, moves its amount from UNPAID to the new status. */
  lemma ChangeMove(b: Books, o: Operation, id: DueId, version: nat, kind: EntryKind, amount: nat, statuses: set<DueStatus>)
    requires BooksOk(b) && OperationOk(b, o) && o.done < |o.plan| && !o.plan[o.done].Open?
    requires Holds(b, id, amount, o.currency) && (kind == DueVoided || kind == PaymentRecorded)
    requires Effect(o.plan[o.done], o.total, statuses)
             == (if StatusAfter(kind) in statuses then amount else 0) - (if Unpaid in statuses then amount else 0)
    ensures var (b', o') := ChangeNext(b, o, id, version, kind); Accounted(b, o, b', o', statuses)
  {
    var changed := ChangeDue(b, id, version, kind);
    if changed.Ok? {
      PlannedChangeTotal(b, id, version, kind, amount, o.currency, statuses);
      ChangeKeepsOperation(b, o, id, version, kind, statuses);
      OffsetGrows(o, statuses);
    }
  }

  lemma VoidMove(b: Books, o: Operation, statuses: set<DueStatus>)
    requires BooksOk(b) && OperationOk(b, o) && o.done < |o.plan| && o.plan[o.done].VoidOriginal?
    ensures var (b', o') := ChangeNext(b, o, o.original, o.version, DueVoided); Accounted(b, o, b', o', statuses)
  {
    ChangeMove(b, o, o.original, o.version, DueVoided, o.total, statuses);
  }

  lemma PayMove(b: Books, o: Operation, statuses: set<DueStatus>)
    requires BooksOk(b) && OperationOk(b, o) && o.done < |o.plan| && o.plan[o.done].PayLast?
    ensures var (b', o') := ChangeNext(b, o, o.last, 1, PaymentRecorded); Accounted(b, o, b', o', statuses)
  {
    assert PlannedOk(o.plan, o.done, o.currency);
    assert Holds(b, o.last, o.plan[o.done].amount, o.currency);
    ChangeMove(b, o, o.last, 1, PaymentRecorded, o.plan[o.done].amount, statuses);
  }

  lemma OwnMove(b: Books, o: Operation, request: Option<RequestStatus>, q: real, statuses: set<DueStatus>)
    requires BooksOk(b) && OperationOk(b, o)
    ensures var (b', o') := Advance(b, o, request, q); Accounted(b, o, b', o', statuses)
  {
    if o.failure.None? && o.done < |o.plan| {
      match o.plan[o.done]
      case Open(_) => PrintMove(b, o, request, q, statuses);
      case VoidOriginal => VoidMove(b, o, statuses);
      case PayLast(_) => PayMove(b, o, statuses);
    }
  }

  lemma ForeignKeepsOperation(b: Books, o: Operation, step: BookStep)
    requires BooksOk(b) && OperationOk(b, o)
    ensures OperationOk(NextBooks(b, step), o)
  {
    StepKeepsDues(b, step, o.original, o.total, o.currency);
    if o.done > 0 && o.plan[o.done - 1].Open? {
      StepKeepsDues(b, step, o.last, o.plan[o.done - 1].amount, o.currency);
    }
  }

  /** At every point of every interleaving the dues stay the folds of their ledgers, and the total over any statuses is
      what it was, plus what the others did, plus exactly the effect of the operation's committed transactions. */
  lemma {:induction false} MoneyIsAccountedFor(b: Books, o: Operation, moves: seq<Move>, statuses: set<DueStatus>)
    requires BooksOk(b) && OperationOk(b, o)
    ensures var (b', o') := RunMoves(b, o, moves);
            && BooksOk(b') && OperationOk(b', o') && o'.plan == o.plan && o'.total == o.total
            && BooksTotal(b', o.currency, statuses) - Offset(o'.plan, o'.total, o'.done, statuses)
               == BooksTotal(b, o.currency, statuses) - Offset(o.plan, o.total, o.done, statuses)
                  + ForeignShare(b, o, moves, statuses)
    decreases |moves|
  {
    if moves != [] {
      match moves[0]
      case Own(request, q) =>
        var (b', o') := Advance(b, o, request, q);
        OwnMove(b, o, request, q, statuses);
        MoneyIsAccountedFor(b', o', moves[1..], statuses);
      case Foreign(step) =>
        var b' := NextBooks(b, step);
        BooksStep(b, step);
        StepTotal(b, step, o.currency, statuses);
        ForeignKeepsOperation(b, o, step);
        MoneyIsAccountedFor(b', o, moves[1..], statuses);
    }
  }

  /** An operation that has read its original due and committed nothing yet. */
  ghost predicate Fresh(b: Books, o: Operation) {
    && OperationOk(b, o) && o.done == 0 && o.failure.None?
    && b.dues[o.original].status == Unpaid && b.dues[o.original].version == o.version
  }

  /** The operation a split payment starts on an unpaid due: T = P + R, all three at least one minor unit. */
  lemma SplitBegins(b: Books, id: DueId, paid: nat)
    requires BooksOk(b) && id in b.dues && b.dues[id].status == Unpaid && 1 <= paid < b.dues[id].amount
    ensures Fresh(b, Planning(id, b.dues[id], SplitPlan(b.dues[id].amount, paid)))
  {
  }

  /** A split of T = P + R: the live total stands at T, T + R, R, T, T after 0 to 4 transactions, and at the end exactly
      P is newly paid and R of the T outstanding before remains so. */
  lemma SplitOffsets(T: nat, P: nat)
    requires P < T
    ensures var plan, R := SplitPlan(T, P), T - P;
            && Offset(plan, T, 0, LIVE) == 0 && Offset(plan, T, 1, LIVE) == R && Offset(plan, T, 2, LIVE) == R - T
            && Offset(plan, T, 3, LIVE) == 0 && Offset(plan, T, 4, LIVE) == 0
    ensures Offset(SplitPlan(T, P), T, 4, {Paid}) == P && Offset(SplitPlan(T, P), T, 4, {Unpaid}) == (T - P) - T
    ensures Offset(SplitPlan(T, P), T, 4, {Voided}) == T
  {
    OffsetOfFour(SplitPlan(T, P), T, LIVE);
    OffsetOfFour(SplitPlan(T, P), T, {Paid});
    OffsetOfFour(SplitPlan(T, P), T, {Unpaid});
    OffsetOfFour(SplitPlan(T, P), T, {Voided});
  }

  lemma OffsetOfFour(plan: seq<Planned>, T: nat, statuses: set<DueStatus>)
    requires |plan| == 4
    ensures Offset(plan, T, 2, statuses) == Effect(plan[0], T, statuses) + Effect(plan[1], T, statuses)
    ensures Offset(plan, T, 3, statuses) == Offset(plan, T, 2, statuses) + Effect(plan[2], T, statuses)
    ensures Offset(plan, T, 4, statuses) == Offset(plan, T, 3, statuses) + Effect(plan[3], T, statuses)
  {
    OffsetOfTwo(plan, T, statuses);
  }

  lemma OffsetOfTwo(plan: seq<Planned>, T: nat, statuses: set<DueStatus>)
    requires |plan| >= 2
    ensures Offset(plan, T, 2, statuses) == Effect(plan[0], T, statuses) + Effect(plan[1], T, statuses)
  {
    assert Offset(plan, T, 1, statuses) == Effect(plan[0], T, statuses);
  }

  lemma ReplaceBegins(b: Books, id: DueId, amount: nat)
    requires BooksOk(b) && id in b.dues && b.dues[id].status == Unpaid && 1 <= amount <= MaxMinor(b.dues[id].currency)
    ensures Fresh(b, Planning(id, b.dues[id], ReplacePlan(amount)))
  {
  }

  /** A replacement of T by N: the live total stands at T, T + N, N. */
  lemma ReplaceOffsets(T: nat, N: nat)
    ensures var plan := ReplacePlan(N);
            && Offset(plan, T, 1, LIVE) == N && Offset(plan, T, 2, LIVE) == N - T
            && Offset(plan, T, 2, {Unpaid}) == N - T && Offset(plan, T, 2, {Voided}) == T
  {
    OffsetOfTwo(ReplacePlan(N), T, LIVE);
    OffsetOfTwo(ReplacePlan(N), T, {Unpaid});
    OffsetOfTwo(ReplacePlan(N), T, {Voided});
  }

  lemma {:induction false} NobodyElseAddsNothing(b: Books, o: Operation, moves: seq<Move>, statuses: set<DueStatus>)
    requires forall i :: 0 <= i < |moves| ==> moves[i].Own?
    ensures ForeignShare(b, o, moves, statuses) == 0
    decreases |moves|
  {
    if moves != [] {
      var (b', o') := Advance(b, o, moves[0].request, moves[0].q);
      NobodyElseAddsNothing(b', o', moves[1..], statuses);
    }
  }

  /** With nobody else at work, wherever the operation crashes the total is the one it started from plus the effect of
      its committed transactions. */
  lemma UndisturbedTotals(b: Books, o: Operation, moves: seq<Move>, statuses: set<DueStatus>)
    requires BooksOk(b) && Fresh(b, o) && forall i :: 0 <= i < |moves| ==> moves[i].Own?
    ensures var (b', o') := RunMoves(b, o, moves);
            && o'.done <= |o.plan|
            && BooksTotal(b', o.currency, statuses)
               == BooksTotal(b, o.currency, statuses) + Offset(o.plan, o.total, o'.done, statuses)
  {
    MoneyIsAccountedFor(b, o, moves, statuses);
    NobodyElseAddsNothing(b, o, moves, statuses);
  }

  // ---------------------------------------------------------- interference

  /** The operation has failed, or it has yet to void, as transaction `i` of its plan, an original that somebody else
      has changed. */
  ghost predicate Doomed(b: Books, o: Operation, i: nat) {
    && o.done <= i
    && (o.failure.Some?
        || (&& i < |o.plan| && o.plan[i] == VoidOriginal
            && o.original in b.dues && b.dues[o.original].version > o.version))
  }

  /** What an opening leaves: at most one more transaction done, the plan as it was, due `id` untouched. */
  ghost predicate Opens(b: Books, o: Operation, b': Books, o': Operation, id: DueId) {
    && o'.done <= o.done + 1 && o'.plan == o.plan && o'.original == o.original && o'.version == o.version
    && (o.failure == o'.failure || o'.failure.Some?)
    && id in b.dues && id in b'.dues && b'.dues[id] == b.dues[id]
  }

  lemma OpenNextOpens(b: Books, o: Operation, request: Option<RequestStatus>, amount: nat, id: DueId)
    requires BooksOk(b) && id in b.dues
    ensures var (b', o') := OpenNext(b, o, request, amount); Opens(b, o, b', o', id)
  {
    assert id < b.next;
  }

  lemma PrintedOpens(b: Books, o: Operation, request: Option<RequestStatus>, amount: nat, q: real, id: DueId)
    requires BooksOk(b) && id in b.dues && 1 <= amount <= MaxMinor(o.currency)
    ensures var (b', o') := OpenPrinted(b, o, request, amount, q); Opens(b, o, b', o', id)
  {
    if q >= 0.0 && RoundedQuotient(q, amount, MinorUnit(o.currency)) {
      PrintedAmountOpens(b, o, request, amount, q);
      OpenNextOpens(b, o, request, amount, id);
    }
  }

  lemma DoomedChange(b: Books, o: Operation, i: nat)
    requires Doomed(b, o, i) && o.failure.None? && o.done == i
    ensures var (b', o') := ChangeNext(b, o, o.original, o.version, DueVoided);
            b' == b && Doomed(b', o', i) && o'.done == o.done && o'.plan == o.plan && o'.total == o.total
  {
  }

  /** A plan opens before it voids, and pays only after. */
  ghost predicate OpensUntil(plan: seq<Planned>, i: nat) {
    forall k :: 0 <= k < i && k < |plan| ==> plan[k].Open?
  }

  lemma DoomedAdvance(b: Books, o: Operation, i: nat, request: Option<RequestStatus>, q: real)
    requires BooksOk(b) && OperationOk(b, o) && Doomed(b, o, i) && OpensUntil(o.plan, i)
    ensures var (b', o') := Advance(b, o, request, q); Doomed(b', o', i) && o'.plan == o.plan
  {
    if o.failure.None? && o.done < |o.plan| {
      if o.done == i {
        DoomedChange(b, o, i);
      } else {
        assert PlannedOk(o.plan, o.done, o.currency);
        PrintedOpens(b, o, request, o.plan[o.done].amount, q, o.original);
      }
    }
  }

  lemma {:induction false} DoomedForever(b: Books, o: Operation, i: nat, moves: seq<Move>, statuses: set<DueStatus>)
    requires BooksOk(b) && OperationOk(b, o) && Doomed(b, o, i) && OpensUntil(o.plan, i)
    ensures var o' := RunMoves(b, o, moves).1; o'.done <= i && o'.plan == o.plan
    decreases |moves|
  {
    if moves != [] {
      match moves[0]
      case Own(request, q) =>
        DoomedAdvance(b, o, i, request, q);
        OwnMove(b, o, request, q, statuses);
        var (b', o') := Advance(b, o, request, q);
        DoomedForever(b', o', i, moves[1..], statuses);
      case Foreign(step) =>
        BooksStep(b, step);
        ForeignKeepsOperation(b, o, step);
        VersionsGrow(b, step, o.original);
        DoomedForever(NextBooks(b, step), o, i, moves[1..], statuses);
    }
  }

  /** A change of the original by somebody else before it is voided stops the operation there: in every continuation at
      most the openings planned before the voiding commit, the void never does, and the effect of what committed stays
      in the totals for good. */
  lemma InterferenceStopsIt(b: Books, o: Operation, i: nat, moves: seq<Move>, statuses: set<DueStatus>)
    requires BooksOk(b) && OperationOk(b, o) && Doomed(b, o, i) && OpensUntil(o.plan, i)
    ensures var (b', o') := RunMoves(b, o, moves);
            && o'.done <= i && o'.done <= |o.plan|
            && BooksTotal(b', o.currency, statuses) - Offset(o.plan, o.total, o'.done, statuses)
               == BooksTotal(b, o.currency, statuses) - Offset(o.plan, o.total, o.done, statuses)
                  + ForeignShare(b, o, moves, statuses)
  {
    MoneyIsAccountedFor(b, o, moves, statuses);
    DoomedForever(b, o, i, moves, statuses);
  }

  /** Both plans open exactly once before they void. So a split of T = P + R or a replacement by R whose original was
      changed since it was read ends with nothing committed, or with the reissued R beside an original that is not
      voided by it. */
  lemma DoomedPlanOpensAtMostOnce(b: Books, o: Operation, moves: seq<Move>, paid: nat)
    requires BooksOk(b) && OperationOk(b, o) && paid < o.total
    requires o.plan == SplitPlan(o.total, paid) || o.plan == ReplacePlan(o.total - paid)
    requires o.done <= 1 && o.original in b.dues && b.dues[o.original].version > o.version
    ensures var (b', o') := RunMoves(b, o, moves);
            && o'.done <= 1
            && BooksTotal(b', o.currency, LIVE)
               == BooksTotal(b, o.currency, LIVE) + ForeignShare(b, o, moves, LIVE)
                  + (if o'.done > o.done then o.total - paid else 0)
            && o.done <= o'.done
  {
    InterferenceStopsIt(b, o, 1, moves, LIVE);
    ProgressNeverUndone(b, o, moves);
    assert Offset(o.plan, o.total, 1, LIVE) == o.total - paid;
  }

  lemma {:induction false} ProgressNeverUndone(b: Books, o: Operation, moves: seq<Move>)
    ensures o.done <= RunMoves(b, o, moves).1.done
    decreases |moves|
  {
    if moves != [] {
      match moves[0]
      case Own(request, q) =>
        AdvanceNeverUndoes(b, o, request, q);
        var (b', o') := Advance(b, o, request, q);
        ProgressNeverUndone(b', o', moves[1..]);
      case Foreign(step) => ProgressNeverUndone(NextBooks(b, step), o, moves[1..]);
    }
  }

  lemma AdvanceNeverUndoes(b: Books, o: Operation, request: Option<RequestStatus>, q: real)
    ensures o.done <= Advance(b, o, request, q).1.done
  {
  }

  /** The operation has failed, or its next transaction pays a due that somebody else has changed since it was opened.
      */
  ghost predicate Unpayable(b: Books, o: Operation) {
    || o.failure.Some?
    || (&& o.done < |o.plan| && o.plan[o.done].PayLast?
        && o.last in b.dues && b.dues[o.last].version > 1)
  }

  lemma UnpayableItself(b: Books, o: Operation, request: Option<RequestStatus>, q: real)
    requires Unpayable(b, o)
    ensures var (b', o') := Advance(b, o, request, q);
            b' == b && o'.failure.Some? && o'.done == o.done && o'.plan == o.plan
  {
  }

  lemma {:induction false} UnpayableForever(b: Books, o: Operation, moves: seq<Move>)
    requires BooksOk(b) && Unpayable(b, o)
    ensures RunMoves(b, o, moves).1.done == o.done
    decreases |moves|
  {
    if moves != [] {
      match moves[0]
      case Own(request, q) =>
        UnpayableItself(b, o, request, q);
        UnpayableForever(b, Advance(b, o, request, q).1, moves[1..]);
      case Foreign(step) =>
        BooksStep(b, step);
        if o.last in b.dues { VersionsGrow(b, step, o.last); }
        UnpayableForever(NextBooks(b, step), o, moves[1..]);
    }
  }

  /** Paying, or voiding, the due just opened for the paid part stops the operation as well: no continuation commits
      another of its transactions, and each total moves by the others' shares alone. */
  lemma PaymentInterferenceStopsIt(b: Books, o: Operation, moves: seq<Move>, statuses: set<DueStatus>)
    requires BooksOk(b) && OperationOk(b, o) && Unpayable(b, o)
    ensures var (b', o') := RunMoves(b, o, moves);
            && o'.done == o.done
            && BooksTotal(b', o.currency, statuses)
               == BooksTotal(b, o.currency, statuses) + ForeignShare(b, o, moves, statuses)
  {
    MoneyIsAccountedFor(b, o, moves, statuses);
    UnpayableForever(b, o, moves);
  }

  /** So a split that starts afresh and is stopped there has the original voided and the portion still to be paid by it:
      whatever the others did, of the effect of its plan exactly the payment is missing. */
  lemma SplitStoppedBeforeItsPayment(b: Books, o: Operation, paid: nat, before: seq<Move>, after: seq<Move>,
                                     statuses: set<DueStatus>)
    requires BooksOk(b) && Fresh(b, o) && paid < o.total && o.plan == SplitPlan(o.total, paid)
    requires var (b1, o1) := RunMoves(b, o, before); o1.done == 3 && Unpayable(b1, o1)
    ensures var (b1, o1) := RunMoves(b, o, before);
            var (b2, o2) := RunMoves(b1, o1, after);
            && o2.done == 3
            && BooksTotal(b2, o.currency, statuses)
               == BooksTotal(b, o.currency, statuses) + ForeignShare(b, o, before, statuses)
                  + ForeignShare(b1, o1, after, statuses) + Offset(o.plan, o.total, 3, statuses)
  {
    MoneyIsAccountedFor(b, o, before, statuses);
    SameCurrency(b, o, before, statuses);
    var (b1, o1) := RunMoves(b, o, before);
    PaymentInterferenceStopsIt(b1, o1, after, statuses);
  }

  lemma {:induction false} SameCurrency(b: Books, o: Operation, moves: seq<Move>, statuses: set<DueStatus>)
    requires BooksOk(b) && OperationOk(b, o)
    ensures RunMoves(b, o, moves).1.currency == o.currency
    decreases |moves|
  {
    if moves != [] {
      match moves[0]
      case Own(request, q) =>
        OwnMove(b, o, request, q, statuses);
        var (b', o') := Advance(b, o, request, q);
        SameCurrency(b', o', moves[1..], statuses);
      case Foreign(step) =>
        BooksStep(b, step);
        ForeignKeepsOperation(b, o, step);
        SameCurrency(NextBooks(b, step), o, moves[1..], statuses);
    }
  }
}
