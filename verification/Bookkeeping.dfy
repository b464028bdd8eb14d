/** All dues together, their totals per currency and status, and the multi-transaction operations on them. */
module Bookkeeping {
  import opened Wrappers
  import opened RequestStates
  import opened Ledger
  import opened Amounts

  type DueId = nat

  datatype Books = Books(dues: map<DueId, Due>, next: DueId)

  // ------------------------------------------------------------- transactions

  /** Opens a due for a request, found or not. */
  function OpenDue(b: Books, request: Option<RequestStatus>, amount: nat, currency: Currency): Result<Books, FinanceError> {
    if request.None? then Err(RequestNotFound)
    else if request.value == Draft then Err(RequestNotEligible)
    else Ok(Books(b.dues[b.next := Opened(amount, currency, MinorUnit(currency))], b.next + 1))
  }

  /** The same for an amount that comes as text. */
  function CreateDue(b: Books, request: Option<RequestStatus>, text: string, currency: Currency)
    : Result<Books, FinanceError>
  {
    match AmountToMinorUnits(text, currency)
    case Err(e) => Err(e)
    case Ok(amount) => OpenDue(b, request, amount, currency)
  }

  function ChangeDue(b: Books, id: DueId, expectedVersion: nat, kind: EntryKind): Result<Books, FinanceError>
    requires kind != DueCreated
  {
    if id !in b.dues then Err(DueNotFound)
    else
      match Change(b.dues[id], expectedVersion, kind)
      case Err(e) => Err(e)
      case Ok(d) => Ok(b.(dues := b.dues[id := d]))
  }

  datatype BookStep =
    | Creating(request: Option<RequestStatus>, text: string, currency: Currency)
    | Changing(id: DueId, expectedVersion: nat, kind: EntryKind)

  function NextBooks(b: Books, step: BookStep): Books {
    match step
    case Creating(request, text, currency) =>
      var r := CreateDue(b, request, text, currency);
      if r.Ok? then r.value else b
    case Changing(id, version, kind) =>
      if kind == DueCreated then b
      else
        var r := ChangeDue(b, id, version, kind);
        if r.Ok? then r.value else b
  }

  ghost predicate DueOk(d: Due) {
    Consistent(d) && 1 <= d.amount <= MaxMinor(d.currency) && d.minorUnit == MinorUnit(d.currency)
  }

  ghost predicate BooksOk(b: Books) {
    forall id :: id in b.dues ==> id < b.next && DueOk(b.dues[id])
  }

  lemma OpenKeepsBooks(b: Books, request: Option<RequestStatus>, amount: nat, currency: Currency)
    requires BooksOk(b) && 1 <= amount <= MaxMinor(currency)
    ensures OpenDue(b, request, amount, currency).Ok? ==> BooksOk(OpenDue(b, request, amount, currency).value)
  {
    OpenedIsConsistent(amount, currency, MinorUnit(currency));
  }

  lemma CreateKeepsBooks(b: Books, request: Option<RequestStatus>, text: string, currency: Currency)
    requires BooksOk(b)
    ensures CreateDue(b, request, text, currency).Ok? ==> BooksOk(CreateDue(b, request, text, currency).value)
  {
    var amount := AmountToMinorUnits(text, currency);
    if amount.Ok? { OpenKeepsBooks(b, request, amount.value, currency); }
  }

  lemma ChangeKeepsBooks(b: Books, id: DueId, version: nat, kind: EntryKind)
    requires BooksOk(b) && kind != DueCreated
    ensures ChangeDue(b, id, version, kind).Ok? ==> BooksOk(ChangeDue(b, id, version, kind).value)
  {
    if id in b.dues { ChangeKeepsLedger(b.dues[id], version, kind); }
  }

  lemma BooksStep(b: Books, step: BookStep)
    requires BooksOk(b)
    ensures BooksOk(NextBooks(b, step))
  {
    match step
    case Creating(request, text, currency) => CreateKeepsBooks(b, request, text, currency);
    case Changing(id, version, kind) => if kind != DueCreated { ChangeKeepsBooks(b, id, version, kind); }
  }

  // ------------------------------------------------------------------- totals

  function Contribution(d: Due, currency: Currency, statuses: set<DueStatus>): nat {
    if d.currency == currency && d.status in statuses then d.amount else 0
  }

  function At(dues: map<DueId, Due>, id: DueId, currency: Currency, statuses: set<DueStatus>): nat {
    if id in dues then Contribution(dues[id], currency, statuses) else 0
  }

  /** The amounts of the dues below `n` in one currency whose status is one of `statuses`. */
  function Total(dues: map<DueId, Due>, n: DueId, currency: Currency, statuses: set<DueStatus>): nat {
    if n == 0 then 0 else Total(dues, n - 1, currency, statuses) + At(dues, n - 1, currency, statuses)
  }

  function BooksTotal(b: Books, currency: Currency, statuses: set<DueStatus>): nat {
    Total(b.dues, b.next, currency, statuses)
  }

  const LIVE: set<DueStatus> := {Unpaid, Paid}

  lemma {:induction false} TotalAfterUpdate(dues: map<DueId, Due>, id: DueId, d: Due, n: DueId, currency: Currency,
                                            statuses: set<DueStatus>)
    ensures Total(dues[id := d], n, currency, statuses) ==
              Total(dues, n, currency, statuses)
              + if id < n then Contribution(d, currency, statuses) - At(dues, id, currency, statuses) else 0
    decreases n
  {
    if n > 0 { TotalAfterUpdate(dues, id, d, n - 1, currency, statuses); }
  }

  function Created(ledger: seq<Entry>): int {
    if ledger == [] then 0
    else
      Created(ledger[..|ledger| - 1]) +
      if ledger[|ledger| - 1].kind == DueCreated then ledger[|ledger| - 1].amount else 0
  }

  /** The net payments of one due's ledger, and what the ledger opened, if the due is in the currency. */
  function NetAt(dues: map<DueId, Due>, id: DueId, currency: Currency): int {
    if id in dues && dues[id].currency == currency then NetPayments(dues[id].ledger) else 0
  }

  function CreatedAt(dues: map<DueId, Due>, id: DueId, currency: Currency): int {
    if id in dues && dues[id].currency == currency then Created(dues[id].ledger) else 0
  }

  function NetTotal(dues: map<DueId, Due>, n: DueId, currency: Currency): int {
    if n == 0 then 0 else NetTotal(dues, n - 1, currency) + NetAt(dues, n - 1, currency)
  }

  function CreatedTotal(dues: map<DueId, Due>, n: DueId, currency: Currency): int {
    if n == 0 then 0 else CreatedTotal(dues, n - 1, currency) + CreatedAt(dues, n - 1, currency)
  }

  lemma {:induction false} LedgerCreatesItsAmount(ledger: seq<Entry>)
    requires Replay(ledger).Some?
    ensures Created(ledger) == Replay(ledger).value.amount
    decreases |ledger|
  {
    var n := |ledger| - 1;
    if n > 0 { LedgerCreatesItsAmount(ledger[..n]); } else { assert ledger[..n] == []; }
  }

  lemma DueAgreesWithLedger(dues: map<DueId, Due>, id: DueId, currency: Currency)
    requires id in dues ==> DueOk(dues[id])
    ensures At(dues, id, currency, {Paid}) == NetAt(dues, id, currency)
    ensures At(dues, id, currency, {Unpaid}) + At(dues, id, currency, {Paid}) + At(dues, id, currency, {Voided})
            == CreatedAt(dues, id, currency)
  {
    if id in dues {
      PaymentsSumToTheBalance(dues[id].ledger);
      LedgerCreatesItsAmount(dues[id].ledger);
    }
  }

  /** The report agrees with the ledgers: what is paid equals recorded minus reversed payments, and unpaid, paid and
      voided amounts together equal everything ever opened. */
  lemma {:induction false} ReportAgreesWithLedgers(dues: map<DueId, Due>, n: DueId, currency: Currency)
    requires forall id :: id in dues ==> DueOk(dues[id])
    ensures Total(dues, n, currency, {Paid}) == NetTotal(dues, n, currency)
    ensures Total(dues, n, currency, {Unpaid}) + Total(dues, n, currency, {Paid}) + Total(dues, n, currency, {Voided})
            == CreatedTotal(dues, n, currency)
    decreases n
  {
    if n > 0 {
      ReportAgreesWithLedgers(dues, n - 1, currency);
      DueAgreesWithLedger(dues, n - 1, currency);
    }
  }

  // ---------------------------------- operations made of several transactions

  /** One planned transaction of an operation that adjusts an original due. */
  datatype Planned = Open(amount: nat) | VoidOriginal | PayLast(amount: nat)

  /** An operation in progress. `total` and `version` are what it read of the original due; `done` transactions of its
      plan have committed, and it stopped early if one of them failed. `last` is the due it opened last. */
  datatype Operation = Operation(
    original: DueId, version: nat, total: nat, currency: Currency, plan: seq<Planned>,
    done: nat, failure: Option<FinanceError>, last: DueId)

  function SplitPlan(total: nat, paid: nat): seq<Planned>
    requires paid < total
  {
    [Open(total - paid), VoidOriginal, Open(paid), PayLast(paid)]
  }

  function ReplacePlan(amount: nat): seq<Planned> { [Open(amount), VoidOriginal] }

  /** An operation on the due just read, before its first transaction. */
  function Planning(id: DueId, d: Due, plan: seq<Planned>): Operation {
    Operation(id, d.version, d.amount, d.currency, plan, 0, None, 0)
  }

  /** The unlocked read and the checks before a split payment's first transaction. */
  function BeginSplit(b: Books, id: DueId, paidText: string): Result<Operation, FinanceError> {
    if id !in b.dues then Err(DueNotFound)
    else
      var d := b.dues[id];
      if d.status != Unpaid then Err(InvalidTransition)
      else
        match AmountToMinorUnits(paidText, d.currency)
        case Err(e) => Err(e)
        case Ok(paid) =>
          if paid >= d.amount then Err(InvalidAmount) else Ok(Planning(id, d, SplitPlan(d.amount, paid)))
  }

  /** The same for an amount replacement; the current amount again means nothing to do. */
  function BeginReplace(b: Books, id: DueId, newText: string): Result<Operation, FinanceError> {
    if id !in b.dues then Err(DueNotFound)
    else
      var d := b.dues[id];
      if d.status != Unpaid then Err(InvalidTransition)
      else
        match AmountToMinorUnits(newText, d.currency)
        case Err(e) => Err(e)
        case Ok(amount) =>
          Ok(Planning(id, d, if amount == d.amount then [] else ReplacePlan(amount)))
  }

  function OpenNext(b: Books, o: Operation, request: Option<RequestStatus>, amount: nat): (Books, Operation) {
    match OpenDue(b, request, amount, o.currency)
    case Err(e) => (b, o.(failure := Some(e)))
    case Ok(b') => (b', o.(done := o.done + 1, last := b.next))
  }

  /** A due is opened through its printed amount: `q` is the double quotient that is printed, and what the text parses
      to is opened. */
  function OpenPrinted(b: Books, o: Operation, request: Option<RequestStatus>, amount: nat, q: real): (Books, Operation) {
    if q < 0.0 || !RoundedQuotient(q, amount, MinorUnit(o.currency)) then (b, o)
    else
      match AmountToMinorUnits(ToFixed(q, MinorUnit(o.currency)), o.currency)
      case Err(e) => (b, o.(failure := Some(e)))
      case Ok(parsed) => OpenNext(b, o, request, parsed)
  }

  function ChangeNext(b: Books, o: Operation, id: DueId, version: nat, kind: EntryKind): (Books, Operation)
    requires kind != DueCreated
  {
    match ChangeDue(b, id, version, kind)
    case Err(e) => (b, o.(failure := Some(e)))
    case Ok(b') => (b', o.(done := o.done + 1))
  }

  /** The operation's next transaction. `request` is the request row that transaction sees. */
  function Advance(b: Books, o: Operation, request: Option<RequestStatus>, q: real): (Books, Operation) {
    if o.failure.Some? || o.done >= |o.plan| then (b, o)
    else
      match o.plan[o.done]
      case Open(amount) => OpenPrinted(b, o, request, amount, q)
      case VoidOriginal => ChangeNext(b, o, o.original, o.version, DueVoided)
      case PayLast(_) => ChangeNext(b, o, o.last, 1, PaymentRecorded)
  }

  ghost predicate Holds(b: Books, id: DueId, amount: nat, currency: Currency) {
    id in b.dues && b.dues[id].amount == amount && b.dues[id].currency == currency
  }

  ghost predicate PlanOk(plan: seq<Planned>, currency: Currency) {
    forall i :: 0 <= i < |plan| ==> PlannedOk(plan, i, currency)
  }

  /** Amounts are in range, and a payment is for the due opened just before it. */
  ghost predicate PlannedOk(plan: seq<Planned>, i: nat, currency: Currency)
    requires i < |plan|
  {
    && (plan[i].Open? ==> 1 <= plan[i].amount <= MaxMinor(currency))
    && (plan[i].PayLast? ==> i > 0 && plan[i - 1] == Open(plan[i].amount))
  }

  ghost predicate OperationOk(b: Books, o: Operation) {
    && PlanOk(o.plan, o.currency) && o.done <= |o.plan|
    && Holds(b, o.original, o.total, o.currency)
    && (o.done > 0 && o.plan[o.done - 1].Open? ==> Holds(b, o.last, o.plan[o.done - 1].amount, o.currency))
  }

  /** What one committed transaction of a plan adds to the total over `statuses`. */
  function Effect(p: Planned, total: nat, statuses: set<DueStatus>): int {
    match p
    case Open(amount) => if Unpaid in statuses then amount else 0
    case VoidOriginal => (if Voided in statuses then total else 0) - (if Unpaid in statuses then total else 0)
    case PayLast(amount) => (if Paid in statuses then amount else 0) - (if Unpaid in statuses then amount else 0)
  }

  /** The effect of the first `n` transactions of a plan. */
  function Offset(plan: seq<Planned>, total: nat, n: nat, statuses: set<DueStatus>): int
    requires n <= |plan|
  {
    if n == 0 then 0 else Offset(plan, total, n - 1, statuses) + Effect(plan[n - 1], total, statuses)
  }

  /** A new due adds its amount to the unpaid total of its currency and leaves every other due alone. */
  lemma CreateTotal(b: Books, request: Option<RequestStatus>, amount: nat, currency: Currency, c: Currency,
                    statuses: set<DueStatus>)
    requires BooksOk(b) && OpenDue(b, request, amount, currency).Ok?
    ensures var b' := OpenDue(b, request, amount, currency).value;
            && BooksTotal(b', c, statuses)
               == BooksTotal(b, c, statuses) + (if c == currency && Unpaid in statuses then amount else 0)
            && Holds(b', b.next, amount, currency)
            && (forall id :: id in b.dues ==> id in b'.dues && b'.dues[id] == b.dues[id])
  {
    TotalAfterUpdate(b.dues, b.next, Opened(amount, currency, MinorUnit(currency)), b.next, c, statuses);
  }

  /** What a change moves: the due's amount, from its old status to its new one. */
  function MovedAmount(d: Due, kind: EntryKind, c: Currency, statuses: set<DueStatus>): int {
    if d.currency != c then 0
    else (if StatusAfter(kind) in statuses then d.amount else 0) - (if d.status in statuses then d.amount else 0)
  }

  lemma ChangeTotal(b: Books, id: DueId, version: nat, kind: EntryKind, c: Currency, statuses: set<DueStatus>)
    requires BooksOk(b) && kind != DueCreated && ChangeDue(b, id, version, kind).Ok?
    ensures var b' := ChangeDue(b, id, version, kind).value;
            && BooksTotal(b', c, statuses) == BooksTotal(b, c, statuses) + MovedAmount(b.dues[id], kind, c, statuses)
            && (forall i, amount, currency :: Holds(b, i, amount, currency) ==> Holds(b', i, amount, currency))
  {
    TotalAfterUpdate(b.dues, id, Change(b.dues[id], version, kind).value, b.next, c, statuses);
  }

  /** What a transaction adds to a total, from its arguments and the due they name. */
  function Share(b: Books, step: BookStep, c: Currency, statuses: set<DueStatus>): int {
    match step
    case Creating(request, text, currency) =>
      if CreateDue(b, request, text, currency).Ok? && c == currency && Unpaid in statuses
      then AmountToMinorUnits(text, currency).value else 0
    case Changing(id, version, kind) =>
      if kind != DueCreated && ChangeDue(b, id, version, kind).Ok? then MovedAmount(b.dues[id], kind, c, statuses) else 0
  }

  /** Every transaction adds exactly its share to every total. */
  lemma StepTotal(b: Books, step: BookStep, c: Currency, statuses: set<DueStatus>)
    requires BooksOk(b)
    ensures BooksTotal(NextBooks(b, step), c, statuses) == BooksTotal(b, c, statuses) + Share(b, step, c, statuses)
  {
    match step
    case Creating(request, text, currency) =>
      var amount := AmountToMinorUnits(text, currency);
      if amount.Ok? && OpenDue(b, request, amount.value, currency).Ok? {
        CreateTotal(b, request, amount.value, currency, c, statuses);
      }
    case Changing(id, version, kind) =>
      if kind != DueCreated && ChangeDue(b, id, version, kind).Ok? { ChangeTotal(b, id, version, kind, c, statuses); }
  }

  lemma StepKeepsDues(b: Books, step: BookStep, id: DueId, amount: nat, currency: Currency)
    requires BooksOk(b) && Holds(b, id, amount, currency)
    ensures Holds(NextBooks(b, step), id, amount, currency)
  {
    match step
    case Creating(request, text, c) =>
      var parsed := AmountToMinorUnits(text, c);
      if parsed.Ok? && OpenDue(b, request, parsed.value, c).Ok? { CreateTotal(b, request, parsed.value, c, c, {}); }
    case Changing(i, version, kind) =>
      if kind != DueCreated && ChangeDue(b, i, version, kind).Ok? { ChangeTotal(b, i, version, kind, currency, {}); }
  }

  lemma OpeningLeaves(b: Books, request: Option<RequestStatus>, amount: nat, c: Currency, id: DueId)
    requires BooksOk(b) && id in b.dues && OpenDue(b, request, amount, c).Ok?
    ensures var b' := OpenDue(b, request, amount, c).value; id in b'.dues && b'.dues[id] == b.dues[id]
  {
  }

  lemma ChangingGrows(b: Books, i: DueId, version: nat, kind: EntryKind, id: DueId)
    requires id in b.dues && kind != DueCreated && ChangeDue(b, i, version, kind).Ok?
    ensures var b' := ChangeDue(b, i, version, kind).value; id in b'.dues && b'.dues[id].version >= b.dues[id].version
  {
  }

  lemma VersionsGrow(b: Books, step: BookStep, id: DueId)
    requires BooksOk(b) && id in b.dues
    ensures id in NextBooks(b, step).dues && NextBooks(b, step).dues[id].version >= b.dues[id].version
  {
    match step
    case Creating(request, text, c) =>
      var parsed := AmountToMinorUnits(text, c);
      if parsed.Ok? && OpenDue(b, request, parsed.value, c).Ok? { OpeningLeaves(b, request, parsed.value, c, id); }
    case Changing(i, version, kind) =>
      if kind != DueCreated && ChangeDue(b, i, version, kind).Ok? { ChangingGrows(b, i, version, kind, id); }
  }
}
