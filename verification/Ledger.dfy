/** Dues and their append-only ledgers. A due row is one record with the ledger entries that name it; the identifier of
    an entry is its position. `Change` is the one transaction behind recording a payment, reversing one and voiding. */
module Ledger {
  import opened Wrappers

  datatype Currency = SAR | AED | KWD

  function MinorUnit(currency: Currency): nat { if currency == KWD then 3 else 2 }

  datatype DueStatus = Unpaid | Paid | Voided

  datatype EntryKind = DueCreated | PaymentRecorded | PaymentReversed | DueVoided

  /** `related` is the payment that a reversal takes back. */
  datatype Entry = Entry(version: nat, kind: EntryKind, amount: int, related: Option<nat>)

  datatype Due = Due(status: DueStatus, version: nat, amount: nat, currency: Currency, minorUnit: nat, ledger: seq<Entry>)

  datatype FinanceError =
    RequestNotFound | RequestNotEligible | DueNotFound | VersionConflict | InvalidTransition | InvalidAmount

  function Opened(amount: nat, currency: Currency, minorUnit: nat): Due {
    Due(Unpaid, 1, amount, currency, minorUnit, [Entry(1, DueCreated, amount, None)])
  }

  predicate Unreversed(ledger: seq<Entry>, i: nat) {
    i < |ledger| && ledger[i].kind == PaymentRecorded
    && forall j :: 0 <= j < |ledger| && ledger[j].kind == PaymentReversed ==> ledger[j].related != Some(i)
  }

  /** The newest payment below `n` that no reversal takes back. */
  function LatestUnreversed(ledger: seq<Entry>, n: nat): (r: Option<nat>)
    requires n <= |ledger|
    ensures r.Some? ==> r.value < n && Unreversed(ledger, r.value)
    ensures r.None? ==> forall i: nat :: i < n ==> !Unreversed(ledger, i)
  {
    if n == 0 then None
    else if Unreversed(ledger, n - 1) then Some(n - 1)
    else LatestUnreversed(ledger, n - 1)
  }

  function StatusAfter(kind: EntryKind): DueStatus {
    match kind
    case PaymentRecorded => Paid
    case DueVoided => Voided
    case _ => Unpaid
  }

  function Change(d: Due, expectedVersion: nat, kind: EntryKind): Result<Due, FinanceError>
    requires kind != DueCreated
  {
    if d.version != expectedVersion then Err(VersionConflict)
    else if d.status != (if kind == PaymentReversed then Paid else Unpaid) then Err(InvalidTransition)
    else
      var related := if kind == PaymentReversed then LatestUnreversed(d.ledger, |d.ledger|) else None;
      if kind == PaymentReversed && related.None? then Err(InvalidTransition)
      else
        var amount: int := match kind
          case PaymentReversed => 0 - d.amount
          case DueVoided => 0
          case _ => d.amount;
        Ok(d.(status := StatusAfter(kind), version := d.version + 1,
              ledger := d.ledger + [Entry(d.version + 1, kind, amount, related)]))
  }

  // -------------------------------------------------- the row folds its ledger

  /** What a ledger says about its due; `payment` is the entry of the payment that is not taken back. */
  datatype Balance = Balance(status: DueStatus, amount: nat, payment: Option<nat>)

  /** One entry on top of a balance, or None when no due can carry it there. */
  function Posted(b: Balance, e: Entry, position: nat): Option<Balance> {
    match e.kind
    case DueCreated => None
    case PaymentRecorded =>
      if b.status == Unpaid && e.amount == b.amount && e.related.None?
      then Some(Balance(Paid, b.amount, Some(position))) else None
    case PaymentReversed =>
      if b.status == Paid && e.amount == 0 - b.amount && e.related == b.payment
      then Some(Balance(Unpaid, b.amount, None)) else None
    case DueVoided =>
      if b.status == Unpaid && e.amount == 0 && e.related.None? then Some(Balance(Voided, b.amount, None)) else None
  }

  /** The ledger read from its first entry to its last. */
  function Replay(ledger: seq<Entry>): Option<Balance> {
    if ledger == [] then None
    else
      var n := |ledger| - 1;
      var e := ledger[n];
      if e.version != n + 1 then None
      else if n == 0 then
        if e.kind == DueCreated && e.amount >= 0 && e.related.None? then Some(Balance(Unpaid, e.amount, None)) else None
      else
        match Replay(ledger[..n])
        case None => None
        case Some(b) => Posted(b, e, n)
  }

  /** The row is the fold of its ledger; a PAID due's one open payment is its last entry. */
  ghost predicate Consistent(d: Due) {
    && |d.ledger| == d.version && d.version >= 1
    && var last: nat := d.version - 1;
       Replay(d.ledger) == Some(Balance(d.status, d.amount, if d.status == Paid then Some(last) else None))
  }

  lemma ReplayAppended(ledger: seq<Entry>, e: Entry)
    requires Replay(ledger).Some? && e.version == |ledger| + 1
    ensures Replay(ledger + [e]) == Posted(Replay(ledger).value, e, |ledger|)
  {
    assert (ledger + [e])[..|ledger|] == ledger;
  }

  /** The open payment of a ledger that replays is its only unreversed payment, and every reversal takes back an
      earlier payment. */
  lemma {:induction false} OpenPaymentIsUnique(ledger: seq<Entry>, i: nat)
    requires Replay(ledger).Some?
    ensures Unreversed(ledger, i) <==> Replay(ledger).value.payment == Some(i)
    ensures i < |ledger| && ledger[i].kind == PaymentReversed ==> ledger[i].related.Some? && ledger[i].related.value < i
    ensures Replay(ledger).value.payment.Some? ==> Replay(ledger).value.payment.value < |ledger|
    decreases |ledger|
  {
    var n := |ledger| - 1;
    var shorter := ledger[..n];
    if n > 0 {
      OpenPaymentIsUnique(shorter, i);
      assert forall j :: 0 <= j < n ==> ledger[j] == shorter[j];
      if i < n {
        assert Unreversed(ledger, i) <==>
          Unreversed(shorter, i) && (ledger[n].kind == PaymentReversed ==> ledger[n].related != Some(i));
      } else if i == n && ledger[n].kind == PaymentRecorded {
        forall j | 0 <= j < |ledger| && ledger[j].kind == PaymentReversed ensures ledger[j].related != Some(n) {
          OpenPaymentIsUnique(shorter, j);
        }
      }
    }
  }

  /** In a ledger that replays no two reversals take back the same payment, and a reversal takes back the full amount
      of the payment it names. */
  lemma {:induction false} EachPaymentIsReversedOnce(ledger: seq<Entry>, i: nat, j: nat)
    requires Replay(ledger).Some? && i < j < |ledger|
    requires ledger[i].kind == PaymentReversed && ledger[j].kind == PaymentReversed
    ensures ledger[i].related.Some? && ledger[i].related != ledger[j].related
    decreases |ledger|
  {
    var n := |ledger| - 1;
    var shorter := ledger[..n];
    OpenPaymentIsUnique(ledger, i);
    if j < n {
      EachPaymentIsReversedOnce(shorter, i, j);
    } else {
      OpenPaymentIsUnique(shorter, ledger[j].related.value);
      assert shorter[i] == ledger[i];
    }
  }

  function Moved(e: Entry): int {
    if e.kind == PaymentRecorded || e.kind == PaymentReversed then e.amount else 0
  }

  /** Recorded plus reversed payments. */
  function NetPayments(ledger: seq<Entry>): int {
    if ledger == [] then 0 else NetPayments(ledger[..|ledger| - 1]) + Moved(ledger[|ledger| - 1])
  }

  /** Payments sum to the amount when the due is PAID and to 0 otherwise. */
  lemma {:induction false} PaymentsSumToTheBalance(ledger: seq<Entry>)
    requires Replay(ledger).Some?
    ensures NetPayments(ledger) == if Replay(ledger).value.status == Paid then Replay(ledger).value.amount else 0
    decreases |ledger|
  {
    var n := |ledger| - 1;
    if n > 0 {
      PaymentsSumToTheBalance(ledger[..n]);
    } else {
      assert ledger[..n] == [];
    }
  }

  lemma OpenedIsConsistent(amount: nat, currency: Currency, minorUnit: nat)
    ensures Consistent(Opened(amount, currency, minorUnit))
  {
  }

  /** The failure on a missing payment cannot happen: a PAID due has exactly one payment to reverse, its last entry. */
  lemma PaidDueHasItsPayment(d: Due)
    requires Consistent(d) && d.status == Paid
    ensures LatestUnreversed(d.ledger, |d.ledger|) == Some(d.version - 1)
    ensures Change(d, d.version, PaymentReversed).Ok?
  {
    OpenPaymentIsUnique(d.ledger, d.version - 1);
    var latest := LatestUnreversed(d.ledger, |d.ledger|);
    if latest.Some? { OpenPaymentIsUnique(d.ledger, latest.value); }
  }

  /** Every successful change keeps the due the fold of its ledger. */
  lemma ChangeKeepsLedger(d: Due, expectedVersion: nat, kind: EntryKind)
    requires Consistent(d) && kind != DueCreated
    ensures Change(d, expectedVersion, kind).Ok? ==> Consistent(Change(d, expectedVersion, kind).value)
  {
    if Change(d, expectedVersion, kind).Ok? {
      var d' := Change(d, expectedVersion, kind).value;
      if kind == PaymentReversed { PaidDueHasItsPayment(d); }
      ReplayAppended(d.ledger, d'.ledger[|d.ledger|]);
      assert d'.ledger == d.ledger + [d'.ledger[|d.ledger|]];
    }
  }

  // --------------------------------------------------------------- whole runs

  datatype Attempt = Attempt(expectedVersion: nat, kind: EntryKind)

  function Try(d: Due, a: Attempt): Due {
    if a.kind == DueCreated then d
    else
      var r := Change(d, a.expectedVersion, a.kind);
      if r.Ok? then r.value else d
  }

  function RunDue(d: Due, attempts: seq<Attempt>): Due
    decreases |attempts|
  {
    if attempts == [] then d else RunDue(Try(d, attempts[0]), attempts[1..])
  }

  /** In every run the row is the fold of its ledger, the ledger only grows, and a voided due never changes again. */
  lemma {:induction false} DueIsTheFoldOfItsLedger(d: Due, attempts: seq<Attempt>)
    requires Consistent(d)
    ensures var e := RunDue(d, attempts);
            && Consistent(e) && d.ledger <= e.ledger && d.version <= e.version
            && e.amount == d.amount && e.currency == d.currency
            && (d.status == Voided ==> e == d)
    decreases |attempts|
  {
    if attempts != [] {
      var a := attempts[0];
      if a.kind != DueCreated { ChangeKeepsLedger(d, a.expectedVersion, a.kind); }
      DueIsTheFoldOfItsLedger(Try(d, a), attempts[1..]);
    }
  }

  /** Of two changes that hold the same expected version, at most one commits, whatever happens in between. */
  lemma OneChangePerVersion(d: Due, a: Attempt, between: seq<Attempt>, kind: EntryKind)
    requires Consistent(d) && a.kind != DueCreated && kind != DueCreated
    requires Change(d, a.expectedVersion, a.kind).Ok?
    ensures Change(RunDue(Try(d, a), between), a.expectedVersion, kind) == Err(VersionConflict)
  {
    ChangeKeepsLedger(d, a.expectedVersion, a.kind);
    DueIsTheFoldOfItsLedger(Try(d, a), between);
  }
}
