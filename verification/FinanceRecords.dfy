/** The finance service over mutable tables. */
module FinanceRecords {
  import opened Wrappers
  import opened RequestStates
  import opened Ledger
  import opened Amounts
  import M = Bookkeeping
  import opened Bookkeeping

  /** A due read by a query, as the invoice settlement uses it. */
  datatype DueRef = DueRef(id: DueId, version: nat)

  /** Recording a payment on each due in turn; the first failure stops it and keeps what is committed. */
  function SettleAll(b: Books, refs: seq<DueRef>): (Books, Result<nat, FinanceError>)
    decreases |refs|
  {
    if refs == [] then (b, Ok(0))
    else
      match ChangeDue(b, refs[0].id, refs[0].version, PaymentRecorded)
      case Err(e) => (b, Err(e))
      case Ok(b') =>
        var (b'', r) := SettleAll(b', refs[1..]);
        (b'', if r.Ok? then Ok(r.value + 1) else r)
  }

  /** The books after a due was reissued for `amount` and the original voided. */
  function Reissued(b: Books, id: DueId, amount: nat): Books
    requires id in b.dues
  {
    var d := b.dues[id];
    Books(b.dues[b.next := Opened(amount, d.currency, MinorUnit(d.currency))]
                [id := d.(status := Voided, version := d.version + 1,
                          ledger := d.ledger + [Entry(d.version + 1, DueVoided, 0, None)])],
          b.next + 1)
  }

  /** The books after a completed split: the remainder reissued, the paid part opened and paid. */
  function SplitUp(b: Books, id: DueId, paid: nat): Books
    requires id in b.dues && paid <= b.dues[id].amount
  {
    var half, d := Reissued(b, id, b.dues[id].amount - paid), b.dues[id];
    Books(half.dues[half.next := Due(Paid, 2, paid, d.currency, MinorUnit(d.currency),
                                     [Entry(1, DueCreated, paid, None)] + [Entry(2, PaymentRecorded, paid, None)])],
          half.next + 1)
  }

  /** `r` and `p` are the double quotients that are printed for the remainder and for the paid part. */
  ghost predicate SplitQuotients(d: Due, paid: Result<nat, FinanceError>, r: real, p: real) {
    paid.Ok? && paid.value < d.amount ==>
      RoundedQuotient(r, d.amount - paid.value, MinorUnit(d.currency))
      && RoundedQuotient(p, paid.value, MinorUnit(d.currency))
  }

  /** The answer to a request that does not let a due be opened. */
  predicate TurnsAway(request: Option<RequestStatus>, e: FinanceError) {
    if request.None? then e == RequestNotFound else request.value == Draft && e == RequestNotEligible
  }

  class FinanceDesk {
    var dues: map<DueId, Due>
    var next: DueId

    function View(): Books
      reads this
    {
      Books(dues, next)
    }

    constructor ()
      ensures View() == Books(map[], 0)
    {
      dues, next := map[], 0;
    }

    method OpenDue(request: Option<RequestStatus>, amount: nat, currency: Currency) returns (r: Result<DueId, FinanceError>)
      modifies this
      ensures match M.OpenDue(old(View()), request, amount, currency)
              case Err(e) => r == Err(e) && View() == old(View())
              case Ok(b) => r == Ok(old(next)) && View() == b
    {
      if request.None? { return Err(RequestNotFound); }
      if request.value == Draft { return Err(RequestNotEligible); }
      var id := next;
      next := next + 1;
      var unit := MinorUnit(currency);
      dues := dues[id := Due(Unpaid, 1, amount, currency, unit, [Entry(1, DueCreated, amount, None)])];
      return Ok(id);
    }

    method CreateDue(request: Option<RequestStatus>, text: string, currency: Currency)
      returns (r: Result<DueId, FinanceError>)
      modifies this
      ensures match M.CreateDue(old(View()), request, text, currency)
              case Err(e) => r == Err(e) && View() == old(View())
              case Ok(b) => r == Ok(old(next)) && View() == b
    {
      var amount := AmountToMinorUnits(text, currency);
      if amount.Err? { return Err(amount.error); }
      r := OpenDue(request, amount.value, currency);
    }

    method ChangeDue(id: DueId, expectedVersion: nat, kind: EntryKind) returns (r: Result<nat, FinanceError>)
      requires kind != DueCreated
      modifies this`dues
      ensures match M.ChangeDue(old(View()), id, expectedVersion, kind)
              case Err(e) => r == Err(e) && View() == old(View())
              case Ok(b) => View() == b && r == Ok(dues[id].version)
    {
      if id !in dues { return Err(DueNotFound); }
      var current := dues[id];
      if current.version != expectedVersion { return Err(VersionConflict); }
      var expectedStatus := if kind == PaymentReversed then Paid else Unpaid;
      if current.status != expectedStatus { return Err(InvalidTransition); }
      var nextVersion := current.version + 1;
      var related: Option<nat> := None;
      if kind == PaymentReversed {
        related := LatestUnreversed(current.ledger, |current.ledger|);
        if related.None? { return Err(InvalidTransition); }
      }
      var amount: int := current.amount;
      if kind == PaymentReversed { amount := 0 - amount; } else if kind == DueVoided { amount := 0; }
      var ledger := current.ledger + [Entry(nextVersion, kind, amount, related)];
      var nextStatus := if kind == PaymentRecorded then Paid else if kind == DueVoided then Voided else Unpaid;
      dues := dues[id := current.(status := nextStatus, version := nextVersion, ledger := ledger)];
      return Ok(nextVersion);
    }

    /** Any single call is a step of the books, and so keeps every due well-formed and the fold of its ledger. */
    method Perform(step: BookStep)
      modifies this
      ensures View() == NextBooks(old(View()), step)
      ensures BooksOk(old(View())) ==> BooksOk(View())
    {
      ghost var was := View();
      if BooksOk(was) { BooksStep(was, step); }
      match step {
        case Creating(request, text, currency) => var _ := CreateDue(request, text, currency);
        case Changing(id, version, kind) => if kind != DueCreated { var _ := ChangeDue(id, version, kind); }
      }
    }

    /** Opens a due for an amount by printing it and creating the due from the text. `q` is the double quotient. */
    method OpenPrinted(request: Option<RequestStatus>, amount: nat, currency: Currency, q: real)
      returns (r: Result<DueId, FinanceError>)
      requires 1 <= amount <= MaxMinor(currency) && RoundedQuotient(q, amount, MinorUnit(currency))
      modifies this
      ensures r.Ok? <==> request.Some? && request.value != Draft
      ensures r.Err? ==> View() == old(View()) && TurnsAway(request, r.error)
      ensures r.Ok? ==> r.value == old(next) && next == old(next) + 1
                        && dues == old(dues)[old(next) := Opened(amount, currency, MinorUnit(currency))]
    {
      PrintedAmountParsesBack(amount, currency, q);
      r := CreateDue(request, ToFixed(q, MinorUnit(currency)), currency);
    }

    /** The transactions of an amount replacement nobody disturbs: reissue, then void. */
    method Reissue(id: DueId, amount: nat, request: Option<RequestStatus>, q: real)
      returns (r: Result<DueId, FinanceError>)
      requires id in dues && id < next && dues[id].status == Unpaid && 1 <= amount <= MaxMinor(dues[id].currency)
      requires RoundedQuotient(q, amount, MinorUnit(dues[id].currency))
      modifies this
      ensures r.Ok? <==> request.Some? && request.value != Draft
      ensures if r.Ok? then r.value == old(next) && View() == Reissued(old(View()), id, amount)
              else View() == old(View()) && TurnsAway(request, r.error)
    {
      var d := dues[id];
      r := OpenPrinted(request, amount, d.currency, q);
      if r.Ok? { var voided := ChangeDue(id, d.version, DueVoided); }
    }

    /** The four transactions of a split payment nobody disturbs; `r` and `p` are the double quotients it prints. */
    method SplitUnpaid(id: DueId, paid: nat, request: Option<RequestStatus>, r: real, p: real)
      returns (result: Result<(DueId, DueId), FinanceError>)
      requires id in dues && id < next && dues[id].status == Unpaid
      requires 1 <= paid < dues[id].amount <= MaxMinor(dues[id].currency)
      requires RoundedQuotient(r, dues[id].amount - paid, MinorUnit(dues[id].currency))
      requires RoundedQuotient(p, paid, MinorUnit(dues[id].currency))
      modifies this
      ensures result.Ok? <==> request.Some? && request.value != Draft
      ensures if result.Ok? then result.value == (old(next), old(next) + 1) && View() == SplitUp(old(View()), id, paid)
              else View() == old(View()) && TurnsAway(request, result.error)
    {
      var d := dues[id];
      var remaining := Reissue(id, d.amount - paid, request, r);
      if remaining.Err? { return Err(remaining.error); }
      var portion := OpenPrinted(request, paid, d.currency, p);
      var recorded := ChangeDue(portion.value, 1, PaymentRecorded);
      ghost var half := old(Reissued(View(), id, d.amount - paid));
      assert dues == half.dues[half.next := dues[half.next]];
      return Ok((remaining.value, portion.value));
    }

    /** The whole split payment: its checks, then four transactions nobody disturbs. It fails before its first commit
        and changes nothing, or leaves exactly the remainder outstanding, the original voided and the paid part paid. */
    method RecordSplitPayment(id: DueId, paidText: string, request: Option<RequestStatus>, r: real, p: real)
      returns (result: Result<(DueId, DueId), FinanceError>)
      requires BooksOk(View())
      requires id in dues ==> SplitQuotients(dues[id], AmountToMinorUnits(paidText, dues[id].currency), r, p)
      modifies this
      ensures result.Err? ==> View() == old(View())
      ensures id !in old(dues) ==> result == Err(DueNotFound)
      ensures id in old(dues) && old(dues)[id].status != Unpaid ==> result == Err(InvalidTransition)
      ensures id in old(dues) && old(dues)[id].status == Unpaid ==>
                var amount := AmountToMinorUnits(paidText, old(dues)[id].currency);
                if amount.Err? || amount.value >= old(dues)[id].amount then result == Err(InvalidAmount)
                else if request.None? || request.value == Draft then result.Err? && TurnsAway(request, result.error)
                else result.Ok?
      ensures result.Ok? ==> BeginSplit(old(View()), id, paidText).Ok?
      ensures result.Ok? ==>
                && result.value == (old(next), old(next) + 1)
                && View() == SplitUp(old(View()), id, AmountToMinorUnits(paidText, old(dues[id]).currency).value)
    {
      if id !in dues { return Err(DueNotFound); }
      var d := dues[id];
      if d.status != Unpaid { return Err(InvalidTransition); }
      var paid := AmountToMinorUnits(paidText, d.currency);
      if paid.Err? { return Err(paid.error); }
      if paid.value >= d.amount { return Err(InvalidAmount); }
      assert id < next && DueOk(d);
      result := SplitUnpaid(id, paid.value, request, r, p);
    }

    /** The whole amount replacement; the current amount again succeeds and changes nothing. */
    method ReplaceDueAmount(id: DueId, newText: string, request: Option<RequestStatus>, q: real)
      returns (result: Result<DueId, FinanceError>)
      requires BooksOk(View())
      requires id in dues && AmountToMinorUnits(newText, dues[id].currency).Ok? ==>
                 RoundedQuotient(q, AmountToMinorUnits(newText, dues[id].currency).value, MinorUnit(dues[id].currency))
      modifies this
      ensures result.Err? ==> View() == old(View())
      ensures id !in old(dues) ==> result == Err(DueNotFound)
      ensures id in old(dues) && old(dues)[id].status != Unpaid ==> result == Err(InvalidTransition)
      ensures id in old(dues) && old(dues)[id].status == Unpaid ==>
                var d := old(dues)[id];
                var amount := AmountToMinorUnits(newText, d.currency);
                if amount.Err? then result == Err(InvalidAmount)
                else if amount.value == d.amount then result == Ok(id) && View() == old(View())
                else if request.None? || request.value == Draft then result.Err? && TurnsAway(request, result.error)
                else result == Ok(old(next)) && View() == Reissued(old(View()), id, amount.value)
      ensures result.Ok? ==> BeginReplace(old(View()), id, newText).Ok?
    {
      if id !in dues { return Err(DueNotFound); }
      var d := dues[id];
      if d.status != Unpaid { return Err(InvalidTransition); }
      var amount := AmountToMinorUnits(newText, d.currency);
      if amount.Err? { return Err(amount.error); }
      if amount.value == d.amount { return Ok(id); }
      result := Reissue(id, amount.value, request, q);
    }

    /** The consolidated settlement: one payment per due, until one fails. */
    method SettleInvoice(refs: seq<DueRef>) returns (r: Result<nat, FinanceError>)
      modifies this`dues
      ensures (View(), r) == SettleAll(old(View()), refs)
    {
      var i, count := 0, 0;
      while i < |refs|
        invariant 0 <= i == count <= |refs|
        invariant next == old(next)
        invariant SettleAll(old(View()), refs)
                  == var (b, rest) := SettleAll(View(), refs[i..]);
                     (b, if rest.Ok? then Ok(rest.value + i) else rest)
      {
        assert refs[i..][1..] == refs[i + 1..];
        var changed := ChangeDue(refs[i].id, refs[i].version, PaymentRecorded);
        if changed.Err? { return Err(changed.error); }
        count := count + 1;
        i := i + 1;
      }
      return Ok(count);
    }
  }

  ghost predicate ReadsUnpaid(b: Books, refs: seq<DueRef>) {
    && (forall i :: 0 <= i < |refs| ==> refs[i].id in b.dues && b.dues[refs[i].id].status == Unpaid
                                         && b.dues[refs[i].id].version == refs[i].version)
    && (forall i, j :: 0 <= i < j < |refs| ==> refs[i].id != refs[j].id)
  }

  predicate Names(refs: seq<DueRef>, id: DueId) { exists i :: 0 <= i < |refs| && refs[i].id == id }

  lemma PayingTheFirst(b: Books, refs: seq<DueRef>)
    requires ReadsUnpaid(b, refs) && refs != []
    ensures var r := ChangeDue(b, refs[0].id, refs[0].version, PaymentRecorded);
            && r.Ok? && ReadsUnpaid(r.value, refs[1..]) && r.value.dues[refs[0].id].status == Paid
            && (forall id :: id in b.dues && id != refs[0].id ==> id in r.value.dues && r.value.dues[id] == b.dues[id])
            && !Names(refs[1..], refs[0].id)
  {
  }

  /** When nothing changed since the dues were read, the settlement pays every one of them and nothing else. */
  lemma {:induction false} UndisturbedSettlementPaysAll(b: Books, refs: seq<DueRef>, id: DueId)
    requires ReadsUnpaid(b, refs) && id in b.dues
    ensures var (b', r) := SettleAll(b, refs);
            && r == Ok(|refs|) && id in b'.dues
            && (if Names(refs, id) then b'.dues[id].status == Paid else b'.dues[id] == b.dues[id])
    decreases |refs|
  {
    if refs != [] {
      PayingTheFirst(b, refs);
      UndisturbedSettlementPaysAll(ChangeDue(b, refs[0].id, refs[0].version, PaymentRecorded).value, refs[1..], id);
      assert Names(refs, id) <==> refs[0].id == id || Names(refs[1..], id) by {
        assert forall i :: 1 <= i < |refs| ==> refs[i] == refs[1..][i - 1];
        assert forall i :: 0 <= i < |refs| - 1 ==> refs[1..][i] == refs[i + 1];
      }
    }
  }
}
