/** The two grouping loops of the finance service: balances per student and the invoice per currency. They lose nothing
    and duplicate nothing. */
module Grouping {
  import opened Wrappers
  import opened Ledger

  type StudentId = nat
  type Time = int

  /** What a report query sees of a due. */
  datatype DueFact = DueFact(student: StudentId, currency: Currency, status: DueStatus, amount: nat, updatedAt: Time)

  // --------------------------------------------------------- student balances

  /** One row of the aggregate query, grouped by student and currency over the dues that are not voided. */
  datatype BalanceRow = BalanceRow(
    student: StudentId, currency: Currency, unpaidCount: nat, unpaidAmount: nat, paidCount: nat, paidAmount: nat,
    lastActivity: Time)

  datatype StudentBalance = StudentBalance(lines: seq<BalanceRow>, totalUnpaidCount: nat, lastActivity: Time)

  function LinesOf(rows: seq<BalanceRow>, s: StudentId): seq<BalanceRow> {
    if rows == [] then []
    else
      var n := |rows| - 1;
      LinesOf(rows[..n], s) + if rows[n].student == s then [rows[n]] else []
  }

  function UnpaidCountOf(rows: seq<BalanceRow>, s: StudentId): nat {
    if rows == [] then 0
    else
      var n := |rows| - 1;
      UnpaidCountOf(rows[..n], s) + if rows[n].student == s then rows[n].unpaidCount else 0
  }

  ghost predicate IsLastActivity(rows: seq<BalanceRow>, s: StudentId, t: Time) {
    && (forall i :: 0 <= i < |rows| && rows[i].student == s ==> rows[i].lastActivity <= t)
    && (exists i :: 0 <= i < |rows| && rows[i].student == s && rows[i].lastActivity == t)
  }

  ghost predicate Mentions(rows: seq<BalanceRow>, s: StudentId) {
    exists i :: 0 <= i < |rows| && rows[i].student == s
  }

  ghost predicate Grouped(rows: seq<BalanceRow>, byStudent: map<StudentId, StudentBalance>) {
    && (forall s :: s in byStudent <==> Mentions(rows, s))
    && (forall s :: s in byStudent ==> RightBalance(rows, s, byStudent[s]))
  }

  /** All the student's rows in their order, the sum of their unpaid counts, and the newest of their activities. */
  ghost predicate RightBalance(rows: seq<BalanceRow>, s: StudentId, b: StudentBalance) {
    b.lines == LinesOf(rows, s) && b.totalUnpaidCount == UnpaidCountOf(rows, s) && IsLastActivity(rows, s, b.lastActivity)
  }

  lemma {:induction false} UnmentionedHasNothing(rows: seq<BalanceRow>, s: StudentId)
    requires !Mentions(rows, s)
    ensures LinesOf(rows, s) == [] && UnpaidCountOf(rows, s) == 0
    decreases |rows|
  {
    if rows != [] {
      var n := |rows| - 1;
      assert rows[n].student != s;
      assert forall i :: 0 <= i < n ==> rows[..n][i] == rows[i];
      UnmentionedHasNothing(rows[..n], s);
    }
  }

  function FirstRow(row: BalanceRow): StudentBalance { StudentBalance([row], row.unpaidCount, row.lastActivity) }

  function NextLine(b: StudentBalance, row: BalanceRow): StudentBalance {
    StudentBalance(b.lines + [row], b.totalUnpaidCount + row.unpaidCount,
                   if row.lastActivity > b.lastActivity then row.lastActivity else b.lastActivity)
  }

  /** The balance of a row's student after the row, present or not before. */
  function WithRow(byStudent: map<StudentId, StudentBalance>, row: BalanceRow): StudentBalance {
    if row.student !in byStudent then FirstRow(row) else NextLine(byStudent[row.student], row)
  }

  lemma MentionsOneMore(rows: seq<BalanceRow>, row: BalanceRow, s: StudentId)
    ensures Mentions(rows + [row], s) <==> Mentions(rows, s) || s == row.student
  {
    var more := rows + [row];
    assert more[|rows|] == row;
    if Mentions(rows, s) {
      var i :| 0 <= i < |rows| && rows[i].student == s;
      assert more[i].student == s;
    }
  }

  lemma SumsOneMore(rows: seq<BalanceRow>, row: BalanceRow, s: StudentId)
    ensures LinesOf(rows + [row], s) == LinesOf(rows, s) + if row.student == s then [row] else []
    ensures UnpaidCountOf(rows + [row], s) == UnpaidCountOf(rows, s) + if row.student == s then row.unpaidCount else 0
  {
    assert (rows + [row])[..|rows|] == rows;
  }

  lemma LastOneMore(rows: seq<BalanceRow>, row: BalanceRow, s: StudentId, t: Time)
    requires IsLastActivity(rows, s, t)
    ensures IsLastActivity(rows + [row], s, if row.student == s && row.lastActivity > t then row.lastActivity else t)
  {
    var more := rows + [row];
    var i :| 0 <= i < |rows| && rows[i].student == s && rows[i].lastActivity == t;
    assert more[i] == rows[i] && more[|rows|] == row;
  }

  lemma LastOfFirst(rows: seq<BalanceRow>, row: BalanceRow)
    requires !Mentions(rows, row.student)
    ensures IsLastActivity(rows + [row], row.student, row.lastActivity)
  {
    assert (rows + [row])[|rows|] == row;
  }

  lemma BalanceOneMore(rows: seq<BalanceRow>, row: BalanceRow, s: StudentId, b: StudentBalance)
    requires RightBalance(rows, s, b)
    ensures RightBalance(rows + [row], s, if row.student == s then NextLine(b, row) else b)
  {
    SumsOneMore(rows, row, s);
    LastOneMore(rows, row, s, b.lastActivity);
  }

  lemma BalanceOfFirst(rows: seq<BalanceRow>, row: BalanceRow)
    requires !Mentions(rows, row.student)
    ensures RightBalance(rows + [row], row.student, FirstRow(row))
  {
    SumsOneMore(rows, row, row.student);
    UnmentionedHasNothing(rows, row.student);
    LastOfFirst(rows, row);
  }

  lemma OneMoreRow(rows: seq<BalanceRow>, row: BalanceRow, byStudent: map<StudentId, StudentBalance>)
    requires Grouped(rows, byStudent)
    ensures Grouped(rows + [row], byStudent[row.student := WithRow(byStudent, row)])
  {
    var after := byStudent[row.student := WithRow(byStudent, row)];
    forall s ensures s in after <==> Mentions(rows + [row], s) {
      MentionsOneMore(rows, row, s);
    }
    forall s | s in after ensures RightBalance(rows + [row], s, after[s]) {
      if s in byStudent { BalanceOneMore(rows, row, s, byStudent[s]); } else { BalanceOfFirst(rows, row); }
    }
  }

  lemma NextRow(rows: seq<BalanceRow>, i: nat, byStudent: map<StudentId, StudentBalance>)
    requires i < |rows| && Grouped(rows[..i], byStudent)
    ensures Grouped(rows[..i + 1], byStudent[rows[i].student := WithRow(byStudent, rows[i])])
  {
    OneMoreRow(rows[..i], rows[i], byStudent);
    assert rows[..i + 1] == rows[..i] + [rows[i]];
  }

  lemma NoRows()
    ensures Grouped([], map[])
  {
  }

  /** The loop's body. */
  method AddRow(byStudent: map<StudentId, StudentBalance>, row: BalanceRow) returns (r: map<StudentId, StudentBalance>)
    ensures r == byStudent[row.student := WithRow(byStudent, row)]
  {
    if row.student !in byStudent {
      r := byStudent[row.student := StudentBalance([row], row.unpaidCount, row.lastActivity)];
    } else {
      var existing := byStudent[row.student];
      var last := existing.lastActivity;
      if row.lastActivity > last { last := row.lastActivity; }
      r := byStudent[row.student := StudentBalance(existing.lines + [row],
                                                   existing.totalUnpaidCount + row.unpaidCount, last)];
    }
  }

  /** The loop over the query's rows. */
  method GroupBalances(rows: seq<BalanceRow>) returns (byStudent: map<StudentId, StudentBalance>)
    ensures Grouped(rows, byStudent)
  {
    byStudent := map[];
    var i := 0;
    NoRows();
    assert rows[..0] == [];
    while i < |rows|
      invariant 0 <= i <= |rows|
      invariant Grouped(rows[..i], byStudent)
    {
      NextRow(rows, i, byStudent);
      byStudent := AddRow(byStudent, rows[i]);
      i := i + 1;
    }
    assert rows[..i] == rows;
  }

  // --------------------------------------------- from the query back to the dues

  predicate Selected(f: DueFact, s: StudentId, currencies: set<Currency>, status: DueStatus) {
    f.student == s && f.currency in currencies && f.status == status
  }

  function CountFacts(facts: seq<DueFact>, s: StudentId, currencies: set<Currency>, status: DueStatus): nat {
    if facts == [] then 0
    else
      var n := |facts| - 1;
      CountFacts(facts[..n], s, currencies, status) + if Selected(facts[n], s, currencies, status) then 1 else 0
  }

  function SumFacts(facts: seq<DueFact>, s: StudentId, currencies: set<Currency>, status: DueStatus): nat {
    if facts == [] then 0
    else
      var n := |facts| - 1;
      SumFacts(facts[..n], s, currencies, status) + if Selected(facts[n], s, currencies, status) then facts[n].amount else 0
  }

  /** The dues of a student in some currencies and of one status. */
  ghost function FactsOf(facts: seq<DueFact>, s: StudentId, currencies: set<Currency>, status: DueStatus): set<nat> {
    set k: nat | k < |facts| && facts[k].student == s && facts[k].currency in currencies && facts[k].status == status
  }

  lemma {:induction false} CountIsOfFacts(facts: seq<DueFact>, s: StudentId, currencies: set<Currency>, status: DueStatus)
    ensures CountFacts(facts, s, currencies, status) == |FactsOf(facts, s, currencies, status)|
    decreases |facts|
  {
    if facts != [] {
      var n := |facts| - 1;
      CountIsOfFacts(facts[..n], s, currencies, status);
      var before, all := FactsOf(facts[..n], s, currencies, status), FactsOf(facts, s, currencies, status);
      assert forall k: nat :: k < n ==> facts[..n][k] == facts[k];
      if n in all {
        assert all == before + {n};
      } else {
        assert all == before;
      }
    }
  }

  /** The amounts of the dues of two lists add up, and one due counts with its amount exactly when it is meant. */
  lemma {:induction false} AmountsAddUp(facts: seq<DueFact>, more: seq<DueFact>, f: DueFact, s: StudentId,
                                        currencies: set<Currency>, status: DueStatus)
    ensures SumFacts(facts + more, s, currencies, status)
            == SumFacts(facts, s, currencies, status) + SumFacts(more, s, currencies, status)
    ensures SumFacts([f], s, currencies, status)
            == if f.student == s && f.currency in currencies && f.status == status then f.amount else 0
    decreases |more|
  {
    if more == [] {
      assert facts + more == facts;
    } else {
      var n := |more| - 1;
      AmountsAddUp(facts, more[..n], f, s, currencies, status);
      assert (facts + more)[..|facts| + n] == facts + more[..n];
    }
    assert [f][..0] == [];
  }

  predicate LiveFor(f: DueFact, s: StudentId, currency: Currency) {
    f.student == s && f.currency == currency && f.status != Voided
  }

  /** The rows are the query's answer over `facts`, in some order: one right row for each student and currency with a
      live due. */
  ghost predicate Answers(rows: seq<BalanceRow>, facts: seq<DueFact>) {
    DistinctGroups(rows) && RightRows(rows, facts) && AllCovered(rows, facts)
  }

  ghost predicate DistinctGroups(rows: seq<BalanceRow>) {
    forall i, j :: 0 <= i < j < |rows| ==> rows[i].student != rows[j].student || rows[i].currency != rows[j].currency
  }

  ghost predicate RightRows(rows: seq<BalanceRow>, facts: seq<DueFact>) {
    forall i {:trigger AnswersFor(rows[i], facts)} :: 0 <= i < |rows| ==> AnswersFor(rows[i], facts)
  }

  ghost predicate AllCovered(rows: seq<BalanceRow>, facts: seq<DueFact>) {
    forall k {:trigger CoveredFact(rows, facts, k)} ::
      0 <= k < |facts| && facts[k].status != Voided ==> CoveredFact(rows, facts, k)
  }

  ghost predicate CoveredFact(rows: seq<BalanceRow>, facts: seq<DueFact>, k: nat)
    requires k < |facts|
  {
    exists i :: 0 <= i < |rows| && LiveFor(facts[k], rows[i].student, rows[i].currency)
  }

  ghost predicate AnswersFor(row: BalanceRow, facts: seq<DueFact>) {
    && row.unpaidCount == CountFacts(facts, row.student, {row.currency}, Unpaid)
    && row.unpaidAmount == SumFacts(facts, row.student, {row.currency}, Unpaid)
    && row.paidCount == CountFacts(facts, row.student, {row.currency}, Paid)
    && row.paidAmount == SumFacts(facts, row.student, {row.currency}, Paid)
    && (forall k :: 0 <= k < |facts| && LiveFor(facts[k], row.student, row.currency)
          ==> facts[k].updatedAt <= row.lastActivity)
    && (exists k :: 0 <= k < |facts| && LiveFor(facts[k], row.student, row.currency)
                    && facts[k].updatedAt == row.lastActivity)
  }

  function Currencies(rows: seq<BalanceRow>, s: StudentId): set<Currency> {
    if rows == [] then {}
    else
      var n := |rows| - 1;
      Currencies(rows[..n], s) + if rows[n].student == s then {rows[n].currency} else {}
  }

  lemma {:induction false} CurrenciesAreMentioned(rows: seq<BalanceRow>, s: StudentId, c: Currency)
    ensures c in Currencies(rows, s) <==> exists i :: 0 <= i < |rows| && rows[i].student == s && rows[i].currency == c
    decreases |rows|
  {
    if rows != [] {
      var n := |rows| - 1;
      CurrenciesAreMentioned(rows[..n], s, c);
      assert forall i :: 0 <= i < n ==> rows[..n][i] == rows[i];
    }
  }

  lemma {:induction false} CountOneMoreCurrency(facts: seq<DueFact>, s: StudentId, cs: set<Currency>, c: Currency)
    requires c !in cs
    ensures CountFacts(facts, s, cs + {c}, Unpaid) == CountFacts(facts, s, cs, Unpaid) + CountFacts(facts, s, {c}, Unpaid)
    decreases |facts|
  {
    if facts != [] { CountOneMoreCurrency(facts[..|facts| - 1], s, cs, c); }
  }

  lemma {:induction false} CountNoCurrency(facts: seq<DueFact>, s: StudentId)
    ensures CountFacts(facts, s, {}, Unpaid) == 0
    decreases |facts|
  {
    if facts != [] { CountNoCurrency(facts[..|facts| - 1], s); }
  }

  lemma {:induction false} RowsAddUp(rows: seq<BalanceRow>, facts: seq<DueFact>, s: StudentId)
    requires DistinctGroups(rows) && RightRows(rows, facts)
    ensures UnpaidCountOf(rows, s) == CountFacts(facts, s, Currencies(rows, s), Unpaid)
    decreases |rows|
  {
    if rows == [] {
      CountNoCurrency(facts, s);
    } else {
      var n := |rows| - 1;
      assert AnswersFor(rows[n], facts);
      forall i | 0 <= i < n ensures AnswersFor(rows[..n][i], facts) {
        assert AnswersFor(rows[i], facts);
      }
      RowsAddUp(rows[..n], facts, s);
      if rows[n].student == s {
        CurrenciesAreMentioned(rows[..n], s, rows[n].currency);
        CountOneMoreCurrency(facts, s, Currencies(rows[..n], s), rows[n].currency);
      } else {
        assert Currencies(rows, s) == Currencies(rows[..n], s);
      }
    }
  }

  lemma {:induction false} CountEveryCurrency(facts: seq<DueFact>, s: StudentId, cs: set<Currency>, all: set<Currency>)
    requires forall k :: 0 <= k < |facts| && facts[k].student == s && facts[k].status == Unpaid
               ==> facts[k].currency in cs && facts[k].currency in all
    ensures CountFacts(facts, s, cs, Unpaid) == CountFacts(facts, s, all, Unpaid)
    decreases |facts|
  {
    if facts != [] { CountEveryCurrency(facts[..|facts| - 1], s, cs, all); }
  }

  predicate LiveOf(f: DueFact, s: StudentId) { f.student == s && f.status != Voided }

  lemma LiveDueIsCovered(rows: seq<BalanceRow>, facts: seq<DueFact>, s: StudentId, k: nat, last: Time)
    requires Answers(rows, facts) && k < |facts| && LiveOf(facts[k], s)
    ensures Mentions(rows, s) && facts[k].currency in Currencies(rows, s)
    ensures IsLastActivity(rows, s, last) ==> facts[k].updatedAt <= last
  {
    assert CoveredFact(rows, facts, k);
    var i :| 0 <= i < |rows| && LiveFor(facts[k], rows[i].student, rows[i].currency);
    CurrenciesAreMentioned(rows, s, facts[k].currency);
    assert AnswersFor(rows[i], facts);
  }

  lemma NewestDueIsLive(rows: seq<BalanceRow>, facts: seq<DueFact>, s: StudentId, last: Time) returns (k: nat)
    requires Answers(rows, facts) && IsLastActivity(rows, s, last)
    ensures k < |facts| && LiveOf(facts[k], s) && facts[k].updatedAt == last
  {
    var i :| 0 <= i < |rows| && rows[i].student == s && rows[i].lastActivity == last;
    assert AnswersFor(rows[i], facts);
    k :| 0 <= k < |facts| && LiveFor(facts[k], s, rows[i].currency) && facts[k].updatedAt == last;
  }

  lemma CountsCoverEveryCurrency(rows: seq<BalanceRow>, facts: seq<DueFact>, s: StudentId)
    requires Answers(rows, facts)
    ensures CountFacts(facts, s, Currencies(rows, s), Unpaid) == CountFacts(facts, s, {SAR, AED, KWD}, Unpaid)
  {
    forall k | 0 <= k < |facts| && facts[k].student == s && facts[k].status == Unpaid
      ensures facts[k].currency in Currencies(rows, s) && facts[k].currency in {SAR, AED, KWD}
    {
      LiveDueIsCovered(rows, facts, s, k, 0);
      assert facts[k].currency.SAR? || facts[k].currency.AED? || facts[k].currency.KWD?;
    }
    CountEveryCurrency(facts, s, Currencies(rows, s), {SAR, AED, KWD});
  }

  lemma CountIsDirect(rows: seq<BalanceRow>, facts: seq<DueFact>, s: StudentId)
    requires Answers(rows, facts)
    ensures UnpaidCountOf(rows, s) == CountFacts(facts, s, {SAR, AED, KWD}, Unpaid)
  {
    RowsAddUp(rows, facts, s);
    CountsCoverEveryCurrency(rows, facts, s);
  }

  /** The balances the loop builds from the query's answer: a student's unpaid count is the number of their unpaid dues,
      whatever the currency, and their last activity is the newest change of any of their live dues. */
  lemma BalancesAreDirectSums(rows: seq<BalanceRow>, facts: seq<DueFact>, byStudent: map<StudentId, StudentBalance>,
                              s: StudentId)
    requires Answers(rows, facts) && Grouped(rows, byStudent)
    ensures s in byStudent <==> exists k :: 0 <= k < |facts| && LiveOf(facts[k], s)
    ensures s in byStudent ==>
              && byStudent[s].totalUnpaidCount == |FactsOf(facts, s, {SAR, AED, KWD}, Unpaid)|
              && (forall k :: 0 <= k < |facts| && LiveOf(facts[k], s) ==> facts[k].updatedAt <= byStudent[s].lastActivity)
              && (exists k :: 0 <= k < |facts| && LiveOf(facts[k], s) && facts[k].updatedAt == byStudent[s].lastActivity)
  {
    CountIsDirect(rows, facts, s);
    CountIsOfFacts(facts, s, {SAR, AED, KWD}, Unpaid);
    forall k | 0 <= k < |facts| && LiveOf(facts[k], s)
      ensures s in byStudent && facts[k].updatedAt <= byStudent[s].lastActivity
    {
      LiveDueIsCovered(rows, facts, s, k, 0);
      LiveDueIsCovered(rows, facts, s, k, byStudent[s].lastActivity);
    }
    if s in byStudent { var k := NewestDueIsLive(rows, facts, s, byStudent[s].lastActivity); }
  }

  // ------------------------------------------------------------------ invoices

  datatype Item = Item(amount: nat, currency: Currency, minorUnit: nat)

  datatype InvoiceLine = InvoiceLine(minorUnit: nat, total: nat)

  function SumItems(items: seq<Item>, c: Currency): nat {
    if items == [] then 0
    else SumItems(items[..|items| - 1], c) + if items[|items| - 1].currency == c then items[|items| - 1].amount else 0
  }

  function CountItems(items: seq<Item>, c: Currency): nat {
    if items == [] then 0
    else CountItems(items[..|items| - 1], c) + if items[|items| - 1].currency == c then 1 else 0
  }

  /** The minor unit of the first item in a currency. */
  function FirstUnit(items: seq<Item>, c: Currency): (r: Option<nat>)
    ensures r.None? <==> CountItems(items, c) == 0
  {
    if items == [] then None
    else
      var first := FirstUnit(items[..|items| - 1], c);
      if first.Some? then first
      else if items[|items| - 1].currency == c then Some(items[|items| - 1].minorUnit) else None
  }

  /** When every item has its currency's minor unit, so has the first of each currency. */
  lemma {:induction false} FirstUnitIsTheCurrencys(items: seq<Item>, c: Currency)
    requires forall i :: 0 <= i < |items| ==> items[i].minorUnit == MinorUnit(items[i].currency)
    ensures CountItems(items, c) > 0 ==> FirstUnit(items, c) == Some(MinorUnit(c))
    decreases |items|
  {
    if items != [] { FirstUnitIsTheCurrencys(items[..|items| - 1], c); }
  }

  /** The invoice's loop: one line per currency that occurs, holding that currency's total and the minor unit of its
      first item. */
  method GroupInvoice(items: seq<Item>) returns (byCurrency: map<Currency, InvoiceLine>)
    ensures forall c :: c in byCurrency <==> CountItems(items, c) > 0
    ensures forall c :: c in byCurrency ==>
              byCurrency[c].total == SumItems(items, c) && FirstUnit(items, c) == Some(byCurrency[c].minorUnit)
  {
    byCurrency := map[];
    var i := 0;
    while i < |items|
      invariant 0 <= i <= |items|
      invariant forall c :: c in byCurrency <==> CountItems(items[..i], c) > 0
      invariant forall c :: if c in byCurrency then byCurrency[c].total == SumItems(items[..i], c)
                            else SumItems(items[..i], c) == 0
      invariant forall c :: c in byCurrency ==> FirstUnit(items[..i], c) == Some(byCurrency[c].minorUnit)
    {
      var item := items[i];
      assert items[..i + 1][..i] == items[..i];
      var entry := if item.currency in byCurrency then byCurrency[item.currency] else InvoiceLine(item.minorUnit, 0);
      byCurrency := byCurrency[item.currency := entry.(total := entry.total + item.amount)];
      i := i + 1;
    }
    assert items[..i] == items;
  }

  /** No due is lost or counted twice: the counts of the lines add up to the number of dues. */
  lemma {:induction false} InvoiceCountsEveryDue(items: seq<Item>)
    ensures CountItems(items, SAR) + CountItems(items, AED) + CountItems(items, KWD) == |items|
    decreases |items|
  {
    if items != [] { InvoiceCountsEveryDue(items[..|items| - 1]); }
  }
}
