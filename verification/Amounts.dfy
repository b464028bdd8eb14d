/** Money as text: the decimal parser of the finance service and the fixed-point printer it feeds back into it through
    a floating-point division. Minor units are integers, a double is the real number it denotes. */
module Amounts {
  import opened Wrappers
  import opened Ledger

  /** n times 10^k. */
  function Shift(n: nat, k: nat): (r: nat)
    ensures r >= n && (n == 0 ==> r == 0)
  {
    if k == 0 then n else 10 * Shift(n, k - 1)
  }

  const MAX_WHOLE: nat := 1_000_000

  function MaxMinor(currency: Currency): nat { Shift(MAX_WHOLE, MinorUnit(currency)) }

  lemma MaxMinorInDigits(currency: Currency)
    ensures MaxMinor(currency) == if currency == KWD then 1_000_000_000 else 100_000_000
  {
    assert Shift(MAX_WHOLE, 1) == 10_000_000;
    assert Shift(MAX_WHOLE, 2) == 100_000_000;
    assert Shift(MAX_WHOLE, 3) == 1_000_000_000;
  }

  lemma {:induction false} ShiftTwice(n: nat, j: nat, k: nat)
    ensures Shift(Shift(n, j), k) == Shift(n, j + k)
    decreases k
  {
    if k > 0 { ShiftTwice(n, j, k - 1); }
  }

  lemma {:induction false} ShiftKeepsOrder(m: nat, n: nat, k: nat)
    ensures m < n <==> Shift(m, k) < Shift(n, k)
    decreases k
  {
    if k > 0 { ShiftKeepsOrder(m, n, k - 1); }
  }

  // ------------------------------------------------------------------ digits

  predicate IsDigit(c: char) { '0' <= c <= '9' }

  predicate AllDigits(s: string) { forall i :: 0 <= i < |s| ==> IsDigit(s[i]) }

  function DigitValue(c: char): nat
    requires IsDigit(c)
  {
    c as int - '0' as int
  }

  function DigitChar(d: nat): (c: char)
    requires d < 10
    ensures IsDigit(c) && DigitValue(c) == d
  {
    '0' + d as char
  }

  /** The number a run of digits denotes. */
  function NumberOf(s: string): nat
    requires AllDigits(s)
  {
    if s == "" then 0 else 10 * NumberOf(s[..|s| - 1]) + DigitValue(s[|s| - 1])
  }

  /** The decimal digits of a number, without leading zeros. */
  function Digits(n: nat): (s: string)
    ensures AllDigits(s) && s != "" && NumberOf(s) == n
    ensures n > 0 ==> s[0] != '0'
  {
    if n < 10 then assert [DigitChar(n)][..0] == ""; [DigitChar(n)]
    else
      var front, last := Digits(n / 10), DigitChar(n % 10);
      assert (front + [last])[..|front|] == front;
      front + [last]
  }

  lemma {:induction false} DigitsAreFew(n: nat, j: nat)
    requires 0 < n < Shift(1, j)
    ensures |Digits(n)| <= j
    decreases j
  {
    if n >= 10 {
      DigitsAreFew(n / 10, j - 1);
    }
  }

  lemma {:induction false} NumberOfJoined(a: string, b: string)
    requires AllDigits(a) && AllDigits(b)
    ensures AllDigits(a + b) && NumberOf(a + b) == Shift(NumberOf(a), |b|) + NumberOf(b)
    decreases |b|
  {
    if b == "" {
      assert a + b == a;
    } else {
      var n := |b| - 1;
      NumberOfJoined(a, b[..n]);
      assert (a + b)[..|a + b| - 1] == a + b[..n];
    }
  }

  function Zeros(k: nat): (s: string)
    ensures |s| == k && AllDigits(s) && NumberOf(s) == 0
    ensures k > 0 ==> s[0] == '0'
  {
    if k == 0 then "" else assert (Zeros(k - 1) + "0")[..k - 1] == Zeros(k - 1); Zeros(k - 1) + "0"
  }

  // ------------------------------------------------------------------ parser

  /** White space and line terminators, section 12.2 and 12.3 of ECMA-262. */
  predicate IsSpace(c: char) {
    var u := c as int;
    9 <= u <= 13 || u == 32 || u == 0xA0 || u == 0x1680 || 0x2000 <= u <= 0x200A
    || u == 0x2028 || u == 0x2029 || u == 0x202F || u == 0x205F || u == 0x3000 || u == 0xFEFF
  }

  /** The first position from `i` on that is not white space. */
  function InkStart(s: string, i: nat): (n: nat)
    requires i <= |s|
    ensures i <= n <= |s|
    decreases |s| - i
  {
    if i == |s| || !IsSpace(s[i]) then i else InkStart(s, i + 1)
  }

  /** The position after the last one before `j`, and not before `i`, that is not white space. */
  function InkEnd(s: string, i: nat, j: nat): (n: nat)
    requires i <= j <= |s|
    ensures i <= n <= j
    decreases j
  {
    if j == i || !IsSpace(s[j - 1]) then j else InkEnd(s, i, j - 1)
  }

  function Trim(s: string): string {
    var i := InkStart(s, 0);
    s[i..InkEnd(s, i, |s|)]
  }

  /** Where the run of digits that begins at `i` ends. */
  function DigitsEnd(s: string, i: nat): (n: nat)
    requires i <= |s|
    ensures i <= n <= |s| && (forall k :: i <= k < n ==> IsDigit(s[k])) && (n < |s| ==> !IsDigit(s[n]))
    decreases |s| - i
  {
    if i == |s| || !IsDigit(s[i]) then i else DigitsEnd(s, i + 1)
  }

  /** The two groups of the amount pattern: up to ten digits without a leading zero, and up to three after a point. */
  function Groups(s: string): (r: Option<(string, string)>)
    ensures r.Some? ==> AllDigits(r.value.0) && AllDigits(r.value.1)
  {
    var n := DigitsEnd(s, 0);
    var whole, rest := s[..n], s[n..];
    if !(1 <= n <= 10) || (n > 1 && s[0] == '0') then None
    else if rest == "" then Some((whole, ""))
    else if rest[0] == '.' && 1 <= |rest| - 1 <= 3 && AllDigits(rest[1..]) then Some((whole, rest[1..]))
    else None
  }

  /** Both groups in minor units, the fraction padded on the right to `k` digits. */
  function Combined(whole: string, fraction: string, k: nat): nat
    requires AllDigits(whole) && AllDigits(fraction) && |fraction| <= k
  {
    var padded := fraction + Zeros(k - |fraction|);
    Shift(NumberOf(whole), k) + NumberOf(padded)
  }

  function AmountToMinorUnits(text: string, currency: Currency): (r: Result<nat, FinanceError>)
    ensures r.Ok? ==> 1 <= r.value <= MaxMinor(currency)
  {
    match Groups(Trim(text))
    case None => Err(InvalidAmount)
    case Some((whole, fraction)) =>
      if |fraction| > MinorUnit(currency) then Err(InvalidAmount)
      else
        var amount := Combined(whole, fraction, MinorUnit(currency));
        if amount < 1 || amount > MaxMinor(currency) then Err(InvalidAmount) else Ok(amount)
  }

  lemma PaddedValue(fraction: string, k: nat)
    requires AllDigits(fraction)
    ensures AllDigits(fraction + Zeros(k)) && NumberOf(fraction + Zeros(k)) == Shift(NumberOf(fraction), k)
  {
    NumberOfJoined(fraction, Zeros(k));
  }

  lemma CombinedParts(a: string, b: string)
    requires AllDigits(a) && AllDigits(b)
    ensures AllDigits(a + b) && Combined(a, b, |b|) == NumberOf(a + b)
  {
    NumberOfJoined(a, b);
    assert b + Zeros(0) == b;
  }

  /** A text with both groups denotes the fraction NumberOf(whole + fraction) / 10^|fraction|; this says it is also
      `m` minor units out of 10^k. */
  predicate Denotes(whole: string, fraction: string, k: nat, m: nat)
    requires AllDigits(whole + fraction)
  {
    Shift(m, |fraction|) == Shift(NumberOf(whole + fraction), k)
  }

  lemma CombinedJoins(whole: string, fraction: string, t: nat)
    requires AllDigits(whole) && AllDigits(fraction)
    ensures AllDigits(whole + (fraction + Zeros(t)))
    ensures Combined(whole, fraction, |fraction| + t) == NumberOf(whole + (fraction + Zeros(t)))
  {
    NumberOfJoined(whole, fraction + Zeros(t));
  }

  lemma JoinsAssociate(a: string, b: string, c: string)
    ensures a + (b + c) == (a + b) + c
  {
  }

  lemma CombinedScales(whole: string, fraction: string, t: nat)
    requires AllDigits(whole) && AllDigits(fraction)
    ensures AllDigits(whole + fraction)
    ensures Combined(whole, fraction, |fraction| + t) == Shift(NumberOf(whole + fraction), t)
  {
    CombinedJoins(whole, fraction, t);
    JoinsAssociate(whole, fraction, Zeros(t));
    PaddedValue(whole + fraction, t);
  }

  lemma CombinedIsExact(whole: string, fraction: string, k: nat, m: nat)
    requires AllDigits(whole) && AllDigits(fraction) && |fraction| <= k
    ensures AllDigits(whole + fraction) && (Denotes(whole, fraction, k, m) <==> m == Combined(whole, fraction, k))
  {
    var t := k - |fraction|;
    CombinedScales(whole, fraction, t);
    var c := Combined(whole, fraction, k);
    ShiftTwice(NumberOf(whole + fraction), t, |fraction|);
    ShiftKeepsOrder(m, c, |fraction|);
    ShiftKeepsOrder(c, m, |fraction|);
  }

  /** A text becomes `m` minor units exactly when it has the pattern's form with no more fraction digits than the
      currency has, denotes m minor units, and m lies between 1 and a million whole units. */
  lemma ParsedAmountIsExact(text: string, currency: Currency, m: nat)
    ensures var k, g := MinorUnit(currency), Groups(Trim(text));
            AmountToMinorUnits(text, currency) == Ok(m) <==>
              && g.Some? && |g.value.1| <= k && AllDigits(g.value.0 + g.value.1)
              && Denotes(g.value.0, g.value.1, k, m) && 1 <= m <= MaxMinor(currency)
  {
    var k, g := MinorUnit(currency), Groups(Trim(text));
    if g.Some? && |g.value.1| <= k { CombinedIsExact(g.value.0, g.value.1, k, m); }
  }

  // ----------------------------------------------------------------- printer

  /** The integer that fixed-point printing picks: nearest to x * 10^k, the larger one on a tie
      (section 21.1.3.3 of ECMA-262). */
  function NearestScaled(x: real, k: nat): int { Rounded(ShiftReal(x, k)) }

  /** x times 10^k. */
  function ShiftReal(x: real, k: nat): (r: real)
    ensures x >= 0.0 <==> r >= 0.0
  {
    if k == 0 then x else 10.0 * ShiftReal(x, k - 1)
  }

  function Rounded(y: real): int { (y + 0.5).Floor }

  function Distance(a: real, b: real): real { if a < b then b - a else a - b }

  lemma RoundedIsNearest(y: real, other: int)
    ensures Distance(Rounded(y) as real, y) <= Distance(other as real, y)
    ensures Distance(Rounded(y) as real, y) == Distance(other as real, y) ==> other <= Rounded(y)
  {
    var n := Rounded(y);
    assert n as real <= y + 0.5 < n as real + 1.0;
    if other > n {
      assert other as real >= (n + 1) as real;
    } else if other < n {
      assert other as real <= (n - 1) as real;
    }
  }

  /** Zeros in front, up to k + 1 digits. */
  function Padded(m: string, k: nat): (p: string)
    ensures |p| > k
  {
    if |m| <= k then Zeros(k + 1 - |m|) + m else m
  }

  /** A point before the last k digits. */
  function WithPoint(p: string, k: nat): string
    requires |p| >= k
  {
    p[..|p| - k] + "." + p[|p| - k..]
  }

  /** Fixed-point notation of a non-negative number. */
  function ToFixed(x: real, k: nat): string
    requires x >= 0.0
  {
    WithPoint(Padded(Digits(NearestScaled(x, k)), k), k)
  }

  /** The values a correctly rounded double division of m by 10^k can have: relative error at most 2^-53. */
  predicate RoundedQuotient(q: real, m: nat, k: nat) {
    Distance(ShiftReal(q, k), m as real) * 9_007_199_254_740_992.0 <= m as real
  }

  lemma PrintsTheAmount(m: nat, currency: Currency, q: real)
    requires 1 <= m <= MaxMinor(currency) && RoundedQuotient(q, m, MinorUnit(currency))
    ensures q >= 0.0 && NearestScaled(q, MinorUnit(currency)) == m
  {
    MaxMinorInDigits(currency);
  }

  lemma DigitsNeedNoTrim(s: string)
    requires s != "" && IsDigit(s[0]) && IsDigit(s[|s| - 1])
    ensures Trim(s) == s
  {
  }

  lemma PointEndsTheWhole(a: string, b: string)
    requires AllDigits(a)
    ensures var s := a + ("." + b);
            DigitsEnd(s, 0) == |a| && s[..|a|] == a && s[|a|..] == "." + b && ("." + b)[1..] == b
  {
    var s, n := a + ("." + b), DigitsEnd(a + ("." + b), 0);
    assert s[|a|] == '.' && forall k :: 0 <= k < |a| ==> s[k] == a[k];
  }

  lemma GroupsOfParts(a: string, b: string)
    requires AllDigits(a) && AllDigits(b)
    requires 1 <= |a| <= 10 && (|a| == 1 || a[0] != '0') && 1 <= |b| <= 3
    ensures Groups(Trim(a + "." + b)) == Some((a, b))
  {
    var s := a + ("." + b);
    JoinsAssociate(a, ".", b);
    DigitsNeedNoTrim(s);
    PointEndsTheWhole(a, b);
  }

  lemma GroupsAreAccepted(text: string, a: string, b: string, currency: Currency)
    requires AllDigits(a) && AllDigits(b) && Groups(Trim(text)) == Some((a, b)) && |b| == MinorUnit(currency)
    requires 1 <= Combined(a, b, |b|) <= MaxMinor(currency)
    ensures AmountToMinorUnits(text, currency) == Ok(Combined(a, b, |b|))
  {
  }

  /** A run of digits split into two groups by a point parses to the number the run denotes. */
  lemma ParsesItsParts(a: string, b: string, currency: Currency)
    requires AllDigits(a) && AllDigits(b) && |b| == MinorUnit(currency)
    requires 1 <= |a| <= 10 && (|a| == 1 || a[0] != '0')
    requires AllDigits(a + b) && 1 <= NumberOf(a + b) <= MaxMinor(currency)
    ensures AmountToMinorUnits(a + "." + b, currency) == Ok(NumberOf(a + b))
  {
    GroupsOfParts(a, b);
    CombinedParts(a, b);
    GroupsAreAccepted(a + "." + b, a, b, currency);
  }

  lemma PointSplits(p: string, currency: Currency)
    requires AllDigits(p) && 1 <= NumberOf(p) <= MaxMinor(currency)
    requires MinorUnit(currency) < |p| <= MinorUnit(currency) + 10 && (|p| == MinorUnit(currency) + 1 || p[0] != '0')
    ensures AmountToMinorUnits(WithPoint(p, MinorUnit(currency)), currency) == Ok(NumberOf(p))
  {
    var cut := |p| - MinorUnit(currency);
    assert p[..cut] + p[cut..] == p;
    ParsesItsParts(p[..cut], p[cut..], currency);
  }

  lemma PaddingKeepsNumber(m: string, k: nat)
    requires m != "" && AllDigits(m) && m[0] != '0'
    ensures var p := Padded(m, k);
            && AllDigits(p) && NumberOf(p) == NumberOf(m) && (|p| == k + 1 || p[0] != '0')
            && |p| == if |m| <= k then k + 1 else |m|
  {
    if |m| <= k { NumberOfJoined(Zeros(k + 1 - |m|), m); }
  }

  lemma DigitsOfAmountsAreFew(m: nat, currency: Currency)
    requires 1 <= m <= MaxMinor(currency)
    ensures |Digits(m)| <= MinorUnit(currency) + 7
  {
    var k := MinorUnit(currency);
    assert Shift(1, 7) == 10 * MAX_WHOLE by { assert Shift(1, 4) == 10_000; }
    ShiftTwice(1, 7, k);
    ShiftKeepsOrder(MAX_WHOLE, Shift(1, 7), k);
    DigitsAreFew(m, 7 + k);
  }

  /** For every amount the finance service can hold, dividing it by a power of ten in double precision, printing the
      quotient with toFixed and parsing the text gives the amount back. */
  lemma PrintedAmountParsesBack(m: nat, currency: Currency, q: real)
    requires 1 <= m <= MaxMinor(currency) && RoundedQuotient(q, m, MinorUnit(currency))
    ensures q >= 0.0 && AmountToMinorUnits(ToFixed(q, MinorUnit(currency)), currency) == Ok(m)
  {
    var k := MinorUnit(currency);
    PrintsTheAmount(m, currency, q);
    DigitsOfAmountsAreFew(m, currency);
    PaddingKeepsNumber(Digits(m), k);
    PointSplits(Padded(Digits(m), k), currency);
  }
}
