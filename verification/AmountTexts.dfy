/** Which texts are amounts of money, told without the parser: white space, digits, and perhaps a point and digits. */
module AmountTexts {
  import opened Wrappers
  import opened Ledger
  import opened Amounts

  datatype Parts = Parts(before: string, whole: string, point: bool, fraction: string, after: string)

  predicate AllSpaces(s: string) { forall i :: 0 <= i < |s| ==> IsSpace(s[i]) }

  /** The controls from tab to carriage return, the space, the byte order mark, the two separators, and the spaces of
      Unicode's category Zs. */
  lemma SpacesAreWhite(c: char)
    ensures IsSpace(c)
            <==> c as int in {9, 10, 11, 12, 13, 32, 65279, 8232, 8233} || 8192 <= c as int <= 8202
                 || c as int in {160, 5760, 8239, 8287, 12288}
  {
  }

  function Ink(p: Parts): string { p.whole + if p.point then "." + p.fraction else "" }

  function TextOf(p: Parts): string { p.before + Ink(p) + p.after }

  /** One to ten digits without a leading zero, or a zero, then perhaps a point and one to three digits. */
  predicate Proper(p: Parts) {
    && AllSpaces(p.before) && AllSpaces(p.after) && AllDigits(p.whole) && AllDigits(p.fraction)
    && 1 <= |p.whole| <= 10 && (|p.whole| == 1 || p.whole[0] != '0')
    && if p.point then 1 <= |p.fraction| <= 3 else p.fraction == ""
  }

  /** (whole * 10^f + fraction) * 10^(k - f), for f digits in the fraction. */
  function Minor(p: Parts, k: nat): nat
    requires AllDigits(p.whole) && AllDigits(p.fraction) && |p.fraction| <= k
  {
    Shift(Shift(NumberOf(p.whole), |p.fraction|) + NumberOf(p.fraction), k - |p.fraction|)
  }

  /** The parts spell `text`, with no more fraction digits than the currency has, and mean `m` minor units of it. */
  predicate Spells(p: Parts, text: string, currency: Currency, m: nat) {
    && Proper(p) && TextOf(p) == text && |p.fraction| <= MinorUnit(currency)
    && m == Minor(p, MinorUnit(currency)) && 1 <= m <= 1_000_000 * if MinorUnit(currency) == 3 then 1000 else 100
  }

  // ---------------------------------------------------------------- trimming

  lemma {:induction false} InkStartsAfterSpaces(s: string, i: nat, n: nat)
    requires i <= n < |s| && (forall k :: i <= k < n ==> IsSpace(s[k])) && !IsSpace(s[n])
    ensures InkStart(s, i) == n
    decreases n - i
  {
    if i < n { InkStartsAfterSpaces(s, i + 1, n); }
  }

  lemma {:induction false} InkEndsBeforeSpaces(s: string, i: nat, n: nat, j: nat)
    requires i < n <= j <= |s| && (forall k :: n <= k < j ==> IsSpace(s[k])) && !IsSpace(s[n - 1])
    ensures InkEnd(s, i, j) == n
    decreases j
  {
    if n < j { InkEndsBeforeSpaces(s, i, n, j - 1); }
  }

  lemma TrimmedIsInk(p: Parts)
    requires Proper(p)
    ensures Trim(TextOf(p)) == Ink(p)
  {
    var s, i, n := TextOf(p), |p.before|, |p.before| + |Ink(p)|;
    assert s[i..n] == Ink(p);
    assert s[i] == Ink(p)[0] == p.whole[0] && s[n - 1] == Ink(p)[|Ink(p)| - 1];
    assert IsDigit(s[i]) && IsDigit(s[n - 1]);
    assert forall k :: 0 <= k < i ==> s[k] == p.before[k];
    assert forall k :: n <= k < |s| ==> s[k] == p.after[k - n];
    InkStartsAfterSpaces(s, 0, i);
    InkEndsBeforeSpaces(s, i, n, |s|);
  }

  lemma {:induction false} SkippedIsSpace(s: string, i: nat)
    requires i <= |s|
    ensures AllSpaces(s[i..InkStart(s, i)])
    decreases |s| - i
  {
    if i < |s| && IsSpace(s[i]) {
      SkippedIsSpace(s, i + 1);
      assert s[i..InkStart(s, i)] == [s[i]] + s[i + 1..InkStart(s, i + 1)];
    }
  }

  lemma {:induction false} CutIsSpace(s: string, i: nat, j: nat)
    requires i <= j <= |s|
    ensures AllSpaces(s[InkEnd(s, i, j)..j])
    decreases j
  {
    if j > i && IsSpace(s[j - 1]) {
      CutIsSpace(s, i, j - 1);
      assert s[InkEnd(s, i, j)..j] == s[InkEnd(s, i, j - 1)..j - 1] + [s[j - 1]];
    }
  }

  // ---------------------------------------------------------------- splitting

  lemma DigitsRunToTheEnd(s: string)
    requires AllDigits(s)
    ensures DigitsEnd(s, 0) == |s|
  {
  }

  lemma InkIsSplit(p: Parts)
    requires Proper(p)
    ensures Groups(Ink(p)) == Some((p.whole, p.fraction))
  {
    if p.point {
      PointEndsTheWhole(p.whole, p.fraction);
    } else {
      DigitsRunToTheEnd(p.whole);
      assert Ink(p) == p.whole;
    }
  }

  lemma SplitIsInk(s: string) returns (p: Parts)
    requires Groups(s).Some?
    ensures Proper(p) && Ink(p) == s && Groups(s) == Some((p.whole, p.fraction))
  {
    var n := DigitsEnd(s, 0);
    if s[n..] == "" {
      p := Parts("", s[..n], false, "", "");
    } else {
      p := Parts("", s[..n], true, s[n..][1..], "");
      assert s[n..] == "." + p.fraction;
    }
  }

  lemma TrimLeavesSpaces(text: string) returns (before: string, after: string)
    ensures AllSpaces(before) && AllSpaces(after) && text == before + Trim(text) + after
  {
    var i := InkStart(text, 0);
    var j := InkEnd(text, i, |text|);
    SkippedIsSpace(text, 0);
    CutIsSpace(text, i, |text|);
    before, after := text[..i], text[j..];
    assert text[..i] == text[0..i];
    assert text == text[..i] + text[i..j] + text[j..];
  }

  lemma Surrounded(p: Parts, before: string, after: string)
    requires Proper(p) && AllSpaces(before) && AllSpaces(after)
    ensures var q := p.(before := before, after := after); Proper(q) && TextOf(q) == before + Ink(p) + after
  {
  }

  /** What the parser splits has proper parts. */
  lemma SplitHasParts(text: string) returns (p: Parts)
    requires Groups(Trim(text)).Some?
    ensures Proper(p) && TextOf(p) == text && Groups(Trim(text)) == Some((p.whole, p.fraction))
  {
    var before, after := TrimLeavesSpaces(text);
    var bare := SplitIsInk(Trim(text));
    Surrounded(bare, before, after);
    p := bare.(before := before, after := after);
  }

  lemma MinorIsCombined(p: Parts, k: nat)
    requires AllDigits(p.whole) && AllDigits(p.fraction) && |p.fraction| <= k
    ensures Combined(p.whole, p.fraction, k) == Minor(p, k)
  {
    CombinedScales(p.whole, p.fraction, k - |p.fraction|);
    NumberOfJoined(p.whole, p.fraction);
  }

  /** A text is `m` minor units of a currency exactly when proper parts spell it and mean that, and `m` lies between one
      and a million whole units. */
  lemma AmountIsSpelledIff(text: string, currency: Currency, m: nat)
    ensures AmountToMinorUnits(text, currency) == Ok(m) <==> exists p :: Spells(p, text, currency, m)
  {
    MaxMinorInDigits(currency);
    if AmountToMinorUnits(text, currency) == Ok(m) {
      var p := SplitHasParts(text);
      MinorIsCombined(p, MinorUnit(currency));
      assert Spells(p, text, currency, m);
    }
    if p :| Spells(p, text, currency, m) {
      TrimmedIsInk(p);
      InkIsSplit(p);
      MinorIsCombined(p, MinorUnit(currency));
    }
  }

  /** Every other text is refused as an invalid amount. */
  lemma OtherTextsAreInvalid(text: string, currency: Currency)
    ensures AmountToMinorUnits(text, currency) == Err(InvalidAmount) <==> forall p, m :: !Spells(p, text, currency, m)
  {
    var r := AmountToMinorUnits(text, currency);
    if r.Ok? {
      AmountIsSpelledIff(text, currency, r.value);
    } else {
      forall p, m ensures !Spells(p, text, currency, m) { AmountIsSpelledIff(text, currency, m); }
    }
  }

  lemma Value(s: string)
    requires AllDigits(s) && 1 <= |s| <= 3
    ensures |s| == 1 ==> NumberOf(s) == DigitValue(s[0])
    ensures |s| == 2 ==> NumberOf(s) == 10 * DigitValue(s[0]) + DigitValue(s[1])
    ensures |s| == 3 ==> NumberOf(s) == 100 * DigitValue(s[0]) + 10 * DigitValue(s[1]) + DigitValue(s[2])
  {
    assert s[..1][..0] == "";
    if |s| >= 2 { assert s[..2][..1] == s[..1]; }
    if |s| == 2 { assert s[..2] == s; }
    if |s| == 3 { assert s[..3] == s; }
  }

  lemma SpelledOut(p: Parts, currency: Currency)
    requires Proper(p) && |p.fraction| <= MinorUnit(currency) && 1 <= Minor(p, MinorUnit(currency)) <= 1_000_000
    ensures AmountToMinorUnits(TextOf(p), currency) == Ok(Minor(p, MinorUnit(currency)))
  {
    var m := Minor(p, MinorUnit(currency));
    assert Spells(p, TextOf(p), currency, m);
    AmountIsSpelledIff(TextOf(p), currency, m);
  }

  /** A whole number means whole units, and digits after the point are counted from the point. */
  lemma WholeUnits()
    ensures AmountToMinorUnits("12", SAR) == Ok(1200)
  {
    var p := Parts("", "12", false, "", "");
    Value("12");
    assert Shift(12, 2) == 1200 by { assert Shift(12, 1) == 120; }
    assert Shift(12, 0) == 12 && NumberOf("") == 0;
    assert Minor(p, 2) == 1200 && TextOf(p) == "12";
    SpelledOut(p, SAR);
  }

  lemma HalfAUnit()
    ensures AmountToMinorUnits(" 0.5 ", KWD) == Ok(500)
  {
    var p := Parts(" ", "0", true, "5", " ");
    Value("0");
    Value("5");
    assert Shift(5, 2) == 500 by { assert Shift(5, 1) == 50; }
    assert Minor(p, 3) == 500 && TextOf(p) == " 0.5 ";
    SpelledOut(p, KWD);
  }
}
