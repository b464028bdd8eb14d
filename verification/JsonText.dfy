/** JSON string literals over UTF-16 code units, and why no literal can be read as another. */
module JsonText {

  /** A UTF-16 code unit. */
  newtype Unit = x: int | 0 <= x < 0x1_0000

  type Text = seq<Unit>

  function Ascii(s: string): Text
    requires forall i :: 0 <= i < |s| ==> s[i] as int < 128
  {
    seq(|s|, i requires 0 <= i < |s| => s[i] as int as Unit)
  }

  const QUOTE: Unit := 34
  const COMMA: Unit := 44
  const COLON: Unit := 58
  const BACKSLASH: Unit := 92
  const OPEN_BRACKET: Unit := 91
  const CLOSE_BRACKET: Unit := 93
  const OPEN_BRACE: Unit := 123
  const CLOSE_BRACE: Unit := 125

  predicate HighSurrogate(u: Unit) { 0xD800 <= u <= 0xDBFF }

  predicate LowSurrogate(u: Unit) { 0xDC00 <= u <= 0xDFFF }

  // ------------------------------------------------------------------ literals

  function Hex(d: Unit): Unit
    requires d < 16
  {
    if d < 10 then 48 + d else 87 + d
  }

  /** Backslash, u and four lower-case hexadecimal digits. */
  function UnicodeEscape(u: Unit): Text {
    [BACKSLASH, 117, Hex(u / 16 / 16 / 16), Hex(u / 16 / 16 % 16), Hex(u / 16 % 16), Hex(u % 16)]
  }

  /** The letter of a two-unit escape; 0 for units that have none. */
  function ShortEscape(u: Unit): Unit {
    if u == 8 then 98 else if u == 9 then 116 else if u == 10 then 110 else if u == 12 then 102
    else if u == 13 then 114 else if u == QUOTE then QUOTE else if u == BACKSLASH then BACKSLASH else 0
  }

  /** The first code point of a string: a surrogate pair, or one unit. */
  function Head(s: Text): Text
    requires s != []
  {
    if |s| >= 2 && HighSurrogate(s[0]) && LowSurrogate(s[1]) then s[..2] else s[..1]
  }

  predicate IsPair(c: Text) { |c| == 2 && HighSurrogate(c[0]) && LowSurrogate(c[1]) }

  /** How one code point is written: pairs as they are; quotes, backslashes, control units and lone surrogates escaped
      (section 25.5.2.3 of ECMA-262). */
  function Emit(c: Text): Text
    requires IsPair(c) || |c| == 1
  {
    if IsPair(c) then c
    else if ShortEscape(c[0]) != 0 then [BACKSLASH, ShortEscape(c[0])]
    else if c[0] < 32 || HighSurrogate(c[0]) || LowSurrogate(c[0]) then UnicodeEscape(c[0])
    else c
  }

  function Body(s: Text): Text {
    if s == [] then [] else Emit(Head(s)) + Body(s[|Head(s)|..])
  }

  function Quote(s: Text): Text { [QUOTE] + Body(s) + [QUOTE] }

  // -------------------------------------------------------------- prefix codes

  lemma HexIsInjective(d: Unit, e: Unit)
    requires d < 16 && e < 16 && Hex(d) == Hex(e)
    ensures d == e
  {
  }

  lemma LastDigitAndRest(u: Unit, v: Unit)
    requires u / 16 == v / 16 && u % 16 == v % 16
    ensures u == v
  {
  }

  lemma EscapeIsInjective(u: Unit, v: Unit)
    requires UnicodeEscape(u) == UnicodeEscape(v)
    ensures u == v
  {
    var a, b := UnicodeEscape(u), UnicodeEscape(v);
    assert a[2] == b[2] && a[3] == b[3] && a[4] == b[4] && a[5] == b[5];
    HexIsInjective(u / 16 / 16 / 16, v / 16 / 16 / 16);
    HexIsInjective(u / 16 / 16 % 16, v / 16 / 16 % 16);
    HexIsInjective(u / 16 % 16, v / 16 % 16);
    HexIsInjective(u % 16, v % 16);
    LastDigitAndRest(u / 16 / 16, v / 16 / 16);
    LastDigitAndRest(u / 16, v / 16);
    LastDigitAndRest(u, v);
  }

  lemma ShortEscapeIsInjective(u: Unit, v: Unit)
    requires ShortEscape(u) == ShortEscape(v) != 0
    ensures u == v && ShortEscape(u) != 117
  {
  }

  predicate Escaped(c: Text)
    requires IsPair(c) || |c| == 1
  {
    Emit(c)[0] == BACKSLASH
  }

  lemma EscapesArePrefixFree(c: Text, d: Text, r: Text, q: Text)
    requires (IsPair(c) || |c| == 1) && (IsPair(d) || |d| == 1) && Escaped(c) && Escaped(d)
    requires Emit(c) + r == Emit(d) + q
    ensures c == d
  {
    var x, y := Emit(c) + r, Emit(d) + q;
    assert |c| == 1 && |d| == 1;
    assert x[1] == Emit(c)[1] && y[1] == Emit(d)[1];
    if x[1] == 117 {
      assert x[..6] == UnicodeEscape(c[0]) && y[..6] == UnicodeEscape(d[0]);
      EscapeIsInjective(c[0], d[0]);
    } else {
      ShortEscapeIsInjective(c[0], d[0]);
    }
  }

  lemma PlainIsPrefixFree(c: Text, d: Text, r: Text, q: Text)
    requires (IsPair(c) || |c| == 1) && (IsPair(d) || |d| == 1) && !Escaped(c) && !Escaped(d)
    requires Emit(c) + r == Emit(d) + q
    ensures c == d
  {
    var x, y := Emit(c) + r, Emit(d) + q;
    assert Emit(c) == c && Emit(d) == d;
    assert x[0] == c[0] && y[0] == d[0];
    assert |c| == |d|;
    assert x[..|c|] == c && y[..|d|] == d;
  }

  /** No written code point is a prefix of a different one, and none begins with a quote. */
  lemma EmitIsPrefixFree(c: Text, d: Text, r: Text, q: Text)
    requires (IsPair(c) || |c| == 1) && (IsPair(d) || |d| == 1)
    requires Emit(c) + r == Emit(d) + q
    ensures c == d && r == q
  {
    var x, y := Emit(c) + r, Emit(d) + q;
    assert x[0] == Emit(c)[0] && y[0] == Emit(d)[0];
    if Escaped(c) { EscapesArePrefixFree(c, d, r, q); } else { PlainIsPrefixFree(c, d, r, q); }
    assert r == x[|Emit(c)|..] && q == y[|Emit(d)|..];
  }

  /** A string after its first code point. */
  function Tail(s: Text): Text
    requires s != []
    ensures |Tail(s)| < |s| && s == Head(s) + Tail(s)
  {
    s[|Head(s)|..]
  }

  /** The rest of a literal: its body, the closing quote and what follows. */
  function Rest(s: Text, r: Text): Text { Body(s) + [QUOTE] + r }

  lemma RestUnfolds(s: Text, r: Text)
    requires s != []
    ensures Rest(s, r) == Emit(Head(s)) + Rest(Tail(s), r)
  {
  }

  lemma RestBegins(s: Text, r: Text)
    ensures Rest(s, r) != [] && (Rest(s, r)[0] == QUOTE <==> s == [])
    ensures s == [] ==> Rest(s, r)[1..] == r
  {
    if s != [] {
      RestUnfolds(s, r);
      assert Rest(s, r)[0] == Emit(Head(s))[0];
    } else {
      assert Rest(s, r) == [QUOTE] + r;
    }
  }

  lemma {:induction false} RestIsPrefixFree(s: Text, t: Text, r: Text, q: Text)
    requires Rest(s, r) == Rest(t, q)
    ensures s == t && r == q
    decreases |s|
  {
    RestBegins(s, r);
    RestBegins(t, q);
    if s != [] {
      RestUnfolds(s, r);
      RestUnfolds(t, q);
      EmitIsPrefixFree(Head(s), Head(t), Rest(Tail(s), r), Rest(Tail(t), q));
      RestIsPrefixFree(Tail(s), Tail(t), r, q);
    }
  }

  /** A string literal ends where it ends, whatever follows, and stands for one string only. */
  lemma QuoteIsPrefixFree(s: Text, t: Text, r: Text, q: Text)
    requires Quote(s) + r == Quote(t) + q
    ensures s == t && r == q
  {
    assert (Quote(s) + r)[1..] == Rest(s, r);
    assert (Quote(t) + q)[1..] == Rest(t, q);
    RestIsPrefixFree(s, t, r, q);
  }

  // ---------------------------------------------------------- lone surrogates

  /** One unit of a pair without the other. */
  predicate Lone(c: Text) { |c| == 1 && (HighSurrogate(c[0]) || LowSurrogate(c[0])) }

  /** Every surrogate belongs to a pair. */
  predicate WellFormed(s: Text)
    decreases |s|
  {
    s == [] || (!Lone(Head(s)) && WellFormed(Tail(s)))
  }

  lemma HeadOfParts(s: Text, t: Text)
    requires s != [] && !Lone(Head(s))
    ensures Head(s + t) == Head(s) && Tail(s + t) == Tail(s) + t
  {
    assert (s + t)[|Head(s)|..] == s[|Head(s)|..] + t;
  }

  lemma {:induction false} WellFormedParts(s: Text, t: Text)
    requires WellFormed(s) && WellFormed(t)
    ensures WellFormed(s + t)
    decreases |s|
  {
    if s == [] {
      assert s + t == t;
    } else {
      HeadOfParts(s, t);
      WellFormedParts(Tail(s), t);
    }
  }

  lemma {:induction false} PlainIsWellFormed(s: Text)
    requires forall i :: 0 <= i < |s| ==> s[i] < 0xD800
    ensures WellFormed(s)
    decreases |s|
  {
    if s != [] { PlainIsWellFormed(Tail(s)); }
  }

  lemma EmitIsWellFormed(c: Text)
    requires IsPair(c) || |c| == 1
    ensures WellFormed(Emit(c))
  {
    if IsPair(c) {
      assert Head(c) == c && Tail(c) == [];
    } else {
      PlainOrAbove(Emit(c));
    }
  }

  lemma PlainOrAbove(s: Text)
    requires (|s| == 1 && !Lone(s)) || forall i :: 0 <= i < |s| ==> s[i] < 0xD800
    ensures WellFormed(s)
  {
    if |s| == 1 && !Lone(s) {
      assert Head(s) == s && Tail(s) == [];
    } else {
      PlainIsWellFormed(s);
    }
  }

  lemma {:induction false} BodyIsWellFormed(s: Text)
    ensures WellFormed(Body(s))
    decreases |s|
  {
    if s != [] {
      EmitIsWellFormed(Head(s));
      BodyIsWellFormed(Tail(s));
      WellFormedParts(Emit(Head(s)), Body(Tail(s)));
    }
  }

  /** A string literal holds no lone surrogate, whatever the string holds. */
  lemma QuoteIsWellFormed(s: Text)
    ensures WellFormed(Quote(s))
  {
    BodyIsWellFormed(s);
    PlainIsWellFormed([QUOTE]);
    WellFormedParts([QUOTE], Body(s));
    WellFormedParts([QUOTE] + Body(s), [QUOTE]);
  }
}
