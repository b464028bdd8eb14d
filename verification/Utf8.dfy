/** The UTF-8 encoding in front of a digest: it loses lone surrogates, and nothing else. */
module Utf8 {
  import opened JsonText

  newtype Byte = x: int | 0 <= x < 256

  type Bytes = seq<Byte>

  type Point = p: int | 0 <= p < 0x11_0000

  const REPLACEMENT: Point := 0xFFFD

  /** The code point of a pair or a single unit; a lone surrogate is replaced. */
  function PointOf(c: Text): Point
    requires IsPair(c) || |c| == 1
  {
    if IsPair(c) then 0x1_0000 + (c[0] as int - 0xD800) * 0x400 + (c[1] as int - 0xDC00)
    else if Lone(c) then REPLACEMENT
    else c[0] as int
  }

  function Continuation(d: int): Byte
    requires 0 <= d < 64
  {
    (0x80 + d) as Byte
  }

  /** One to four bytes (section 3 of RFC 3629). */
  function EncodePoint(p: Point): Bytes {
    if p < 0x80 then [p as Byte]
    else if p < 0x800 then [(0xC0 + p / 64) as Byte, Continuation(p % 64)]
    else if p < 0x1_0000 then [(0xE0 + p / 64 / 64) as Byte, Continuation(p / 64 % 64), Continuation(p % 64)]
    else [(0xF0 + p / 64 / 64 / 64) as Byte, Continuation(p / 64 / 64 % 64), Continuation(p / 64 % 64),
          Continuation(p % 64)]
  }

  function Encode(s: Text): Bytes
    decreases |s|
  {
    if s == [] then [] else EncodePoint(PointOf(Head(s))) + Encode(Tail(s))
  }

  /** The first byte tells how many follow. */
  function Length(b: Byte): nat { if b < 0x80 then 1 else if b < 0xE0 then 2 else if b < 0xF0 then 3 else 4 }

  lemma FirstByteTellsLength(p: Point)
    ensures |EncodePoint(p)| == Length(EncodePoint(p)[0])
  {
  }

  lemma PointIsInjective(p: Point, q: Point)
    requires EncodePoint(p) == EncodePoint(q)
    ensures p == q
  {
    var x, y := EncodePoint(p), EncodePoint(q);
    assert |x| == |y| && x[0] == y[0];
    if |x| > 1 { assert x[1] == y[1]; }
    if |x| > 2 { assert x[2] == y[2]; }
    if |x| > 3 { assert x[3] == y[3]; }
  }

  lemma PointsArePrefixFree(p: Point, q: Point, r: Bytes, s: Bytes)
    requires EncodePoint(p) + r == EncodePoint(q) + s
    ensures p == q && r == s
  {
    var x, y := EncodePoint(p) + r, EncodePoint(q) + s;
    assert x[0] == EncodePoint(p)[0] && y[0] == EncodePoint(q)[0];
    FirstByteTellsLength(p);
    FirstByteTellsLength(q);
    var n := |EncodePoint(p)|;
    assert x[..n] == EncodePoint(p) && y[..n] == EncodePoint(q);
    assert x[n..] == r && y[n..] == s;
    PointIsInjective(p, q);
  }

  lemma HeadIsItsPoint(c: Text, d: Text)
    requires (IsPair(c) || |c| == 1) && (IsPair(d) || |d| == 1) && !Lone(c) && !Lone(d) && PointOf(c) == PointOf(d)
    ensures c == d
  {
    if IsPair(c) {
      assert c[0] == d[0] && c[1] == d[1];
    } else {
      assert c[0] == d[0];
    }
  }

  /** Texts without lone surrogates are told apart by their bytes. */
  lemma {:induction false} EncodeIsInjective(s: Text, t: Text)
    requires WellFormed(s) && WellFormed(t) && Encode(s) == Encode(t)
    ensures s == t
    decreases |s|
  {
    if s != [] && t != [] {
      PointsArePrefixFree(PointOf(Head(s)), PointOf(Head(t)), Encode(Tail(s)), Encode(Tail(t)));
      HeadIsItsPoint(Head(s), Head(t));
      EncodeIsInjective(Tail(s), Tail(t));
    }
  }

  /** Other texts are not: every lone surrogate is encoded like U+FFFD. */
  lemma LoneSurrogatesCollide(u: Unit)
    requires Lone([u])
    ensures Encode([u]) == Encode([0xFFFD]) && WellFormed([0xFFFD]) && !WellFormed([u])
  {
    assert Head([u]) == [u] && Tail([u]) == [] && Head([0xFFFD]) == [0xFFFD] && Tail([0xFFFD]) == [];
    assert PointOf([u]) == PointOf([0xFFFD]);
  }
}
