/** What canonical texts say to any reader: every one is the JSON text (RFC 8259) of its value without white space, with
    keys in ascending order, and its bytes are its UTF-8 encoding. The readers here are written from the two standards.
    */
module JsonReading {
  import opened Wrappers
  import opened JsonText
  import opened CanonicalJson
  import Utf8

  // ------------------------------------------------------------------ literals

  /** A hexadecimal digit of either case. */
  function DigitOf(u: Unit): (d: Option<int>)
    ensures d.Some? ==> 0 <= d.value < 16
  {
    if 48 <= u <= 57 then Some(u as int - 48)
    else if 97 <= u <= 102 then Some(u as int - 87)
    else if 65 <= u <= 70 then Some(u as int - 55)
    else None
  }

  /** The unit behind a backslash and one letter (section 7 of RFC 8259). */
  function Named(u: Unit): Option<Unit> {
    match u
    case 34 => Some(34)
    case 92 => Some(92)
    case 47 => Some(47)
    case 98 => Some(8)
    case 102 => Some(12)
    case 110 => Some(10)
    case 114 => Some(13)
    case 116 => Some(9)
    case _ => None
  }

  /** The unit behind four digits. */
  function Numbered(t: Text): Option<Unit>
    requires |t| == 4
  {
    var a, b, c, d := DigitOf(t[0]), DigitOf(t[1]), DigitOf(t[2]), DigitOf(t[3]);
    if a.Some? && b.Some? && c.Some? && d.Some?
    then Some((a.value * 4096 + b.value * 256 + c.value * 16 + d.value) as Unit)
    else None
  }

  function After(u: Option<Unit>, rest: Option<Text>): Option<Text> {
    if u.Some? && rest.Some? then Some([u.value] + rest.value) else None
  }

  /** What stands between the quotes of a literal. */
  function Inside(t: Text): Option<Text>
    decreases |t|
  {
    if t == [] then Some([])
    else if t[0] == BACKSLASH then
      if |t| == 1 then None
      else if t[1] != 117 then After(Named(t[1]), Inside(t[2..]))
      else if |t| < 6 then None
      else After(Numbered(t[2..6]), Inside(t[6..]))
    else if t[0] < 32 || t[0] == QUOTE then None
    else After(Some(t[0]), Inside(t[1..]))
  }

  function Unquote(t: Text): Option<Text> {
    if |t| >= 2 && t[0] == QUOTE && t[|t| - 1] == QUOTE then Inside(t[1..|t| - 1]) else None
  }

  lemma HexReads(d: Unit)
    requires d < 16
    ensures DigitOf(Hex(d)) == Some(d as int)
  {
  }

  lemma DigitsRead(u: Unit)
    ensures Numbered(UnicodeEscape(u)[2..]) == Some(u)
  {
    var a, b, c, d := u / 16 / 16 / 16, u / 16 / 16 % 16, u / 16 % 16, u % 16;
    assert UnicodeEscape(u)[2..] == [Hex(a), Hex(b), Hex(c), Hex(d)];
    HexReads(a);
    HexReads(b);
    HexReads(c);
    HexReads(d);
    assert u as int == a as int * 4096 + b as int * 256 + c as int * 16 + d as int;
  }

  lemma PlainReads(u: Unit, r: Text)
    requires u >= 32 && u != QUOTE && u != BACKSLASH && Inside(r).Some?
    ensures Inside([u] + r) == Some([u] + Inside(r).value)
  {
    assert ([u] + r)[1..] == r;
  }

  lemma PairReads(c: Text, r: Text)
    requires IsPair(c) && Inside(r).Some?
    ensures Inside(c + r) == Some(c + Inside(r).value)
  {
    PlainReads(c[1], r);
    PlainReads(c[0], [c[1]] + r);
    assert c == [c[0]] + [c[1]];
    assert c + r == [c[0]] + ([c[1]] + r);
    assert c + Inside(r).value == [c[0]] + ([c[1]] + Inside(r).value);
  }

  lemma ShortReads(u: Unit, r: Text)
    requires ShortEscape(u) != 0 && Inside(r).Some?
    ensures Inside([BACKSLASH, ShortEscape(u)] + r) == Some([u] + Inside(r).value)
  {
    assert ([BACKSLASH, ShortEscape(u)] + r)[2..] == r;
    assert Named(ShortEscape(u)) == Some(u);
  }

  lemma UnicodeReads(u: Unit, r: Text)
    requires Inside(r).Some?
    ensures Inside(UnicodeEscape(u) + r) == Some([u] + Inside(r).value)
  {
    DigitsRead(u);
    var t := UnicodeEscape(u) + r;
    assert t[2..6] == UnicodeEscape(u)[2..] && t[6..] == r;
  }

  lemma EmitReads(c: Text, r: Text)
    requires (IsPair(c) || |c| == 1) && Inside(r).Some?
    ensures Inside(Emit(c) + r) == Some(c + Inside(r).value)
  {
    if IsPair(c) {
      PairReads(c, r);
    } else {
      assert c == [c[0]];
      if ShortEscape(c[0]) != 0 {
        ShortReads(c[0], r);
      } else if c[0] < 32 || HighSurrogate(c[0]) || LowSurrogate(c[0]) {
        UnicodeReads(c[0], r);
      } else {
        PlainReads(c[0], r);
      }
    }
  }

  lemma {:induction false} BodyReads(s: Text)
    ensures Inside(Body(s)) == Some(s)
    decreases |s|
  {
    if s != [] {
      BodyReads(Tail(s));
      EmitReads(Head(s), Body(Tail(s)));
    }
  }

  /** A literal reads back as its string, whatever units the string holds. */
  lemma LiteralReadsBack(s: Text)
    ensures Unquote(Quote(s)) == Some(s)
  {
    assert Quote(s)[1..|Quote(s)| - 1] == Body(s);
    BodyReads(s);
  }

  /** Each code point takes its shortest form: itself, two units, or a numbered escape with digits in lower case. */
  lemma EscapesAreShortest(c: Text)
    requires IsPair(c) || |c| == 1
    ensures |Emit(c)| == if IsPair(c) || c[0] in {8, 9, 10, 12, 13, 34, 92} then 2
                         else if c[0] < 32 || 0xD800 <= c[0] <= 0xDFFF then 6
                         else 1
    ensures |Emit(c)| == 6 ==> forall i :: 1 < i < 6 ==> !(65 <= Emit(c)[i] <= 70)
  {
  }

  // -------------------------------------------------------------- order of keys

  /** The first place where two keys differ; a key ends before every unit. */
  ghost predicate DifferAt(a: Text, b: Text, k: nat) {
    k <= |a| && k < |b| && (forall i :: 0 <= i < k ==> a[i] == b[i]) && (k < |a| ==> a[k] < b[k])
  }

  ghost predicate Before(a: Text, b: Text) { exists k: nat :: DifferAt(a, b, k) }

  /** Keys are compared by their code units, the first difference deciding. */
  lemma {:induction false} LessIsBefore(a: Text, b: Text)
    ensures Less(a, b) <==> Before(a, b)
    decreases |a|
  {
    if b != [] && a != [] && a[0] == b[0] {
      LessIsBefore(a[1..], b[1..]);
      if Less(a[1..], b[1..]) {
        var k: nat :| DifferAt(a[1..], b[1..], k);
        assert DifferAt(a, b, k + 1) by {
          forall i | 0 <= i < k + 1 ensures a[i] == b[i] {
            if i > 0 { assert a[1..][i - 1] == b[1..][i - 1]; }
          }
        }
      }
      if Before(a, b) {
        var k: nat :| DifferAt(a, b, k);
        assert k > 0;
        assert DifferAt(a[1..], b[1..], k - 1);
      }
    } else if Less(a, b) {
      assert DifferAt(a, b, 0);
    } else {
      assert forall k: nat :: DifferAt(a, b, k) ==> k == 0;
    }
  }

  // -------------------------------------------------------------------- values

  function Commas(parts: seq<Text>): Text {
    if parts == [] then []
    else if |parts| == 1 then parts[0]
    else parts[0] + [COMMA] + Commas(parts[1..])
  }

  /** The text is `v` in JSON without white space, every object with its keys in ascending order. */
  ghost predicate Writes(t: Text, v: Json)
    decreases v, 2
  {
    match v
    case Null => t == [110, 117, 108, 108]
    case NonFinite => t == [110, 117, 108, 108]
    case Bool(b) => t == if b then [116, 114, 117, 101] else [102, 97, 108, 115, 101]
    case Number(n) => t == n
    case String(s) => Unquote(t) == Some(s)
    case Array(xs) => exists parts :: WritesItems(t, parts, xs)
    case Object(ms) => exists keys, parts :: WritesMembers(t, keys, parts, ms)
  }

  ghost predicate WritesItems(t: Text, parts: seq<Text>, xs: seq<Json>)
    decreases xs, 1
  {
    t == [91] + Commas(parts) + [93] && |parts| == |xs| && forall i :: 0 <= i < |xs| ==> Writes(parts[i], xs[i])
  }

  ghost predicate WritesMembers(t: Text, keys: seq<Text>, parts: seq<Text>, ms: seq<Member>)
    decreases ms, 2
  {
    && t == [123] + Commas(parts) + [125]
    && |keys| == |parts| == |ms|
    && (forall i, j :: 0 <= i < j < |keys| ==> Before(keys[i], keys[j]))
    && (forall k :: 0 <= k < |parts| ==> WritesMember(parts[k], keys[k], ms))
  }

  ghost predicate WritesMember(part: Text, key: Text, ms: seq<Member>)
    decreases ms, 1
  {
    exists i, literal, value :: 0 <= i < |ms| && IsMember(part, key, literal, value, ms, i)
  }

  ghost predicate IsMember(part: Text, key: Text, literal: Text, value: Text, ms: seq<Member>, i: nat)
    requires i < |ms|
    decreases ms, 0
  {
    part == literal + [58] + value && ms[i].key == key && Unquote(literal) == Some(key) && Writes(value, ms[i].value)
  }

  lemma {:induction false} CanonicalWrites(v: Json)
    requires Valid(v)
    ensures Writes(Canonical(v), v)
    decreases v, 1
  {
    match v
    case String(s) => LiteralReadsBack(s);
    case Array(xs) => ItemsWrite(xs);
    case Object(ms) => MembersWrite(ms);
    case _ =>
      assert NULL == [110, 117, 108, 108];
      assert TRUE == [116, 114, 117, 101];
      assert FALSE == [102, 97, 108, 115, 101];
  }

  function Canonicals(xs: seq<Json>): seq<Text> { seq(|xs|, i requires 0 <= i < |xs| => Canonical(xs[i])) }

  lemma {:induction false} ItemsAreCommas(xs: seq<Json>)
    ensures Items(xs) == Commas(Canonicals(xs))
    decreases |xs|
  {
    if |xs| > 1 {
      ItemsAreCommas(xs[1..]);
      assert Canonicals(xs)[1..] == Canonicals(xs[1..]);
    }
  }

  lemma {:induction false} ItemsWrite(xs: seq<Json>)
    requires forall i :: 0 <= i < |xs| ==> Valid(xs[i])
    ensures Writes(Canonical(Array(xs)), Array(xs))
    decreases xs, 2
  {
    ItemsAreCommas(xs);
    forall i | 0 <= i < |xs| ensures Writes(Canonicals(xs)[i], xs[i]) {
      CanonicalWrites(xs[i]);
    }
    assert WritesItems(Canonical(Array(xs)), Canonicals(xs), xs);
  }

  function Texts(es: seq<Entry>): seq<Text> { seq(|es|, i requires 0 <= i < |es| => EntryText(es[i])) }

  function Keys(es: seq<Entry>): seq<Text> { seq(|es|, i requires 0 <= i < |es| => es[i].key) }

  lemma {:induction false} JoinIsCommas(es: seq<Entry>)
    ensures Join(es) == Commas(Texts(es))
    decreases |es|
  {
    if |es| > 1 {
      JoinIsCommas(es[1..]);
      assert Texts(es)[1..] == Texts(es[1..]);
    }
  }

  lemma {:induction false} MemberWrites(ms: seq<Member>, e: Entry)
    requires ValidMembers(ms) && FromMember(e, ms)
    ensures WritesMember(EntryText(e), e.key, ms)
    decreases ms, 1
  {
    var i :| 0 <= i < |ms| && e == Entry(ms[i].key, Canonical(ms[i].value));
    LiteralReadsBack(e.key);
    CanonicalWrites(ms[i].value);
    assert IsMember(EntryText(e), e.key, Quote(e.key), e.text, ms, i);
  }

  lemma {:induction false} MembersWrite(ms: seq<Member>)
    requires ValidMembers(ms)
    ensures Writes(Canonical(Object(ms)), Object(ms))
    decreases ms, 2
  {
    var es := Sort(Entries(ms));
    JoinIsCommas(es);
    SortIsAscending(Entries(ms));
    SortedFromMembers(ms);
    forall i, j | 0 <= i < j < |es| ensures Before(es[i].key, es[j].key) {
      LessIsBefore(es[i].key, es[j].key);
    }
    forall k | 0 <= k < |es| ensures WritesMember(EntryText(es[k]), es[k].key, ms) {
      MemberWrites(ms, es[k]);
    }
    assert WritesMembers(Canonical(Object(ms)), Keys(es), Texts(es), ms);
  }

  // --------------------------------------------------------------------- bytes

  /** The six low bits of a continuation byte. */
  function Bits(b: Utf8.Byte): Option<int> { if 0x80 <= b < 0xC0 then Some(b as int - 0x80) else None }

  /** The first code point of a byte text and what follows it (section 3 of RFC 3629). */
  function FirstPoint(t: Utf8.Bytes): Option<(int, Utf8.Bytes)> {
    if t == [] then None
    else if t[0] < 0x80 then Some((t[0] as int, t[1..]))
    else if 0xC0 <= t[0] < 0xE0 && |t| >= 2 && Bits(t[1]).Some? then
      Some(((t[0] as int - 0xC0) * 64 + Bits(t[1]).value, t[2..]))
    else if 0xE0 <= t[0] < 0xF0 && |t| >= 3 && Bits(t[1]).Some? && Bits(t[2]).Some? then
      Some((((t[0] as int - 0xE0) * 64 + Bits(t[1]).value) * 64 + Bits(t[2]).value, t[3..]))
    else if 0xF0 <= t[0] < 0xF8 && |t| >= 4 && Bits(t[1]).Some? && Bits(t[2]).Some? && Bits(t[3]).Some? then
      Some(((((t[0] as int - 0xF0) * 64 + Bits(t[1]).value) * 64 + Bits(t[2]).value) * 64 + Bits(t[3]).value, t[4..]))
    else None
  }

  /** A code point in UTF-16 (section 2.1 of RFC 2781). */
  function Units(p: int): Option<Text> {
    if 0 <= p < 0x1_0000 then Some([p as Unit])
    else if 0x1_0000 <= p < 0x11_0000 then
      Some([(0xD800 + (p - 0x1_0000) / 0x400) as Unit, (0xDC00 + (p - 0x1_0000) % 0x400) as Unit])
    else None
  }

  function Decode(t: Utf8.Bytes): Option<Text>
    decreases |t|
  {
    if t == [] then Some([])
    else
      match FirstPoint(t)
      case None => None
      case Some((p, rest)) =>
        if |rest| < |t| && Units(p).Some? && Decode(rest).Some? then Some(Units(p).value + Decode(rest).value) else None
  }

  lemma PointDecodes(p: Utf8.Point, r: Utf8.Bytes)
    ensures FirstPoint(Utf8.EncodePoint(p) + r) == Some((p, r))
  {
    var x := Utf8.EncodePoint(p);
    var t := x + r;
    assert forall i :: 0 <= i < |x| ==> t[i] == x[i];
    assert t[|x|..] == r;
  }

  lemma UnitsOfHead(c: Text)
    requires (IsPair(c) || |c| == 1) && !Lone(c)
    ensures Units(Utf8.PointOf(c)) == Some(c)
  {
    assert c == if IsPair(c) then [c[0], c[1]] else [c[0]];
  }

  /** A text without lone surrogates reads back from its bytes. */
  lemma {:induction false} BytesDecode(s: Text)
    requires WellFormed(s)
    ensures Decode(Utf8.Encode(s)) == Some(s)
    decreases |s|
  {
    if s != [] {
      BytesDecode(Tail(s));
      PointDecodes(Utf8.PointOf(Head(s)), Utf8.Encode(Tail(s)));
      UnitsOfHead(Head(s));
    }
  }

  /** The bytes in front of a digest are the JSON text of the value, keys ascending. */
  lemma FingerprintedBytesWrite(v: Json)
    requires Valid(v)
    ensures Decode(Utf8.Encode(Canonical(v))).Some? && Writes(Decode(Utf8.Encode(Canonical(v))).value, v)
  {
    CanonicalIsWellFormed(v);
    BytesDecode(Canonical(v));
    CanonicalWrites(v);
  }
}
