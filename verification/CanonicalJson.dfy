/** The canonical serialization behind message fingerprints: it identifies a JSON value up to the order of object keys.
    */
module CanonicalJson {
  import opened JsonText

  /** A number is its shortest decimal text, which differs for different finite numbers; NaN and the infinities, which a
      JavaScript number can be and a JSON number cannot, are one `NonFinite` value here. */
  datatype Json =
    | Null
    | Bool(value: bool)
    | Number(text: Text)
    | NonFinite
    | String(units: Text)
    | Array(items: seq<Json>)
    | Object(members: seq<Member>)

  datatype Member = Member(key: Text, value: Json)

  predicate Numeric(u: Unit) { 48 <= u <= 57 || u == 45 || u == 43 || u == 46 || u == 101 }

  predicate NumberText(t: Text) {
    t != [] && (t[0] == 45 || 48 <= t[0] <= 57) && forall i :: 0 <= i < |t| ==> Numeric(t[i])
  }

  predicate DistinctKeys(ms: seq<Member>) {
    forall i, j :: 0 <= i < j < |ms| ==> ms[i].key != ms[j].key
  }

  /** A JSON value, or one with non-finite numbers in it: numbers print as numbers, and no object has a key twice. */
  predicate Valid(v: Json)
    decreases v
  {
    match v
    case Number(t) => NumberText(t)
    case Array(items) => forall i :: 0 <= i < |items| ==> Valid(items[i])
    case Object(ms) => DistinctKeys(ms) && forall i :: 0 <= i < |ms| ==> Valid(ms[i].value)
    case _ => true
  }

  /** The same value up to the order of object keys; a non-finite number counts as null. */
  ghost predicate Same(a: Json, b: Json)
    decreases a
  {
    match a
    case Null => b.Null? || b.NonFinite?
    case NonFinite => b.Null? || b.NonFinite?
    case Array(xs) => b.Array? && |xs| == |b.items| && forall i :: 0 <= i < |xs| ==> Same(xs[i], b.items[i])
    case Object(ms) => b.Object? && Covers(ms, b.members) && CoveredBy(ms, b.members)
    case _ => a == b
  }

  /** Every member on the left has a counterpart on the right: the same key with the same value. */
  ghost predicate Covers(ms: seq<Member>, ns: seq<Member>)
    decreases ms, 2
  {
    forall i :: 0 <= i < |ms| ==> TwinOf(ms, i, ns)
  }

  /** And every member on the right has one on the left. */
  ghost predicate CoveredBy(ms: seq<Member>, ns: seq<Member>)
    decreases ms, 2
  {
    forall j :: 0 <= j < |ns| ==> TwinFor(ms, ns, j)
  }

  ghost predicate TwinOf(ms: seq<Member>, i: nat, ns: seq<Member>)
    requires i < |ms|
    decreases ms, 1
  {
    exists j :: 0 <= j < |ns| && SameMember(ms, i, ns, j)
  }

  ghost predicate TwinFor(ms: seq<Member>, ns: seq<Member>, j: nat)
    requires j < |ns|
    decreases ms, 1
  {
    exists i :: 0 <= i < |ms| && SameMember(ms, i, ns, j)
  }

  ghost predicate SameMember(ms: seq<Member>, i: nat, ns: seq<Member>, j: nat)
    requires i < |ms| && j < |ns|
    decreases ms, 0
  {
    ms[i].key == ns[j].key && Same(ms[i].value, ns[j].value)
  }

  // ------------------------------------------------------------ sorting by key

  /** A member already written out. */
  datatype Entry = Entry(key: Text, text: Text)

  predicate Less(a: Text, b: Text) {
    b != [] && (a == [] || a[0] < b[0] || (a[0] == b[0] && Less(a[1..], b[1..])))
  }

  lemma {:induction false} LessIsTotal(a: Text, b: Text)
    ensures (Less(a, b) || Less(b, a) || a == b) && !(Less(a, b) && Less(b, a)) && (a == b ==> !Less(a, b))
    decreases |a|
  {
    if a != [] && b != [] && a[0] == b[0] {
      LessIsTotal(a[1..], b[1..]);
      assert a == [a[0]] + a[1..] && b == [b[0]] + b[1..];
    }
  }

  lemma {:induction false} LessIsTransitive(a: Text, b: Text, c: Text)
    requires Less(a, b) && Less(b, c)
    ensures Less(a, c)
    decreases |a|
  {
    if a != [] && a[0] == b[0] && b[0] == c[0] { LessIsTransitive(a[1..], b[1..], c[1..]); }
  }

  function Insert(e: Entry, es: seq<Entry>): (r: seq<Entry>)
    ensures |r| == |es| + 1 && forall x :: x in r <==> x == e || x in es
  {
    if es == [] || Less(e.key, es[0].key) then [e] + es
    else
      var rest := Insert(e, es[1..]);
      assert forall x :: x in es <==> x == es[0] || x in es[1..];
      [es[0]] + rest
  }

  /** Ascending order of keys by code units. */
  function Sort(es: seq<Entry>): (r: seq<Entry>)
    ensures |r| == |es| && forall x :: x in r <==> x in es
  {
    if es == [] then []
    else
      assert forall x :: x in es <==> x == es[0] || x in es[1..];
      Insert(es[0], Sort(es[1..]))
  }

  predicate Ascending(es: seq<Entry>) {
    forall i, j :: 0 <= i < j < |es| ==> Less(es[i].key, es[j].key)
  }

  lemma {:induction false} InsertKeepsAscending(e: Entry, es: seq<Entry>)
    requires Ascending(es) && forall x :: x in es ==> x.key != e.key
    ensures Ascending(Insert(e, es))
    decreases |es|
  {
    if es == [] {
    } else if Less(e.key, es[0].key) {
      forall j | 0 <= j < |es| ensures Less(e.key, es[j].key) {
        if j > 0 { LessIsTransitive(e.key, es[0].key, es[j].key); }
      }
    } else {
      InsertKeepsAscending(e, es[1..]);
      LessIsTotal(e.key, es[0].key);
      assert es[0] in es;
      var rest := Insert(e, es[1..]);
      forall j | 0 <= j < |rest| ensures Less(es[0].key, rest[j].key) {
        assert rest[j] in rest;
        if rest[j] != e {
          var k :| 0 <= k < |es[1..]| && es[1..][k] == rest[j];
          assert es[k + 1] == rest[j];
        }
      }
    }
  }

  lemma {:induction false} SortIsAscending(es: seq<Entry>)
    requires forall i, j :: 0 <= i < j < |es| ==> es[i].key != es[j].key
    ensures Ascending(Sort(es))
    decreases |es|
  {
    if es != [] {
      SortIsAscending(es[1..]);
      forall x | x in Sort(es[1..]) ensures x.key != es[0].key {
        var k :| 0 <= k < |es[1..]| && es[1..][k] == x;
        assert es[k + 1] == x;
      }
      InsertKeepsAscending(es[0], Sort(es[1..]));
    }
  }

  lemma FirstIsLeast(s: seq<Entry>, x: Entry)
    requires s != [] && Ascending(s) && x in s
    ensures x == s[0] || Less(s[0].key, x.key)
  {
    var i :| 0 <= i < |s| && s[i] == x;
  }

  lemma {:induction false} AscendingIsUnique(s: seq<Entry>, t: seq<Entry>)
    requires Ascending(s) && Ascending(t) && forall x :: x in s <==> x in t
    ensures s == t
    decreases |s|
  {
    if s == [] {
      assert forall k :: 0 <= k < |t| ==> t[k] in t;
    } else {
      assert s[0] in t;
      assert t[0] in s;
      FirstIsLeast(s, t[0]);
      FirstIsLeast(t, s[0]);
      LessIsTotal(s[0].key, t[0].key);
      forall x ensures x in s[1..] <==> x in t[1..] {
        LessIsTotal(s[0].key, s[0].key);
        assert x in s <==> x == s[0] || x in s[1..];
        assert x in t <==> x == t[0] || x in t[1..];
        assert s[0] !in s[1..] && t[0] !in t[1..];
      }
      AscendingIsUnique(s[1..], t[1..]);
    }
  }

  // --------------------------------------------------------------- serializing

  const NULL: Text := Ascii("null")
  const TRUE: Text := Ascii("true")
  const FALSE: Text := Ascii("false")

  function Canonical(v: Json): Text
    decreases v
  {
    match v
    case Null => NULL
    case NonFinite => NULL
    case Bool(b) => if b then TRUE else FALSE
    case Number(t) => t
    case String(units) => Quote(units)
    case Array(items) => [OPEN_BRACKET] + Items(items) + [CLOSE_BRACKET]
    case Object(ms) => [OPEN_BRACE] + Join(Sort(Entries(ms))) + [CLOSE_BRACE]
  }

  function Items(items: seq<Json>): Text
    decreases items
  {
    if items == [] then []
    else if |items| == 1 then Canonical(items[0])
    else Canonical(items[0]) + [COMMA] + Items(items[1..])
  }

  function Entries(ms: seq<Member>): (r: seq<Entry>)
    ensures |r| == |ms| && forall i :: 0 <= i < |ms| ==> r[i] == Entry(ms[i].key, Canonical(ms[i].value))
    decreases ms
  {
    if ms == [] then [] else [Entry(ms[0].key, Canonical(ms[0].value))] + Entries(ms[1..])
  }

  function EntryText(e: Entry): Text { Quote(e.key) + [COLON] + e.text }

  function Join(es: seq<Entry>): Text {
    if es == [] then []
    else if |es| == 1 then EntryText(es[0])
    else EntryText(es[0]) + [COMMA] + Join(es[1..])
  }

  // ------------------------------------- the same value gives the same text

  lemma {:induction false} SameGivesSameText(a: Json, b: Json)
    requires Valid(a) && Valid(b) && Same(a, b)
    ensures Canonical(a) == Canonical(b)
    decreases a, 0
  {
    match a
    case Array(xs) => SameItems(xs, b.items);
    case Object(ms) => SameEntries(ms, b.members);
    case _ =>
  }

  lemma {:induction false} SameItems(xs: seq<Json>, ys: seq<Json>)
    requires |xs| == |ys| && forall i :: 0 <= i < |xs| ==> Valid(xs[i]) && Valid(ys[i]) && Same(xs[i], ys[i])
    ensures Items(xs) == Items(ys)
    decreases xs, 1
  {
    if xs != [] {
      SameGivesSameText(xs[0], ys[0]);
      SameItems(xs[1..], ys[1..]);
    }
  }

  ghost predicate ValidMembers(ms: seq<Member>) {
    DistinctKeys(ms) && forall i :: 0 <= i < |ms| ==> Valid(ms[i].value)
  }

  lemma {:induction false} SameEntries(ms: seq<Member>, ns: seq<Member>)
    requires ValidMembers(ms) && ValidMembers(ns) && Covers(ms, ns) && CoveredBy(ms, ns)
    ensures Sort(Entries(ms)) == Sort(Entries(ns))
    decreases ms, 1
  {
    var es, fs := Entries(ms), Entries(ns);
    forall x | x in es ensures x in fs {
      var i :| 0 <= i < |ms| && es[i] == x;
      assert TwinOf(ms, i, ns);
      var j :| 0 <= j < |ns| && SameMember(ms, i, ns, j);
      SameGivesSameText(ms[i].value, ns[j].value);
      assert fs[j] == x;
    }
    forall x | x in fs ensures x in es {
      var j :| 0 <= j < |ns| && fs[j] == x;
      assert TwinFor(ms, ns, j);
      var i :| 0 <= i < |ms| && SameMember(ms, i, ns, j);
      SameGivesSameText(ms[i].value, ns[j].value);
      assert es[i] == x;
    }
    SortIsAscending(es);
    SortIsAscending(fs);
    AscendingIsUnique(Sort(es), Sort(fs));
  }

  // ------------------------------------- the same text comes from the same value

  datatype Kind = KNull | KTrue | KFalse | KNumber | KString | KArray | KObject

  function KindOf(v: Json): Kind {
    match v
    case Null => KNull
    case NonFinite => KNull
    case Bool(b) => if b then KTrue else KFalse
    case Number(_) => KNumber
    case String(_) => KString
    case Array(_) => KArray
    case Object(_) => KObject
  }

  function KindOfUnit(u: Unit): Kind {
    if u == 110 then KNull else if u == 116 then KTrue else if u == 102 then KFalse
    else if u == QUOTE then KString else if u == OPEN_BRACKET then KArray else if u == OPEN_BRACE then KObject else KNumber
  }

  /** The first unit of a text tells the kind of its value, and none begins with a closing bracket. */
  lemma FirstUnitTellsKind(v: Json)
    requires Valid(v)
    ensures Canonical(v) != [] && KindOfUnit(Canonical(v)[0]) == KindOf(v) && Canonical(v)[0] != CLOSE_BRACKET
  {
    assert NULL[0] == 110 && TRUE[0] == 116 && FALSE[0] == 102;
  }

  /** Where a value can end: at the end of the text or before a comma or a closing bracket. */
  predicate Delimited(r: Text) { r == [] || r[0] == COMMA || r[0] == CLOSE_BRACKET || r[0] == CLOSE_BRACE }

  /** How many numeric units a text begins with. */
  function NumericRun(t: Text): nat {
    if t == [] || !Numeric(t[0]) then 0 else 1 + NumericRun(t[1..])
  }

  lemma {:induction false} RunEndsAtDelimiter(s: Text, r: Text)
    requires (forall i :: 0 <= i < |s| ==> Numeric(s[i])) && Delimited(r)
    ensures NumericRun(s + r) == |s|
    decreases |s|
  {
    if s == [] {
      assert s + r == r;
    } else {
      RunEndsAtDelimiter(s[1..], r);
      assert (s + r)[1..] == s[1..] + r;
    }
  }

  lemma NumbersAreDelimited(s: Text, t: Text, r: Text, q: Text)
    requires NumberText(s) && NumberText(t) && Delimited(r) && Delimited(q) && s + r == t + q
    ensures s == t && r == q
  {
    RunEndsAtDelimiter(s, r);
    RunEndsAtDelimiter(t, q);
    assert (s + r)[..|s|] == s && (t + q)[..|t|] == t;
    Cancel(s, r, q);
  }

  lemma Cancel(s: Text, r: Text, q: Text)
    requires s + r == s + q
    ensures r == q
  {
    assert (s + r)[|s|..] == r && (s + q)[|s|..] == q;
  }

  /** A canonical text in front of a delimiter ends where it ends and stands for one value only. */
  lemma {:induction false} SameTextGivesSame(a: Json, b: Json, r: Text, q: Text)
    requires Valid(a) && Valid(b) && Delimited(r) && Delimited(q) && Canonical(a) + r == Canonical(b) + q
    ensures Same(a, b) && r == q
    decreases a, 0
  {
    FirstUnitTellsKind(a);
    FirstUnitTellsKind(b);
    assert (Canonical(a) + r)[0] == Canonical(a)[0] && (Canonical(b) + q)[0] == Canonical(b)[0];
    match a
    case Number(s) => NumbersAreDelimited(s, b.text, r, q);
    case String(s) => QuoteIsPrefixFree(s, b.units, r, q);
    case Array(xs) => ArraysDiffer(xs, b.items, r, q);
    case Object(ms) => ObjectsDiffer(ms, b.members, r, q);
    case _ => Cancel(Canonical(a), r, q);
  }

  lemma {:induction false} ArraysDiffer(xs: seq<Json>, ys: seq<Json>, r: Text, q: Text)
    requires (forall i :: 0 <= i < |xs| ==> Valid(xs[i])) && (forall i :: 0 <= i < |ys| ==> Valid(ys[i]))
    requires [OPEN_BRACKET] + Items(xs) + [CLOSE_BRACKET] + r == [OPEN_BRACKET] + Items(ys) + [CLOSE_BRACKET] + q
    ensures |xs| == |ys| && (forall i :: 0 <= i < |xs| ==> Same(xs[i], ys[i])) && r == q
    decreases xs, 2
  {
    assert [OPEN_BRACKET] + Items(xs) + [CLOSE_BRACKET] + r == [OPEN_BRACKET] + (Items(xs) + [CLOSE_BRACKET] + r);
    assert [OPEN_BRACKET] + Items(ys) + [CLOSE_BRACKET] + q == [OPEN_BRACKET] + (Items(ys) + [CLOSE_BRACKET] + q);
    Cancel([OPEN_BRACKET], Items(xs) + [CLOSE_BRACKET] + r, Items(ys) + [CLOSE_BRACKET] + q);
    ItemsDiffer(xs, ys, r, q);
  }

  /** What follows the first of several items. */
  function AfterFirst(xs: seq<Json>, r: Text): Text
    requires xs != []
  {
    if |xs| == 1 then [CLOSE_BRACKET] + r else [COMMA] + (Items(xs[1..]) + [CLOSE_BRACKET] + r)
  }

  lemma ItemsUnfold(xs: seq<Json>, r: Text)
    requires xs != []
    ensures Items(xs) + [CLOSE_BRACKET] + r == Canonical(xs[0]) + AfterFirst(xs, r)
  {
  }

  lemma ItemsBegin(xs: seq<Json>, r: Text)
    requires forall i :: 0 <= i < |xs| ==> Valid(xs[i])
    ensures var x := Items(xs) + [CLOSE_BRACKET] + r; x != [] && (x[0] == CLOSE_BRACKET <==> xs == [])
  {
    if xs != [] {
      ItemsUnfold(xs, r);
      FirstUnitTellsKind(xs[0]);
      assert (Canonical(xs[0]) + AfterFirst(xs, r))[0] == Canonical(xs[0])[0];
    }
  }

  lemma {:induction false} ItemsDiffer(xs: seq<Json>, ys: seq<Json>, r: Text, q: Text)
    requires (forall i :: 0 <= i < |xs| ==> Valid(xs[i])) && (forall i :: 0 <= i < |ys| ==> Valid(ys[i]))
    requires Items(xs) + [CLOSE_BRACKET] + r == Items(ys) + [CLOSE_BRACKET] + q
    ensures |xs| == |ys| && (forall i :: 0 <= i < |xs| ==> Same(xs[i], ys[i])) && r == q
    decreases xs, 1
  {
    ItemsBegin(xs, r);
    ItemsBegin(ys, q);
    if xs == [] {
      assert Items(xs) + [CLOSE_BRACKET] + r == [CLOSE_BRACKET] + r;
      assert Items(ys) + [CLOSE_BRACKET] + q == [CLOSE_BRACKET] + q;
      Cancel([CLOSE_BRACKET], r, q);
    } else {
      ItemsUnfold(xs, r);
      ItemsUnfold(ys, q);
      SameTextGivesSame(xs[0], ys[0], AfterFirst(xs, r), AfterFirst(ys, q));
      assert AfterFirst(xs, r)[0] == (if |xs| == 1 then CLOSE_BRACKET else COMMA);
      assert AfterFirst(ys, q)[0] == (if |ys| == 1 then CLOSE_BRACKET else COMMA);
      if |xs| == 1 {
        Cancel([CLOSE_BRACKET], r, q);
      } else {
        Cancel([COMMA], Items(xs[1..]) + [CLOSE_BRACKET] + r, Items(ys[1..]) + [CLOSE_BRACKET] + q);
        ItemsDiffer(xs[1..], ys[1..], r, q);
        assert forall i :: 1 <= i < |xs| ==> xs[i] == xs[1..][i - 1] && ys[i] == ys[1..][i - 1];
      }
    }
  }

  /** The entry is a member of `ms` written out. */
  ghost predicate FromMember(e: Entry, ms: seq<Member>) {
    exists i :: 0 <= i < |ms| && e == Entry(ms[i].key, Canonical(ms[i].value))
  }

  function AfterEntry(es: seq<Entry>, r: Text): Text
    requires es != []
  {
    if |es| == 1 then [CLOSE_BRACE] + r else [COMMA] + (Join(es[1..]) + [CLOSE_BRACE] + r)
  }

  lemma Assoc(a: Text, b: Text, c: Text)
    ensures (a + b) + c == a + (b + c)
  {
  }

  lemma JoinUnfolds(es: seq<Entry>, r: Text)
    requires es != []
    ensures Join(es) + [CLOSE_BRACE] + r == Quote(es[0].key) + ([COLON] + (es[0].text + AfterEntry(es, r)))
  {
    var key, text, first, after := Quote(es[0].key), es[0].text, EntryText(es[0]), AfterEntry(es, r);
    if |es| == 1 {
      Assoc(first, [CLOSE_BRACE], r);
    } else {
      var rest := Join(es[1..]);
      Assoc(first + [COMMA], rest, [CLOSE_BRACE]);
      Assoc(first + [COMMA], rest + [CLOSE_BRACE], r);
      Assoc(first, [COMMA], rest + [CLOSE_BRACE] + r);
    }
    assert Join(es) + [CLOSE_BRACE] + r == first + after;
    Assoc(key + [COLON], text, after);
    Assoc(key, [COLON], text + after);
  }

  lemma JoinBegins(es: seq<Entry>, r: Text)
    ensures var x := Join(es) + [CLOSE_BRACE] + r; x != [] && (x[0] == CLOSE_BRACE <==> es == [])
  {
    if es != [] {
      JoinUnfolds(es, r);
      assert Quote(es[0].key)[0] == QUOTE;
    }
  }

  /** Two entries in front of delimiters, written from members of the two objects: they and what follows are equal. */
  lemma {:induction false} EntriesDiffer(ms: seq<Member>, e: Entry, ns: seq<Member>, f: Entry, r: Text, q: Text)
    requires ValidMembers(ms) && ValidMembers(ns) && FromMember(e, ms) && FromMember(f, ns)
    requires Delimited(r) && Delimited(q)
    requires Quote(e.key) + ([COLON] + (e.text + r)) == Quote(f.key) + ([COLON] + (f.text + q))
    ensures e == f && r == q
    decreases ms, 1
  {
    QuoteIsPrefixFree(e.key, f.key, [COLON] + (e.text + r), [COLON] + (f.text + q));
    Cancel([COLON], e.text + r, f.text + q);
    var i :| 0 <= i < |ms| && e == Entry(ms[i].key, Canonical(ms[i].value));
    var j :| 0 <= j < |ns| && f == Entry(ns[j].key, Canonical(ns[j].value));
    SameTextGivesSame(ms[i].value, ns[j].value, r, q);
    SameGivesSameText(ms[i].value, ns[j].value);
  }

  lemma {:induction false} JoinsDiffer(ms: seq<Member>, es: seq<Entry>, ns: seq<Member>, fs: seq<Entry>, r: Text, q: Text)
    requires ValidMembers(ms) && ValidMembers(ns)
    requires (forall i :: 0 <= i < |es| ==> FromMember(es[i], ms)) && (forall j :: 0 <= j < |fs| ==> FromMember(fs[j], ns))
    requires Join(es) + [CLOSE_BRACE] + r == Join(fs) + [CLOSE_BRACE] + q
    ensures es == fs && r == q
    decreases ms, 2, |es|
  {
    JoinBegins(es, r);
    JoinBegins(fs, q);
    if es == [] {
      assert Join(es) + [CLOSE_BRACE] + r == [CLOSE_BRACE] + r;
      assert Join(fs) + [CLOSE_BRACE] + q == [CLOSE_BRACE] + q;
      Cancel([CLOSE_BRACE], r, q);
    } else {
      JoinUnfolds(es, r);
      JoinUnfolds(fs, q);
      EntriesDiffer(ms, es[0], ns, fs[0], AfterEntry(es, r), AfterEntry(fs, q));
      assert AfterEntry(es, r)[0] == (if |es| == 1 then CLOSE_BRACE else COMMA);
      assert AfterEntry(fs, q)[0] == (if |fs| == 1 then CLOSE_BRACE else COMMA);
      if |es| == 1 {
        Cancel([CLOSE_BRACE], r, q);
      } else {
        Cancel([COMMA], Join(es[1..]) + [CLOSE_BRACE] + r, Join(fs[1..]) + [CLOSE_BRACE] + q);
        JoinsDiffer(ms, es[1..], ns, fs[1..], r, q);
      }
    }
  }

  lemma SortedFromMembers(ms: seq<Member>)
    ensures forall i :: 0 <= i < |ms| ==> FromMember(Sort(Entries(ms))[i], ms)
  {
    var es := Entries(ms);
    forall i | 0 <= i < |ms| ensures FromMember(Sort(es)[i], ms) {
      assert Sort(es)[i] in es;
    }
  }

  lemma BracesCancel(j: Text, k: Text, r: Text, q: Text)
    requires [OPEN_BRACE] + j + [CLOSE_BRACE] + r == [OPEN_BRACE] + k + [CLOSE_BRACE] + q
    ensures j + [CLOSE_BRACE] + r == k + [CLOSE_BRACE] + q
  {
    assert [OPEN_BRACE] + j + [CLOSE_BRACE] + r == [OPEN_BRACE] + (j + [CLOSE_BRACE] + r);
    assert [OPEN_BRACE] + k + [CLOSE_BRACE] + q == [OPEN_BRACE] + (k + [CLOSE_BRACE] + q);
    Cancel([OPEN_BRACE], j + [CLOSE_BRACE] + r, k + [CLOSE_BRACE] + q);
  }

  lemma {:induction false} ObjectsDiffer(ms: seq<Member>, ns: seq<Member>, r: Text, q: Text)
    requires ValidMembers(ms) && ValidMembers(ns)
    requires [OPEN_BRACE] + Join(Sort(Entries(ms))) + [CLOSE_BRACE] + r
             == [OPEN_BRACE] + Join(Sort(Entries(ns))) + [CLOSE_BRACE] + q
    ensures Covers(ms, ns) && CoveredBy(ms, ns) && r == q
    decreases ms, 3
  {
    BracesCancel(Join(Sort(Entries(ms))), Join(Sort(Entries(ns))), r, q);
    SortedFromMembers(ms);
    SortedFromMembers(ns);
    JoinsDiffer(ms, Sort(Entries(ms)), ns, Sort(Entries(ns)), r, q);
    MembersMatch(ms, ns);
  }

  lemma {:induction false} MembersMatch(ms: seq<Member>, ns: seq<Member>)
    requires ValidMembers(ms) && ValidMembers(ns) && Sort(Entries(ms)) == Sort(Entries(ns))
    ensures Covers(ms, ns) && CoveredBy(ms, ns)
    decreases ms, 1
  {
    var es, fs := Entries(ms), Entries(ns);
    forall i | 0 <= i < |ms| ensures TwinOf(ms, i, ns) {
      assert es[i] in Sort(es);
      assert es[i] in fs;
      var j :| 0 <= j < |fs| && fs[j] == es[i];
      SameTextGivesSame(ms[i].value, ns[j].value, [], []);
      assert SameMember(ms, i, ns, j);
    }
    forall j | 0 <= j < |ns| ensures TwinFor(ms, ns, j) {
      assert fs[j] in Sort(fs);
      assert fs[j] in es;
      var i :| 0 <= i < |es| && es[i] == fs[j];
      SameTextGivesSame(ms[i].value, ns[j].value, [], []);
      assert SameMember(ms, i, ns, j);
    }
  }

  /** Two values serialize alike exactly when they are the same up to the order of object keys. */
  lemma CanonicalIdentifies(a: Json, b: Json)
    requires Valid(a) && Valid(b)
    ensures Canonical(a) == Canonical(b) <==> Same(a, b)
  {
    if Canonical(a) == Canonical(b) { SameTextGivesSame(a, b, [], []); }
    if Same(a, b) { SameGivesSameText(a, b); }
  }

  // --------------------------------------------- no lone surrogate is written

  /** Canonical texts survive encoding: they hold no lone surrogate, whatever the strings in them hold. */
  lemma {:induction false} CanonicalIsWellFormed(v: Json)
    requires Valid(v)
    ensures WellFormed(Canonical(v))
    decreases v, 0
  {
    match v
    case Number(s) => PlainIsWellFormed(s);
    case String(s) => QuoteIsWellFormed(s);
    case Array(xs) =>
      ItemsAreWellFormed(xs);
      Enclosed(OPEN_BRACKET, Items(xs), CLOSE_BRACKET);
    case Object(ms) =>
      EntriesAreWellFormed(ms);
      JoinIsWellFormed(Sort(Entries(ms)));
      Enclosed(OPEN_BRACE, Join(Sort(Entries(ms))), CLOSE_BRACE);
    case _ => PlainIsWellFormed(Canonical(v));
  }

  lemma Enclosed(left: Unit, inner: Text, right: Unit)
    requires left < 0xD800 && right < 0xD800 && WellFormed(inner)
    ensures WellFormed([left] + inner + [right])
  {
    PlainIsWellFormed([left]);
    PlainIsWellFormed([right]);
    WellFormedParts([left], inner);
    WellFormedParts([left] + inner, [right]);
  }

  lemma Separated(first: Text, separator: Unit, rest: Text)
    requires separator < 0xD800 && WellFormed(first) && WellFormed(rest)
    ensures WellFormed(first + [separator] + rest)
  {
    PlainIsWellFormed([separator]);
    WellFormedParts(first, [separator]);
    WellFormedParts(first + [separator], rest);
  }

  lemma {:induction false} ItemsAreWellFormed(xs: seq<Json>)
    requires forall i :: 0 <= i < |xs| ==> Valid(xs[i])
    ensures WellFormed(Items(xs))
    decreases xs, 1
  {
    if xs != [] {
      CanonicalIsWellFormed(xs[0]);
      ItemsAreWellFormed(xs[1..]);
      if |xs| > 1 { Separated(Canonical(xs[0]), COMMA, Items(xs[1..])); }
    }
  }

  lemma {:induction false} EntriesAreWellFormed(ms: seq<Member>)
    requires forall i :: 0 <= i < |ms| ==> Valid(ms[i].value)
    ensures forall e :: e in Entries(ms) ==> WellFormed(e.text)
    decreases ms, 1
  {
    forall e | e in Entries(ms) ensures WellFormed(e.text) {
      var i :| 0 <= i < |ms| && Entries(ms)[i] == e;
      CanonicalIsWellFormed(ms[i].value);
    }
  }

  lemma {:induction false} JoinIsWellFormed(es: seq<Entry>)
    requires forall e :: e in es ==> WellFormed(e.text)
    ensures WellFormed(Join(es))
    decreases |es|
  {
    if es != [] {
      QuoteIsWellFormed(es[0].key);
      assert es[0] in es;
      Separated(Quote(es[0].key), COLON, es[0].text);
      forall e | e in es[1..] ensures e in es {
      }
      JoinIsWellFormed(es[1..]);
      if |es| > 1 { Separated(EntryText(es[0]), COMMA, Join(es[1..])); }
    }
  }
}
