/** Substring search through SQL's LIKE: escaping the search text makes its wildcards ordinary characters. Characters
    compare after `fold`, the case folding of ILIKE, which may be any function. */
module LikePattern {

  const ANY: char := '%'
  const ONE: char := '_'
  const ESCAPE: char := '\\'

  predicate Special(c: char) { c == ANY || c == ONE || c == ESCAPE }

  /** The whole of `t` matches the pattern. A pattern that ends in its escape character, which SQL rejects, matches
      nothing. */
  predicate Like(fold: char -> char, p: string, t: string)
    decreases |p| + |t|
  {
    if p == "" then t == ""
    else if p[0] == ANY then Like(fold, p[1..], t) || (t != "" && Like(fold, p, t[1..]))
    else if p[0] == ONE then t != "" && Like(fold, p[1..], t[1..])
    else if p[0] == ESCAPE then |p| >= 2 && t != "" && fold(p[1]) == fold(t[0]) && Like(fold, p[2..], t[1..])
    else t != "" && fold(p[0]) == fold(t[0]) && Like(fold, p[1..], t[1..])
  }

  function EscapeLike(s: string): string {
    if s == "" then "" else (if Special(s[0]) then [ESCAPE, s[0]] else [s[0]]) + EscapeLike(s[1..])
  }

  /** `s` occurs in `t` at position `i`, up to folding. */
  predicate OccursAt(fold: char -> char, s: string, t: string, i: nat) {
    i + |s| <= |t| && forall k :: 0 <= k < |s| ==> fold(s[k]) == fold(t[i + k])
  }

  lemma OccursFromNext(fold: char -> char, s: string, t: string)
    requires s != "" && t != ""
    ensures OccursAt(fold, s, t, 0) <==> fold(s[0]) == fold(t[0]) && OccursAt(fold, s[1..], t[1..], 0)
  {
    if fold(s[0]) == fold(t[0]) && OccursAt(fold, s[1..], t[1..], 0) {
      assert forall k :: 1 <= k < |s| ==> s[k] == s[1..][k - 1] && t[k] == t[1..][k - 1];
    }
  }

  /** An escaped text consumes exactly its own characters. */
  lemma {:induction false} EscapedMatchesItself(fold: char -> char, s: string, q: string, t: string)
    ensures Like(fold, EscapeLike(s) + q, t) <==> OccursAt(fold, s, t, 0) && Like(fold, q, t[|s|..])
    decreases |s|
  {
    var p := EscapeLike(s) + q;
    if s == "" {
      assert p == q && t[0..] == t;
    } else if t != "" {
      EscapedMatchesItself(fold, s[1..], q, t[1..]);
      var n := if Special(s[0]) then 2 else 1;
      assert p[n..] == EscapeLike(s[1..]) + q;
      OccursFromNext(fold, s, t);
      if |s| <= |t| { assert t[1..][|s| - 1..] == t[|s|..]; }
    }
  }

  /** A leading % skips any number of characters. */
  lemma {:induction false} AnySkips(fold: char -> char, p: string, t: string)
    ensures Like(fold, [ANY] + p, t) <==> exists i :: 0 <= i <= |t| && Like(fold, p, t[i..])
    decreases |t|
  {
    assert ([ANY] + p)[1..] == p && t[0..] == t;
    if t != "" {
      AnySkips(fold, p, t[1..]);
      assert forall i :: 0 <= i <= |t| - 1 ==> t[1..][i..] == t[i + 1..];
      assert forall i :: 1 <= i <= |t| ==> t[i..] == t[1..][i - 1..];
    }
  }

  /** Underscores match as many characters as they are, whichever. */
  lemma {:induction false} OnesMatchTheLength(fold: char -> char, p: string, t: string)
    requires forall i :: 0 <= i < |p| ==> p[i] == ONE
    ensures Like(fold, p, t) <==> |t| == |p|
    decreases |p|
  {
    if p != "" && t != "" { OnesMatchTheLength(fold, p[1..], t[1..]); }
  }

  lemma AnyMatchesAll(fold: char -> char, t: string)
    ensures Like(fold, [ANY], t)
  {
    AnySkips(fold, "", t);
    assert t[|t|..] == "";
    assert [ANY] + "" == [ANY];
  }

  /** The pattern of the list query finds exactly the rows whose text contains the search text. */
  lemma SearchFindsSubstrings(fold: char -> char, s: string, t: string)
    ensures Like(fold, [ANY] + EscapeLike(s) + [ANY], t) <==> exists i: nat :: OccursAt(fold, s, t, i)
  {
    var p := EscapeLike(s) + [ANY];
    assert [ANY] + EscapeLike(s) + [ANY] == [ANY] + p;
    AnySkips(fold, p, t);
    forall i | 0 <= i <= |t| ensures Like(fold, p, t[i..]) <==> OccursAt(fold, s, t, i) {
      EscapedMatchesItself(fold, s, [ANY], t[i..]);
      if i + |s| <= |t| { AnyMatchesAll(fold, t[i..][|s|..]); }
    }
  }
}
