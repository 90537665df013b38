/** Splitting strings at a separator character, as Go's strings package does. */
module Strings {
  import opened Jobs

  /** What stands before and after the first occurrence of c. */
  function Cut(s: string, c: char): (r: Option<(string, string)>)
    ensures r.None? <==> c !in s
    ensures r.Some? ==> c !in r.value.0 && s == r.value.0 + [c] + r.value.1
  {
    if s == [] then None else
    if s[0] == c then Some(("", s[1..])) else
    match Cut(s[1..], c)
    case None => None
    case Some((b, a)) => Some(([s[0]] + b, a))
  }

  /** Cut undoes joining at a separator that the first part does not contain. */
  lemma {:induction false} CutJoined(a: string, c: char, x: string)
    requires c !in a
    ensures Cut(a + [c] + x, c) == Some((a, x))
  {
    var s := a + [c] + x;
    if a == [] {
      assert s[1..] == x;
    } else {
      CutJoined(a[1..], c, x);
      assert s[0] == a[0] && s[1..] == a[1..] + [c] + x;
      assert [a[0]] + a[1..] == a;
    }
  }

  lemma SameJoined(a: string, b: string, c: char, x: string, y: string)
    requires c !in a && c !in b && a + [c] + x == b + [c] + y
    ensures a == b && x == y
  {
    CutJoined(a, c, x);
    CutJoined(b, c, y);
  }

  lemma SamePrefix(p: string, x: string, y: string)
    requires p + x == p + y
    ensures x == y
  {
    assert x == (p + x)[|p|..] && y == (p + y)[|p|..];
  }

  lemma RegroupMiddle(a: string, b: string, c: string, d: string, e: string)
    ensures a + b + c + d + e == a + b + (c + d + e)
  {
  }

  lemma RegroupTail(a: string, b: string, c: string, d: string)
    ensures a + b + c + d == a + (b + (c + d))
  {
  }

  function Split(s: string, c: char): (r: seq<string>)
    ensures |r| >= 1
    decreases |s|
  {
    match Cut(s, c)
    case None => [s]
    case Some((b, a)) => [b] + Split(a, c)
  }

  lemma SplitJoined(a: string, c: char, x: string)
    requires c !in a
    ensures Split(a + [c] + x, c) == [a] + Split(x, c)
  {
    CutJoined(a, c, x);
  }

  /** No piece contains the separator, nor any character that the whole does not contain. */
  lemma {:induction false} PiecesAreFree(s: string, c: char, d: char, i: nat)
    requires i < |Split(s, c)|
    ensures c !in Split(s, c)[i]
    ensures d !in s ==> d !in Split(s, c)[i]
    decreases |s|
  {
    if Cut(s, c).Some? {
      if i > 0 { PiecesAreFree(Cut(s, c).value.1, c, d, i - 1); }
    }
  }

  /** unicode.IsSpace on the Latin-1 characters. */
  predicate IsSpace(c: char) { c in {'\t', '\n', '\U{0B}', '\U{0C}', '\r', ' ', '\U{85}', '\U{A0}'} }

  function TrimLeft(s: string): string {
    if s != [] && IsSpace(s[0]) then TrimLeft(s[1..]) else s
  }

  function TrimRight(s: string): string {
    if s != [] && IsSpace(s[|s| - 1]) then TrimRight(s[..|s| - 1]) else s
  }

  function TrimSpace(s: string): string { TrimRight(TrimLeft(s)) }

  /** How often c occurs. */
  function Occurrences(s: string, c: char): nat {
    if s == [] then 0 else (if s[0] == c then 1 else 0) + Occurrences(s[1..], c)
  }

  lemma {:induction false} OccurrencesAfter(a: string, c: char, x: string)
    requires c !in a
    ensures Occurrences(a + [c] + x, c) == 1 + Occurrences(x, c)
  {
    var s := a + [c] + x;
    if a == [] {
      assert s[1..] == x;
    } else {
      OccurrencesAfter(a[1..], c, x);
      assert s[0] == a[0] && s[1..] == a[1..] + [c] + x;
    }
  }

  lemma {:induction false} NoOccurrence(s: string, c: char)
    requires c !in s
    ensures Occurrences(s, c) == 0
  {
    if s != [] { NoOccurrence(s[1..], c); }
  }

  /** One piece more than there are separators. */
  lemma {:induction false} PiecesCounted(s: string, c: char)
    ensures |Split(s, c)| == Occurrences(s, c) + 1
    decreases |s|
  {
    match Cut(s, c)
    case None => NoOccurrence(s, c);
    case Some((b, a)) =>
      PiecesCounted(a, c);
      OccurrencesAfter(b, c, a);
  }

  predicate AllSpace(s: string) { forall i :: 0 <= i < |s| ==> IsSpace(s[i]) }

  lemma {:induction false} TrimLeftMeans(s: string) returns (a: string)
    ensures s == a + TrimLeft(s) && AllSpace(a)
    ensures TrimLeft(s) == "" || !IsSpace(TrimLeft(s)[0])
  {
    if s != [] && IsSpace(s[0]) {
      a := TrimLeftMeans(s[1..]);
      a := [s[0]] + a;
    } else {
      a := "";
    }
  }

  lemma {:induction false} TrimRightMeans(s: string) returns (b: string)
    ensures s == TrimRight(s) + b && AllSpace(b)
    ensures TrimRight(s) == "" || (!IsSpace(TrimRight(s)[|TrimRight(s)| - 1]) && TrimRight(s)[0] == s[0])
  {
    if s != [] && IsSpace(s[|s| - 1]) {
      b := TrimRightMeans(s[..|s| - 1]);
      b := b + [s[|s| - 1]];
    } else {
      b := "";
    }
  }

  /** TrimSpace takes off white space at both ends, all of it and nothing else. */
  lemma TrimSpaceMeans(s: string) returns (a: string, b: string)
    ensures s == a + TrimSpace(s) + b && AllSpace(a) && AllSpace(b)
    ensures TrimSpace(s) == "" || (!IsSpace(TrimSpace(s)[0]) && !IsSpace(TrimSpace(s)[|TrimSpace(s)| - 1]))
  {
    a := TrimLeftMeans(s);
    b := TrimRightMeans(TrimLeft(s));
    assert s == a + (TrimSpace(s) + b);
  }
}
