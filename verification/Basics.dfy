/** Strings as the program sees them, their sort order, and a few sequence helpers. */
module Basics {

  datatype Option<+T> = None | Some(value: T)

  /** A program string is a sequence of Unicode code points, surrogates included. */
  type CodePoint = c: int | 0 <= c < 0x110000
  type Str = seq<CodePoint>

  /** The program string for a literal. */
  function Lit(s: string): Str {
    seq(|s|, i requires 0 <= i < |s| => s[i] as int)
  }

  /** Code-point order, the order in which the program sorts keys and lists of strings. */
  predicate Less(a: Str, b: Str) {
    |b| > 0 && (|a| == 0 || a[0] < b[0] || (a[0] == b[0] && Less(a[1..], b[1..])))
  }

  lemma {:induction false} LessTotal(a: Str, b: Str)
    ensures Less(a, b) || a == b || Less(b, a)
    ensures !(Less(a, b) && Less(b, a)) && !Less(a, a)
    decreases |a|
  {
    if |a| > 0 {
      LessTotal(a[1..], a[1..]);
      if |b| > 0 {
        LessTotal(a[1..], b[1..]);
        assert a == [a[0]] + a[1..] && b == [b[0]] + b[1..];
      }
    }
  }

  lemma {:induction false} LessTransitive(a: Str, b: Str, c: Str)
    requires Less(a, b) && Less(b, c)
    ensures Less(a, c)
    decreases |a|
  {
    if |a| > 0 && a[0] == b[0] == c[0] {
      LessTransitive(a[1..], b[1..], c[1..]);
    }
  }

  lemma {:induction false} LessDiffers(a: Str, b: Str) returns (k: nat)
    requires Less(a, b)
    ensures k <= |a| && k < |b| && a[..k] == b[..k] && (k == |a| || a[k] < b[k])
    decreases |a|
  {
    k := 0;
    if a != [] && a[0] == b[0] {
      var rest := LessDiffers(a[1..], b[1..]);
      k := rest + 1;
      assert a[..k] == [a[0]] + a[1..][..rest] == b[..k];
    }
  }

  lemma {:induction false} DiffersIsLess(a: Str, b: Str, k: nat)
    requires k <= |a| && k < |b| && a[..k] == b[..k] && (k == |a| || a[k] < b[k])
    ensures Less(a, b)
    decreases k
  {
    if k > 0 {
      assert a[0] == a[..k][0] == b[..k][0] == b[0];
      assert a[1..][..k - 1] == a[..k][1..] == b[..k][1..] == b[1..][..k - 1];
      DiffersIsLess(a[1..], b[1..], k - 1);
    }
  }

  /** The order is the dictionary's: the first place where the strings differ, or the end of the shorter, decides. */
  lemma LessIsDictionaryOrder(a: Str, b: Str)
    ensures Less(a, b) <==>
              exists k: nat :: k <= |a| && k < |b| && a[..k] == b[..k] && (k == |a| || a[k] < b[k])
  {
    if Less(a, b) { var k := LessDiffers(a, b); }
    if k: nat :| k <= |a| && k < |b| && a[..k] == b[..k] && (k == |a| || a[k] < b[k]) { DiffersIsLess(a, b, k); }
  }

  ghost predicate Ascending(xs: seq<Str>) {
    forall i, j :: 0 <= i < j < |xs| ==> Less(xs[i], xs[j])
  }

  /** Code-point order, spelled out. */
  ghost predicate Precedes(a: Str, b: Str) {
    exists k: nat :: k <= |a| && k < |b| && a[..k] == b[..k] && (k == |a| || a[k] < b[k])
  }

  ghost predicate DictionarySorted(xs: seq<Str>) {
    forall i, j :: 0 <= i < j < |xs| ==> Precedes(xs[i], xs[j])
  }

  lemma AscendingIsDictionarySorted(xs: seq<Str>)
    ensures Ascending(xs) <==> DictionarySorted(xs)
  {
    forall i, j | 0 <= i < j < |xs| ensures Less(xs[i], xs[j]) <==> Precedes(xs[i], xs[j]) {
      LessIsDictionaryOrder(xs[i], xs[j]);
    }
  }

  /** A list ascends if each element is less than the next. */
  lemma {:induction false} StepsAscend(xs: seq<Str>)
    requires forall i :: 0 <= i < |xs| - 1 ==> Less(xs[i], xs[i + 1])
    ensures Ascending(xs)
  {
    if |xs| > 1 {
      var n := |xs| - 1;
      StepsAscend(xs[..n]);
      assert Less(xs[n - 1], xs[n - 1 + 1]);
      forall i | 0 <= i < n - 1 ensures Less(xs[i], xs[n]) {
        assert Less(xs[..n][i], xs[..n][n - 1]);
        LessTransitive(xs[i], xs[n - 1], xs[n]);
      }
    }
  }

  /** A sorted list of distinct strings is determined by its elements. */
  lemma {:induction false} AscendingUnique(xs: seq<Str>, ys: seq<Str>)
    requires Ascending(xs) && Ascending(ys)
    requires forall x :: x in xs <==> x in ys
    ensures xs == ys
  {
    if |ys| > 0 { assert ys[0] in ys; }
    if xs != [] {
      assert xs[0] in ys;
      assert ys[0] in xs;
      var i :| 0 <= i < |ys| && ys[i] == xs[0];
      var j :| 0 <= j < |xs| && xs[j] == ys[0];
      LessTotal(xs[0], ys[0]);
      assert xs[0] == ys[0];
      forall x ensures x in xs[1..] <==> x in ys[1..] {
        LessTotal(x, x);
        if x in xs[1..] { assert x in ys; }
        if x in ys[1..] { assert x in xs; }
      }
      AscendingUnique(xs[1..], ys[1..]);
      assert xs == [xs[0]] + xs[1..] && ys == [ys[0]] + ys[1..];
    }
  }

  /** Insertion into a sorted list of distinct strings. */
  function Insert(x: Str, xs: seq<Str>): seq<Str> {
    if xs == [] || Less(x, xs[0]) then [x] + xs
    else if x == xs[0] then xs
    else [xs[0]] + Insert(x, xs[1..])
  }

  lemma {:induction false} InsertSorts(x: Str, xs: seq<Str>)
    requires Ascending(xs)
    ensures Ascending(Insert(x, xs))
    ensures forall y :: y in Insert(x, xs) <==> y == x || y in xs
  {
    if xs == [] {
    } else if Less(x, xs[0]) {
      forall i | 0 < i < |xs| ensures Less(x, xs[i]) { LessTransitive(x, xs[0], xs[i]); }
    } else if x != xs[0] {
      LessTotal(x, xs[0]);
      InsertSorts(x, xs[1..]);
      assert xs == [xs[0]] + xs[1..];
      forall y | y in Insert(x, xs[1..]) ensures Less(xs[0], y) {
        assert y == x || y in xs[1..];
      }
    }
  }

  /** The distinct strings of a list, sorted. */
  function Sorted(xs: seq<Str>): seq<Str> {
    if xs == [] then [] else Insert(xs[|xs| - 1], Sorted(xs[..|xs| - 1]))
  }

  lemma {:induction false} SortedExact(xs: seq<Str>)
    ensures Ascending(Sorted(xs))
    ensures forall x :: x in Sorted(xs) <==> x in xs
  {
    if xs != [] {
      var n := |xs| - 1;
      SortedExact(xs[..n]);
      InsertSorts(xs[n], Sorted(xs[..n]));
      assert xs == xs[..n] + [xs[n]];
    }
  }

  /** The program's `sorted` applied to a set of strings. */
  method SortedList(s: set<Str>) returns (r: seq<Str>)
    ensures Ascending(r)
    ensures forall x :: x in r <==> x in s
  {
    r := [];
    var todo := s;
    while todo != {}
      invariant todo <= s
      invariant Ascending(r)
      invariant forall x :: x in r <==> x in s && x !in todo
      decreases todo
    {
      var x :| x in todo;
      InsertSorts(x, r);
      r := Insert(x, r);
      todo := todo - {x};
    }
  }

  function Filter<T>(keep: T -> bool, xs: seq<T>): (r: seq<T>) {
    if xs == [] then []
    else Filter(keep, xs[..|xs| - 1]) + (if keep(xs[|xs| - 1]) then [xs[|xs| - 1]] else [])
  }

  lemma {:induction false} FilterSnoc<T>(keep: T -> bool, xs: seq<T>, x: T)
    ensures Filter(keep, xs + [x]) == Filter(keep, xs) + (if keep(x) then [x] else [])
  {
    assert (xs + [x])[..|xs|] == xs;
  }

  /** Every element is matched by the one at its place in the other list. */
  ghost predicate Matched<A, B>(matches: (A, B) -> bool, xs: seq<A>, ys: seq<B>) {
    |xs| <= |ys| && forall i :: 0 <= i < |xs| ==> matches(xs[i], ys[i])
  }

  lemma MatchedSnoc<A, B>(matches: (A, B) -> bool, xs: seq<A>, ys: seq<B>, x: A)
    requires Matched(matches, xs, ys) && |xs| < |ys| && matches(x, ys[|xs|])
    ensures Matched(matches, xs + [x], ys)
  {
  }

  function Sum(xs: seq<int>): int {
    if xs == [] then 0 else Sum(xs[..|xs| - 1]) + xs[|xs| - 1]
  }

  function Max(a: int, b: int): int { if a < b then b else a }
  function Min(a: int, b: int): int { if a < b then a else b }
}
