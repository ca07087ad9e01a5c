/**
  The ordinal order on strings and sorting by it, as the Go library's string sort does it: comparing
  UTF-8 bytes and comparing code points give the same order.
 */
module Ordering {
  predicate AtMost(a: string, b: string)
  {
    if a == [] then true
    else if b == [] then false
    else if a[0] == b[0] then AtMost(a[1..], b[1..])
    else a[0] < b[0]
  }

  lemma {:induction false} AtMostIsTotalOrder(a: string, b: string)
    ensures AtMost(a, a)
    ensures AtMost(a, b) || AtMost(b, a)
    ensures AtMost(a, b) && AtMost(b, a) ==> a == b
    decreases |a| + |b|
  {
    if a != [] {
      AtMostIsTotalOrder(a[1..], []);
      if b != [] {
        AtMostIsTotalOrder(a[1..], b[1..]);
        if a[0] == b[0] && a[1..] == b[1..] {
          assert a == [a[0]] + a[1..] == [b[0]] + b[1..] == b;
        }
      }
    }
  }

  /** The order is lexicographic: a prefix comes first, and otherwise the first difference decides. */
  lemma {:induction false} AtMostIsLexicographic(a: string, b: string, i: nat)
    requires i <= |a| && i <= |b| && a[..i] == b[..i]
    ensures i == |a| ==> AtMost(a, b)
    ensures i < |a| && i == |b| ==> !AtMost(a, b)
    ensures i < |a| && i < |b| && a[i] != b[i] ==> (AtMost(a, b) <==> a[i] < b[i])
  {
    if i != 0 {
      assert a[0] == a[..i][0] == b[..i][0] == b[0];
      assert a[1..][..i - 1] == a[..i][1..] && b[1..][..i - 1] == b[..i][1..];
      AtMostIsLexicographic(a[1..], b[1..], i - 1);
    }
  }

  lemma {:induction false} AtMostTransitive(a: string, b: string, c: string)
    requires AtMost(a, b) && AtMost(b, c)
    ensures AtMost(a, c)
  {
    if a != [] && a[0] == b[0] == c[0] {
      AtMostTransitive(a[1..], b[1..], c[1..]);
    }
  }

  ghost predicate Sorted(xs: seq<string>)
  {
    forall i, j :: 0 <= i < j < |xs| ==> AtMost(xs[i], xs[j])
  }

  /** Ascending without repeats. */
  ghost predicate StrictlySorted(xs: seq<string>)
  {
    Sorted(xs) && forall i, j :: 0 <= i < j < |xs| ==> xs[i] != xs[j]
  }

  function Insert(x: string, xs: seq<string>): seq<string>
  {
    if xs == [] || AtMost(x, xs[0]) then [x] + xs else [xs[0]] + Insert(x, xs[1..])
  }

  function Sort(xs: seq<string>): seq<string>
  {
    if xs == [] then [] else Insert(xs[0], Sort(xs[1..]))
  }

  lemma {:induction false} InsertKeepsSorted(x: string, xs: seq<string>)
    requires Sorted(xs)
    ensures Sorted(Insert(x, xs))
    ensures multiset(Insert(x, xs)) == multiset{x} + multiset(xs)
  {
    if xs == [] {
    } else if AtMost(x, xs[0]) {
      forall j | 0 <= j < |xs| ensures AtMost(x, xs[j]) {
        if 0 < j { AtMostTransitive(x, xs[0], xs[j]); }
      }
    } else {
      InsertKeepsSorted(x, xs[1..]);
      var r := Insert(x, xs[1..]);
      assert xs == [xs[0]] + xs[1..];
      AtMostIsTotalOrder(x, xs[0]);
      forall j | 0 <= j < |r| ensures AtMost(xs[0], r[j]) {
        assert r[j] in multiset(r);
        assert r[j] == x || r[j] in xs[1..];
      }
    }
  }

  lemma {:induction false} SortSorts(xs: seq<string>)
    ensures Sorted(Sort(xs)) && multiset(Sort(xs)) == multiset(xs)
  {
    if xs != [] {
      SortSorts(xs[1..]);
      InsertKeepsSorted(xs[0], Sort(xs[1..]));
      assert xs == [xs[0]] + xs[1..];
    }
  }

  lemma HeadIsLeast(a: seq<string>, x: string)
    requires Sorted(a) && x in a
    ensures AtMost(a[0], x)
  {
    AtMostIsTotalOrder(x, x);
  }

  lemma TailBag(a: seq<string>)
    requires a != []
    ensures multiset(a[1..]) == multiset(a) - multiset{a[0]}
  {
    assert a == [a[0]] + a[1..];
  }

  /** A bag of strings has exactly one sorted arrangement. */
  lemma {:induction false} SortedIsUnique(a: seq<string>, b: seq<string>)
    requires Sorted(a) && Sorted(b) && multiset(a) == multiset(b)
    ensures a == b
  {
    assert |a| == |multiset(a)| == |multiset(b)| == |b|;
    if a != [] {
      assert a[0] in multiset(a) && b[0] in multiset(b);
      HeadIsLeast(a, b[0]);
      HeadIsLeast(b, a[0]);
      AtMostIsTotalOrder(a[0], b[0]);
      TailBag(a);
      TailBag(b);
      SortedIsUnique(a[1..], b[1..]);
      assert a == [a[0]] + a[1..] && b == [b[0]] + b[1..];
    }
  }
}
