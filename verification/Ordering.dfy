/** Strictly increasing sequences of keys. */
module Ordering {

  ghost predicate Sorted(s: seq<int>) {
    forall i, j :: 0 <= i < j < |s| ==> s[i] < s[j]
  }

  ghost predicate AllBelow(s: seq<int>, x: int) {
    forall i :: 0 <= i < |s| ==> s[i] < x
  }

  ghost predicate AllAbove(s: seq<int>, x: int) {
    forall i :: 0 <= i < |s| ==> x < s[i]
  }

  /** A sequence around a key is sorted exactly when both parts are, on their sides of the key. */
  lemma SortedAround(a: seq<int>, e: int, b: seq<int>)
    ensures Sorted(a + [e] + b) <==> Sorted(a) && Sorted(b) && AllBelow(a, e) && AllAbove(b, e)
  {
    var s := a + [e] + b;
    assert s[|a|] == e;
    if Sorted(s) {
      assert forall i :: 0 <= i < |a| ==> a[i] == s[i];
      assert forall i :: 0 <= i < |b| ==> b[i] == s[|a| + 1 + i];
    }
    if Sorted(a) && Sorted(b) && AllBelow(a, e) && AllAbove(b, e) {
      forall i, j | 0 <= i < j < |s| ensures s[i] < s[j] {
        if i < |a| && j > |a| { assert s[i] < e < s[j]; }
      }
    }
  }

  /** One step down to the left: the key and everything after it stay above x. */
  lemma StepLeft(b: seq<int>, l: seq<int>, e: int, r: seq<int>, a: seq<int>, x: int)
    requires Sorted(b + (l + [e] + r) + a) && x < e
    ensures AllAbove([e] + r + a, x)
  {
    assert b + (l + [e] + r) + a == (b + l) + [e] + (r + a);
    SortedAround(b + l, e, r + a);
    var s := [e] + r + a;
    assert s == [e] + (r + a);
    assert forall i :: 1 <= i < |s| ==> s[i] == (r + a)[i - 1];
  }

  /** One step down to the right: the key and everything before it stay below x. */
  lemma StepRight(b: seq<int>, l: seq<int>, e: int, r: seq<int>, a: seq<int>, x: int)
    requires Sorted(b + (l + [e] + r) + a) && e < x
    ensures AllBelow(b + l + [e], x)
  {
    assert b + (l + [e] + r) + a == (b + l) + [e] + (r + a);
    SortedAround(b + l, e, r + a);
  }

  lemma SortedHalves(b: seq<int>, a: seq<int>)
    requires Sorted(b + a)
    ensures Sorted(b) && Sorted(a)
  {
    var s := b + a;
    assert forall i :: 0 <= i < |b| ==> b[i] == s[i];
    assert forall i :: 0 <= i < |a| ==> a[i] == s[|b| + i];
  }

  // ----- The key nearest to a place in the order -----

  /** e is the key nearest to x: x itself if present, otherwise a neighbour of the gap where x belongs. */
  ghost predicate Nearest(e: int, x: int, keys: seq<int>) {
    e in keys && forall i :: 0 <= i < |keys| ==> !(e < keys[i] <= x) && !(x <= keys[i] < e)
  }

  lemma GapIsNearest(a: seq<int>, e: int, b: seq<int>, x: int)
    requires Sorted(a + [e] + b) && (e == x || (x < e && AllBelow(a, x)) || (e < x && AllAbove(b, x)))
    ensures Nearest(e, x, a + [e] + b)
  {
    var k := a + [e] + b;
    SortedAround(a, e, b);
    assert k[|a|] == e;
    forall i | 0 <= i < |k| ensures !(e < k[i] <= x) && !(x <= k[i] < e) {
      if i < |a| { assert k[i] == a[i]; } else if i > |a| { assert k[i] == b[i - |a| - 1]; }
    }
  }

  lemma NearestSplits(a: seq<int>, e: int, b: seq<int>, x: int)
    requires Sorted(a + [e] + b) && Nearest(e, x, a + [e] + b)
    ensures x < e ==> AllBelow(a, x)
    ensures e < x ==> AllAbove(b, x)
  {
    var k := a + [e] + b;
    SortedAround(a, e, b);
    assert forall i :: 0 <= i < |a| ==> a[i] == k[i];
    assert forall i :: 0 <= i < |b| ==> b[i] == k[|a| + 1 + i];
  }

  /** Everything is below x, so the nearest key is the last. */
  lemma NearestIsLast(a: seq<int>, e: int, b: seq<int>, x: int)
    requires Sorted(a + [e] + b) && Nearest(e, x, a + [e] + b) && AllBelow(a + [e] + b, x)
    ensures b == []
  {
    NearestSplits(a, e, b, x);
    BelowParts(a + [e], b, x);
    assert (a + [e])[|a|] == e;
    if b != [] { OneSided(b, x); }
  }

  lemma BelowParts(a: seq<int>, b: seq<int>, x: int)
    requires AllBelow(a + b, x)
    ensures AllBelow(a, x) && AllBelow(b, x)
  {
    var s := a + b;
    assert forall i :: 0 <= i < |a| ==> a[i] == s[i];
    assert forall i :: 0 <= i < |b| ==> b[i] == s[|a| + i];
  }

  lemma OneSided(b: seq<int>, x: int)
    requires b != [] && AllBelow(b, x)
    ensures !AllAbove(b, x)
  {
    assert b[0] < x;
  }
}
