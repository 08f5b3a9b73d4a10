/** Optimal ordering of a chain of matrix multiplications, DSAAC/fig10_46.c. */
module OptMatrix {

  const INFINITY := 0x7fff_ffff  // INT_MAX

  // ----- Ways to multiply a run of matrices, and their cost -----

  /** An order of multiplication of consecutive matrices, numbered from 1. */
  datatype Order = One(index: int) | Product(left: Order, right: Order) {
    function First(): int {
      match this case One(i) => i case Product(a, _) => a.First()
    }
    function Last(): int {
      match this case One(i) => i case Product(_, b) => b.Last()
    }
    predicate Contiguous() {
      match this
      case One(_) => true
      case Product(a, b) => a.Contiguous() && b.Contiguous() && a.Last() + 1 == b.First()
    }
  }

  predicate Covers(t: Order, l: int, r: int) {
    t.Contiguous() && t.First() == l && t.Last() == r
  }

  lemma {:induction false} CoversNonempty(t: Order)
    requires t.Contiguous()
    ensures t.First() <= t.Last()
  {
    match t
    case One(_) =>
    case Product(a, b) => CoversNonempty(a); CoversNonempty(b);
  }

  /** c[i] is the number of columns of matrix i, c[0] the number of rows of matrix 1. */
  ghost predicate Range(c: seq<int>, l: int, r: int) {
    1 <= l <= r < |c| && forall i :: 0 <= i < |c| ==> c[i] >= 0
  }

  /** Multiplications done: those of both halves, plus rows times inner size times columns. */
  ghost function Cost(c: seq<int>, t: Order): int
    requires t.Contiguous() && Range(c, t.First(), t.Last())
    decreases t
  {
    match t
    case One(_) => 0
    case Product(a, b) =>
      CoversNonempty(a);
      CoversNonempty(b);
      Cost(c, a) + Cost(c, b) + c[a.First() - 1] * c[a.Last()] * c[b.Last()]
  }

  ghost predicate Costs(c: seq<int>, t: Order, l: int, r: int, m: int)
    requires Range(c, l, r)
  {
    Covers(t, l, r) && Cost(c, t) == m
  }

  /** m is the least cost over all ways to multiply matrices l to r. */
  ghost predicate IsOptimal(c: seq<int>, l: int, r: int, m: int)
    requires Range(c, l, r)
  {
    (exists t :: Costs(c, t, l, r, m)) && forall t :: Covers(t, l, r) ==> Cost(c, t) >= m
  }

  // ----- The recurrence -----

  ghost function Best(c: seq<int>, l: int, r: int): int
    requires Range(c, l, r)
    decreases r - l, 0, 0
  {
    if l == r then 0 else BestSplit(c, l, r, r)
  }

  /** The cost when the last multiplication joins l..k with k+1..r. */
  ghost function At(c: seq<int>, l: int, r: int, k: int): int
    requires Range(c, l, r) && l <= k < r
    decreases r - l - 1, 2, 0
  {
    Best(c, l, k) + Best(c, k + 1, r) + c[l - 1] * c[k] * c[r]
  }

  /** The best cost when the last multiplication splits before i. */
  ghost function BestSplit(c: seq<int>, l: int, r: int, i: int): int
    requires Range(c, l, r) && l < i <= r
    decreases r - l - 1, 3, i - l
  {
    var here := At(c, l, r, i - 1);
    if i == l + 1 then here
    else
      var before := BestSplit(c, l, r, i - 1);
      if here < before then here else before
  }

  lemma {:induction false} SplitBound(c: seq<int>, l: int, r: int, i: int, k: int)
    requires Range(c, l, r) && l <= k < i <= r
    ensures BestSplit(c, l, r, i) <= At(c, l, r, k)
    decreases i
  {
    if k < i - 1 { SplitBound(c, l, r, i - 1, k); }
  }

  lemma {:induction false} SplitAttained(c: seq<int>, l: int, r: int, i: int) returns (k: int)
    requires Range(c, l, r) && l < i <= r
    ensures l <= k < i && BestSplit(c, l, r, i) == At(c, l, r, k)
    decreases i
  {
    k := i - 1;
    if i > l + 1 && BestSplit(c, l, r, i - 1) <= At(c, l, r, i - 1) {
      k := SplitAttained(c, l, r, i - 1);
    }
  }

  lemma Product3Nonnegative(x: int, y: int, z: int)
    requires x >= 0 && y >= 0 && z >= 0
    ensures x * y * z >= 0
  {
    assert x * y >= 0;
  }

  lemma {:induction false} BestNonnegative(c: seq<int>, l: int, r: int)
    requires Range(c, l, r)
    ensures Best(c, l, r) >= 0
    decreases r - l
  {
    if l < r {
      var k := SplitAttained(c, l, r, r);
      BestNonnegative(c, l, k);
      BestNonnegative(c, k + 1, r);
      Product3Nonnegative(c[l - 1], c[k], c[r]);
    }
  }

  lemma {:induction false} NoOrderBelow(c: seq<int>, t: Order)
    requires t.Contiguous() && Range(c, t.First(), t.Last())
    ensures Cost(c, t) >= Best(c, t.First(), t.Last())
  {
    match t
    case One(_) =>
    case Product(a, b) =>
      CoversNonempty(a);
      CoversNonempty(b);
      NoOrderBelow(c, a);
      NoOrderBelow(c, b);
      SplitBound(c, t.First(), t.Last(), t.Last(), a.Last());
  }

  lemma {:induction false} BestAttained(c: seq<int>, l: int, r: int) returns (t: Order)
    requires Range(c, l, r)
    ensures Costs(c, t, l, r, Best(c, l, r))
    decreases r - l
  {
    if l == r {
      t := One(l);
    } else {
      var k := SplitAttained(c, l, r, r);
      var a := BestAttained(c, l, k);
      var b := BestAttained(c, k + 1, r);
      t := Product(a, b);
    }
  }

  /** The recurrence computes the minimum over all orders. */
  lemma BestIsOptimal(c: seq<int>, l: int, r: int)
    requires Range(c, l, r)
    ensures IsOptimal(c, l, r, Best(c, l, r))
  {
    var t := BestAttained(c, l, r);
    forall t | Covers(t, l, r) ensures Cost(c, t) >= Best(c, l, r) { NoOrderBelow(c, t); }
  }

  // ----- The table -----

  function Capped(x: int): int {
    if x < INFINITY then x else INFINITY
  }

  /** Entry l, r is settled: the optimum cut off at INFINITY, and below that a split that attains it. */
  ghost predicate Settled(c: seq<int>, m: array2<int>, last: array2<int>, l: int, r: int)
    requires Range(c, l, r) && m.Length0 == m.Length1 == last.Length0 == last.Length1 == |c|
    reads m, last
  {
    m[l, r] == Capped(Best(c, l, r)) &&
    (l < r && m[l, r] < INFINITY ==> l <= last[l, r] < r && At(c, l, r, last[l, r]) == m[l, r])
  }

  /** Splits before i have been tried for entry l, r. */
  ghost predicate Tried(c: seq<int>, m: array2<int>, last: array2<int>, l: int, r: int, i: int)
    requires Range(c, l, r) && l <= i <= r && m.Length0 == m.Length1 == last.Length0 == last.Length1 == |c|
    reads m, last
  {
    m[l, r] == (if i == l then INFINITY else Capped(BestSplit(c, l, r, i))) &&
    (m[l, r] < INFINITY ==> l <= last[l, r] < i && At(c, l, r, last[l, r]) == m[l, r])
  }

  /** Ranges narrower than k, and those of width k that start before left, are settled. */
  predicate Done(l: int, r: int, k: int, left: int) {
    r - l < k || (r - l == k && l < left)
  }

  ghost predicate Filled(c: seq<int>, m: array2<int>, last: array2<int>, n: int, k: int, left: int)
    requires |c| == n + 1 && m.Length0 == m.Length1 == last.Length0 == last.Length1 == |c|
    reads m, last
  {
    forall l, r :: Range(c, l, r) && Done(l, r, k, left) ==> Settled(c, m, last, l, r)
  }

  /** A sum of cut-off costs, cut off, is the cut-off sum. */
  lemma CappedSum(c: seq<int>, l: int, r: int, k: int)
    requires Range(c, l, r) && l <= k < r
    ensures Capped(Capped(Best(c, l, k)) + Capped(Best(c, k + 1, r)) + c[l - 1] * c[k] * c[r]) == Capped(At(c, l, r, k))
    ensures var x := Capped(Best(c, l, k)) + Capped(Best(c, k + 1, r)) + c[l - 1] * c[k] * c[r];
            x < INFINITY ==> x == At(c, l, r, k)
  {
    BestNonnegative(c, l, k);
    BestNonnegative(c, k + 1, r);
    Product3Nonnegative(c[l - 1], c[k], c[r]);
  }

  /** Fills one entry from the narrower ranges. */
  method FillEntry(C: array<int>, N: int, M: array2<int>, LastChange: array2<int>, Left: int, Right: int)
    requires C.Length == N + 1 == M.Length0 == M.Length1 == LastChange.Length0 == LastChange.Length1
    requires M != LastChange && Range(C[..], Left, Right) && Left < Right
    requires Filled(C[..], M, LastChange, N, Right - Left, Left)
    modifies M, LastChange
    ensures Filled(C[..], M, LastChange, N, Right - Left, Left + 1)
  {
    ghost var c := C[..];
    M[Left, Right] := INFINITY;
    for i := Left to Right
      invariant Filled(c, M, LastChange, N, Right - Left, Left)
      invariant Tried(c, M, LastChange, Left, Right, i)
    {
      assert Settled(c, M, LastChange, Left, i) && Settled(c, M, LastChange, i + 1, Right);
      CappedSum(c, Left, Right, i);
      var thisM := M[Left, i] + M[i + 1, Right] + C[Left - 1] * C[i] * C[Right];
      if thisM < M[Left, Right] {
        M[Left, Right] := thisM;
        LastChange[Left, Right] := i;
      }
    }
  }

  /** The order that the recorded splits describe. */
  ghost function Rebuilt(last: array2<int>, l: int, r: int): Order
    requires 1 <= l <= r < last.Length0 == last.Length1
    reads last
    decreases r - l
  {
    if l < r && l <= last[l, r] < r then
      Product(Rebuilt(last, l, last[l, r]), Rebuilt(last, last[l, r] + 1, r))
    else One(l)
  }

  lemma {:induction false} RebuiltCosts(c: seq<int>, m: array2<int>, last: array2<int>, n: int, l: int, r: int)
    requires |c| == n + 1 && m.Length0 == m.Length1 == last.Length0 == last.Length1 == |c|
    requires Filled(c, m, last, n, n, 0) && Range(c, l, r) && m[l, r] < INFINITY
    ensures Costs(c, Rebuilt(last, l, r), l, r, m[l, r])
    decreases r - l
  {
    assert Settled(c, m, last, l, r);
    if l < r {
      var k := last[l, r];
      assert Settled(c, m, last, l, k) && Settled(c, m, last, k + 1, r);
      BestNonnegative(c, l, k);
      BestNonnegative(c, k + 1, r);
      Product3Nonnegative(c[l - 1], c[k], c[r]);
      RebuiltCosts(c, m, last, n, l, k);
      RebuiltCosts(c, m, last, n, k + 1, r);
    }
  }

  method OptMatrix(C: array<int>, N: int, M: array2<int>, LastChange: array2<int>)
    requires N >= 1 && C.Length == N + 1 == M.Length0 == M.Length1 == LastChange.Length0 == LastChange.Length1
    requires M != LastChange && forall i :: 0 <= i <= N ==> C[i] >= 0
    modifies M, LastChange
    // Every entry is the optimum, cut off at INFINITY.
    ensures forall l, r :: Range(C[..], l, r) ==>
      exists opt :: IsOptimal(C[..], l, r, opt) && M[l, r] == Capped(opt)
    // Below INFINITY the recorded splits rebuild an order that attains it.
    ensures forall l, r :: Range(C[..], l, r) && M[l, r] < INFINITY ==>
      Costs(C[..], Rebuilt(LastChange, l, r), l, r, M[l, r])
  {
    ghost var c := C[..];
    for left := 1 to N + 1
      invariant forall l :: 1 <= l < left ==> M[l, l] == 0
    {
      M[left, left] := 0;
    }
    for k := 1 to N
      invariant C[..] == c && Filled(c, M, LastChange, N, k, 0)
    {
      for left := 1 to N - k + 1
        invariant C[..] == c && Filled(c, M, LastChange, N, k, left)
      {
        FillEntry(C, N, M, LastChange, left, left + k);
      }
    }
    forall l, r | Range(c, l, r)
      ensures exists opt :: IsOptimal(c, l, r, opt) && M[l, r] == Capped(opt)
      ensures M[l, r] < INFINITY ==> Costs(c, Rebuilt(LastChange, l, r), l, r, M[l, r])
    {
      assert Settled(c, M, LastChange, l, r);
      BestIsOptimal(c, l, r);
      if M[l, r] < INFINITY { RebuiltCosts(c, M, LastChange, N, l, r); }
    }
  }
}
