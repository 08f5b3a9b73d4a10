/** All-pairs shortest paths updated in place, DSAAC/fig10_53.c. */
module AllPairs {

  const NOT_A_VERTEX := -1

  type Matrix = seq<seq<int>>

  ghost predicate Square(m: Matrix, n: nat) {
    |m| == n && forall i :: 0 <= i < n ==> |m[i]| == n
  }

  // ----- Walks -----

  /** A walk has at least one edge; vertices may repeat. */
  ghost predicate IsWalk(w: seq<int>, n: nat, i: int, j: int) {
    |w| >= 2 && w[0] == i && w[|w| - 1] == j && forall m :: 0 <= m < |w| ==> 0 <= w[m] < n
  }

  /** Every vertex strictly inside the walk is below k. */
  ghost predicate Via(w: seq<int>, k: int) {
    forall m :: 0 < m < |w| - 1 ==> w[m] < k
  }

  ghost function Weight(a: Matrix, n: nat, w: seq<int>): int
    requires Square(a, n) && forall m :: 0 <= m < |w| ==> 0 <= w[m] < n
  {
    if |w| < 2 then 0 else a[w[0]][w[1]] + Weight(a, n, w[1..])
  }

  ghost predicate WalkOfWeight(a: Matrix, n: nat, w: seq<int>, i: int, j: int, d: int)
    requires Square(a, n)
  {
    IsWalk(w, n, i, j) && Weight(a, n, w) == d
  }

  ghost predicate Achieved(a: Matrix, n: nat, i: int, j: int, d: int)
    requires Square(a, n)
  {
    exists w :: WalkOfWeight(a, n, w, i, j, d)
  }

  /** d is the least weight over all walks from i to j. */
  ghost predicate IsLeast(a: Matrix, n: nat, i: int, j: int, d: int)
    requires Square(a, n)
  {
    Achieved(a, n, i, j, d) && forall w :: IsWalk(w, n, i, j) ==> Weight(a, n, w) >= d
  }

  ghost predicate NegativeCycle(a: Matrix, n: nat)
    requires Square(a, n)
  {
    exists i, d :: 0 <= i < n && d < 0 && Achieved(a, n, i, i, d)
  }

  function Join(v: seq<int>, w: seq<int>): seq<int>
    requires |w| > 0
  {
    v + w[1..]
  }

  lemma {:induction false} WeightSplit(a: Matrix, n: nat, w: seq<int>, m: int)
    requires Square(a, n) && forall x :: 0 <= x < |w| ==> 0 <= w[x] < n
    requires 0 <= m < |w|
    ensures Weight(a, n, w) == Weight(a, n, w[..m + 1]) + Weight(a, n, w[m..])
  {
    if m > 0 {
      WeightSplit(a, n, w[1..], m - 1);
      assert w[1..][..m] == w[..m + 1][1..];
      assert w[1..][m - 1..] == w[m..];
    } else {
      assert w[0..] == w;
    }
  }

  lemma JoinWeight(a: Matrix, n: nat, v: seq<int>, w: seq<int>, i: int, k: int, j: int, bound: int)
    requires Square(a, n) && IsWalk(v, n, i, k) && IsWalk(w, n, k, j)
    ensures IsWalk(Join(v, w), n, i, j) && Weight(a, n, Join(v, w)) == Weight(a, n, v) + Weight(a, n, w)
    ensures Via(v, bound) && Via(w, bound) && k < bound ==> Via(Join(v, w), bound)
  {
    var x := Join(v, w);
    WeightSplit(a, n, x, |v| - 1);
    assert x[..|v|] == v;
    assert x[|v| - 1..] == w;
    if Via(v, bound) && Via(w, bound) && k < bound {
      forall m | 0 < m < |x| - 1 ensures x[m] < bound {
        if m >= |v| { assert x[m] == w[m - |v| + 1]; }
      }
    }
  }

  lemma AchievedJoin(a: Matrix, n: nat, i: int, k: int, j: int, d: int, e: int)
    requires Square(a, n) && Achieved(a, n, i, k, d) && Achieved(a, n, k, j, e)
    ensures Achieved(a, n, i, j, d + e)
  {
    var v :| WalkOfWeight(a, n, v, i, k, d);
    var w :| WalkOfWeight(a, n, w, k, j, e);
    JoinWeight(a, n, v, w, i, k, j, 0);
    assert WalkOfWeight(a, n, Join(v, w), i, j, d + e);
  }

  lemma AchievedEdge(a: Matrix, n: nat, i: int, j: int)
    requires Square(a, n) && 0 <= i < n && 0 <= j < n
    ensures Achieved(a, n, i, j, a[i][j])
  {
    assert Weight(a, n, [i, j]) == a[i][j] + Weight(a, n, [i, j][1..]);
    assert WalkOfWeight(a, n, [i, j], i, j, a[i][j]);
  }

  // ----- The recurrence, with every entry of a phase computed from the phase before -----

  ghost function Dist(a: Matrix, n: nat, k: nat, i: int, j: int): int
    requires Square(a, n) && k <= n && 0 <= i < n && 0 <= j < n
    decreases k, 0
  {
    if k == 0 then a[i][j]
    else
      var direct, through := Dist(a, n, k - 1, i, j), Through(a, n, k - 1, i, j);
      if through < direct then through else direct
  }

  ghost function Through(a: Matrix, n: nat, k: nat, i: int, j: int): int
    requires Square(a, n) && k < n && 0 <= i < n && 0 <= j < n
    decreases k, 1
  {
    Dist(a, n, k, i, k) + Dist(a, n, k, k, j)
  }

  /** The last intermediate vertex that improved each entry. */
  ghost function LastVia(a: Matrix, n: nat, k: nat, i: int, j: int): (v: int)
    requires Square(a, n) && k <= n && 0 <= i < n && 0 <= j < n
    ensures NOT_A_VERTEX <= v < k
    decreases k
  {
    if k == 0 then NOT_A_VERTEX
    else if Through(a, n, k - 1, i, j) < Dist(a, n, k - 1, i, j) then k - 1
    else LastVia(a, n, k - 1, i, j)
  }

  ghost predicate NonnegativeDiagonal(a: Matrix, n: nat, k: nat)
    requires Square(a, n) && k <= n
  {
    forall i :: 0 <= i < n ==> Dist(a, n, k, i, i) >= 0
  }

  lemma DiagonalShrinks(a: Matrix, n: nat, k: nat)
    requires Square(a, n) && k < n && NonnegativeDiagonal(a, n, k + 1)
    ensures NonnegativeDiagonal(a, n, k)
  {
    forall i | 0 <= i < n ensures Dist(a, n, k, i, i) >= 0 {
      assert Dist(a, n, k + 1, i, i) >= 0;
    }
  }

  /** Without a negative diagonal entry, row and column k do not change in phase k. */
  lemma PivotUnchanged(a: Matrix, n: nat, k: nat, i: int)
    requires Square(a, n) && k < n && 0 <= i < n && Dist(a, n, k, k, k) >= 0
    ensures Dist(a, n, k + 1, i, k) == Dist(a, n, k, i, k) && Dist(a, n, k + 1, k, i) == Dist(a, n, k, k, i)
    ensures LastVia(a, n, k + 1, i, k) < k && LastVia(a, n, k + 1, k, i) < k
  {
  }

  lemma FirstVisit(w: seq<int>, k: int) returns (m: int)
    requires |w| >= 2 && Via(w, k + 1)
    ensures 0 < m < |w| && Via(w[..m + 1], k)
    ensures m < |w| - 1 ==> w[m] == k && Via(w[m..], k + 1)
  {
    m := 1;
    while m < |w| - 1 && w[m] != k
      invariant 0 < m < |w| && forall x :: 0 < x < m ==> w[x] < k
    {
      m := m + 1;
    }
  }

  lemma {:induction false} LowerBoundFromPivot(a: Matrix, n: nat, k: nat, w: seq<int>, j: int)
    requires Square(a, n) && k < n && NonnegativeDiagonal(a, n, k)
    requires IsWalk(w, n, k, j) && Via(w, k + 1)
    ensures Weight(a, n, w) >= Dist(a, n, k, k, j)
    decreases k, 1, |w|
  {
    var m := FirstVisit(w, k);
    WeightSplit(a, n, w, m);
    LowerBound(a, n, k, w[..m + 1], k, w[m]);
    if m < |w| - 1 {
      LowerBoundFromPivot(a, n, k, w[m..], j);
    } else {
      assert w[..m + 1] == w;
    }
  }

  /** Dist(k) does not exceed the weight of any walk whose inner vertices are below k. */
  lemma {:induction false} LowerBound(a: Matrix, n: nat, k: nat, w: seq<int>, i: int, j: int)
    requires Square(a, n) && k <= n && NonnegativeDiagonal(a, n, k)
    requires IsWalk(w, n, i, j) && Via(w, k)
    ensures Weight(a, n, w) >= Dist(a, n, k, i, j)
    decreases k, 0, |w|
  {
    if k == 0 {
      assert |w| == 2;
      assert Weight(a, n, w) == a[i][j] + Weight(a, n, w[1..]);
    } else {
      DiagonalShrinks(a, n, k - 1);
      var m := FirstVisit(w, k - 1);
      WeightSplit(a, n, w, m);
      LowerBound(a, n, k - 1, w[..m + 1], i, w[m]);
      if m < |w| - 1 {
        LowerBoundFromPivot(a, n, k - 1, w[m..], j);
      } else {
        assert w[..m + 1] == w;
      }
    }
  }

  /** Each entry of Dist(k) is the weight of some walk whose inner vertices are below k. */
  lemma {:induction false} Attained(a: Matrix, n: nat, k: nat, i: int, j: int) returns (w: seq<int>)
    requires Square(a, n) && k <= n && 0 <= i < n && 0 <= j < n
    ensures WalkOfWeight(a, n, w, i, j, Dist(a, n, k, i, j)) && Via(w, k)
  {
    if k == 0 {
      w := [i, j];
      assert Weight(a, n, w) == a[i][j] + Weight(a, n, w[1..]);
    } else if Through(a, n, k - 1, i, j) < Dist(a, n, k - 1, i, j) {
      var u := Attained(a, n, k - 1, i, k - 1);
      var v := Attained(a, n, k - 1, k - 1, j);
      JoinWeight(a, n, u, v, i, k - 1, j, k);
      w := Join(u, v);
    } else {
      w := Attained(a, n, k - 1, i, j);
    }
  }

  lemma Triangle(a: Matrix, n: nat, k: nat, i: int, v: int, j: int)
    requires Square(a, n) && k <= n && NonnegativeDiagonal(a, n, k)
    requires 0 <= i < n && 0 <= j < n && 0 <= v < k
    ensures Dist(a, n, k, i, j) <= Dist(a, n, k, i, v) + Dist(a, n, k, v, j)
  {
    var x := Attained(a, n, k, i, v);
    var y := Attained(a, n, k, v, j);
    JoinWeight(a, n, x, y, i, v, j, k);
    LowerBound(a, n, k, Join(x, y), i, j);
  }

  lemma LeastEntry(a: Matrix, n: nat, i: int, j: int)
    requires Square(a, n) && NonnegativeDiagonal(a, n, n)
    requires 0 <= i < n && 0 <= j < n
    ensures IsLeast(a, n, i, j, Dist(a, n, n, i, j))
  {
    forall w | IsWalk(w, n, i, j) ensures Weight(a, n, w) >= Dist(a, n, n, i, j) {
      LowerBound(a, n, n, w, i, j);
    }
    var w := Attained(a, n, n, i, j);
  }

  lemma NoNegativeCycle(a: Matrix, n: nat)
    requires Square(a, n) && NonnegativeDiagonal(a, n, n)
    ensures !NegativeCycle(a, n)
  {
    forall i, x | 0 <= i < n && Achieved(a, n, i, i, x) ensures x >= 0 {
      var w :| WalkOfWeight(a, n, w, i, i, x);
      LowerBound(a, n, n, w, i, i);
    }
  }

  // ----- Rebuilding a path from the recorded vertices -----

  /** The recorded vertex splits the distance, and both halves record smaller vertices. */
  ghost predicate SplitAt(a: Matrix, n: nat, k: nat, i: int, j: int)
    requires Square(a, n) && k <= n && 0 <= i < n && 0 <= j < n
  {
    var v, d := LastVia(a, n, k, i, j), Dist(a, n, k, i, j);
    if v == NOT_A_VERTEX then d == a[i][j]
    else
      d == Dist(a, n, k, i, v) + Dist(a, n, k, v, j) &&
      LastVia(a, n, k, i, v) < v && LastVia(a, n, k, v, j) < v
  }

  lemma {:induction false} PathSplits(a: Matrix, n: nat, k: nat, i: int, j: int)
    requires Square(a, n) && k <= n && 0 <= i < n && 0 <= j < n
    requires NonnegativeDiagonal(a, n, k)
    ensures SplitAt(a, n, k, i, j)
  {
    if k > 0 {
      var t := k - 1;
      DiagonalShrinks(a, n, t);
      var v := LastVia(a, n, k, i, j);
      if v == t {
        PivotUnchanged(a, n, t, i);
        PivotUnchanged(a, n, t, j);
      } else {
        PathSplits(a, n, t, i, j);
        if v != NOT_A_VERTEX {
          Triangle(a, n, t, t, v, j);
          Triangle(a, n, t, i, v, t);
          assert Dist(a, n, k, i, v) == Dist(a, n, t, i, v);
          assert Dist(a, n, k, v, j) == Dist(a, n, t, v, j);
        }
      }
    }
  }

  /** The walk obtained by following recorded vertices below bound. */
  ghost function Route(path: Matrix, n: nat, i: int, j: int, bound: int): (r: seq<int>)
    requires Square(path, n) && 0 <= i < n && 0 <= j < n && bound <= n
    ensures |r| >= 2
    decreases bound
  {
    var v := path[i][j];
    if 0 <= v < bound then Join(Route(path, n, i, v, v), Route(path, n, v, j, v)) else [i, j]
  }

  ghost predicate Records(path: Matrix, a: Matrix, n: nat)
    requires Square(a, n)
  {
    Square(path, n) && forall i, j :: 0 <= i < n && 0 <= j < n ==> path[i][j] == LastVia(a, n, n, i, j)
  }

  /** Following the recorded vertices gives a walk of exactly the computed distance. */
  lemma {:induction false} RouteWeight(path: Matrix, a: Matrix, n: nat, i: int, j: int, bound: int)
    requires Square(a, n) && NonnegativeDiagonal(a, n, n) && Records(path, a, n)
    requires 0 <= i < n && 0 <= j < n && path[i][j] < bound <= n
    ensures WalkOfWeight(a, n, Route(path, n, i, j, bound), i, j, Dist(a, n, n, i, j))
    decreases bound
  {
    PathSplits(a, n, n, i, j);
    var v := path[i][j];
    assert v == LastVia(a, n, n, i, j);
    if v >= 0 {
      RouteWeight(path, a, n, i, v, v);
      RouteWeight(path, a, n, v, j, v);
      JoinWeight(a, n, Route(path, n, i, v, v), Route(path, n, v, j, v), i, v, j, 0);
    } else {
      assert Weight(a, n, [i, j]) == a[i][j] + Weight(a, n, [i, j][1..]);
    }
  }

  // ----- The in-place algorithm -----

  function Snapshot(m: array2<int>): (s: Matrix)
    requires m.Length0 == m.Length1
    reads m
    ensures Square(s, m.Length0)
    ensures forall i, j :: 0 <= i < m.Length0 && 0 <= j < m.Length0 ==> s[i][j] == m[i, j]
  {
    seq(m.Length0, i requires 0 <= i < m.Length0 reads m =>
      seq(m.Length0, j requires 0 <= j < m.Length0 reads m => m[i, j]))
  }

  /** Each entry is the weight of some walk, whatever the signs of the cycles. */
  ghost predicate Sound(a: Matrix, n: nat, d: array2<int>)
    requires Square(a, n) && d.Length0 == d.Length1 == n
    reads d
  {
    forall i, j :: 0 <= i < n && 0 <= j < n ==> Achieved(a, n, i, j, d[i, j])
  }

  ghost predicate Exact(a: Matrix, n: nat, k: nat, d: array2<int>, path: array2<int>)
    requires Square(a, n) && k <= n
    requires d.Length0 == d.Length1 == path.Length0 == path.Length1 == n
    reads d, path
  {
    forall i, j :: 0 <= i < n && 0 <= j < n ==>
      d[i, j] == Dist(a, n, k, i, j) && path[i, j] == LastVia(a, n, k, i, j)
  }

  /** The state between phases: the recurrence itself, or a negative entry on the diagonal. */
  ghost predicate Phase(a: Matrix, n: nat, k: nat, d: array2<int>, path: array2<int>)
    requires Square(a, n) && k <= n
    requires d.Length0 == d.Length1 == path.Length0 == path.Length1 == n
    reads d, path
  {
    Exact(a, n, k, d, path) || exists i :: 0 <= i < n && d[i, i] < 0
  }

  predicate Before(x: int, y: int, i: int, j: int) {
    x < i || (x == i && y < j)
  }

  /** In the middle of phase k, entries before (i, j) in row order have been relaxed. */
  ghost predicate Between(a: Matrix, n: nat, k: nat, d: array2<int>, path: array2<int>, i: int, j: int)
    requires Square(a, n) && k < n
    requires d.Length0 == d.Length1 == path.Length0 == path.Length1 == n
    reads d, path
  {
    forall x, y :: 0 <= x < n && 0 <= y < n ==>
      var t := if Before(x, y, i, j) then k + 1 else k;
      d[x, y] == Dist(a, n, t, x, y) && path[x, y] == LastVia(a, n, t, x, y)
  }

  /** One entry of one phase; clean says that no diagonal entry was negative when the phase began. */
  method RelaxEntry(d: array2<int>, path: array2<int>, n: nat, k: nat, i: nat, j: nat, ghost a: Matrix,
                    ghost clean: bool)
    requires d.Length0 == d.Length1 == path.Length0 == path.Length1 == n && d != path
    requires Square(a, n) && k < n && i < n && j < n && Sound(a, n, d)
    requires clean ==> Dist(a, n, k, k, k) >= 0 && Between(a, n, k, d, path, i, j)
    modifies d, path
    ensures Sound(a, n, d)
    ensures clean ==> Between(a, n, k, d, path, i, j + 1)
    ensures forall x :: 0 <= x < n ==> d[x, x] <= old(d[x, x])
  {
    if clean {
      PivotUnchanged(a, n, k, i);
      PivotUnchanged(a, n, k, j);
      assert d[i, k] + d[k, j] == Through(a, n, k, i, j);
    }
    if d[i, k] + d[k, j] < d[i, j] {
      AchievedJoin(a, n, i, k, j, d[i, k], d[k, j]);
      d[i, j] := d[i, k] + d[k, j];
      path[i, j] := k;
    }
  }

  /** Considers vertex k as an intermediate, updating d and path in place. */
  method RelaxThrough(d: array2<int>, path: array2<int>, n: nat, k: nat, ghost a: Matrix)
    requires d.Length0 == d.Length1 == path.Length0 == path.Length1 == n && d != path
    requires Square(a, n) && k < n && Sound(a, n, d) && Phase(a, n, k, d, path)
    modifies d, path
    ensures Sound(a, n, d) && Phase(a, n, k + 1, d, path)
  {
    ghost var clean := forall i :: 0 <= i < n ==> d[i, i] >= 0;
    ghost var v := if clean then 0 else var i :| 0 <= i < n && d[i, i] < 0; i;
    for i := 0 to n
      invariant Sound(a, n, d) && (!clean ==> d[v, v] < 0)
      invariant clean ==> Dist(a, n, k, k, k) >= 0 && Between(a, n, k, d, path, i, 0)
    {
      for j := 0 to n
        invariant Sound(a, n, d) && (!clean ==> d[v, v] < 0)
        invariant clean ==> Between(a, n, k, d, path, i, j)
      {
        RelaxEntry(d, path, n, k, i, j, a, clean);
      }
    }
    assert clean ==> Exact(a, n, k + 1, d, path);
  }

  method AllPairs(A: array2<int>, D: array2<int>, Path: array2<int>, N: nat)
    requires A.Length0 == A.Length1 == D.Length0 == D.Length1 == Path.Length0 == Path.Length1 == N
    requires A != D && A != Path && D != Path
    modifies D, Path
    // A negative cycle exists exactly when the diagonal shows one.
    ensures (exists i :: 0 <= i < N && D[i, i] < 0) <==> NegativeCycle(Snapshot(A), N)
    // Otherwise every entry is the least weight of a walk, and Path rebuilds such a walk.
    ensures !NegativeCycle(Snapshot(A), N) ==> forall i, j :: 0 <= i < N && 0 <= j < N ==>
      IsLeast(Snapshot(A), N, i, j, D[i, j]) &&
      WalkOfWeight(Snapshot(A), N, Route(Snapshot(Path), N, i, j, N), i, j, D[i, j])
  {
    ghost var a := Snapshot(A);
    for i := 0 to N
      invariant forall x, y :: 0 <= x < i && 0 <= y < N ==> D[x, y] == a[x][y] && Path[x, y] == NOT_A_VERTEX
    {
      for j := 0 to N
        invariant forall x, y :: 0 <= x < N && 0 <= y < N && Before(x, y, i, j) ==>
          D[x, y] == a[x][y] && Path[x, y] == NOT_A_VERTEX
      {
        D[i, j] := A[i, j];
        Path[i, j] := NOT_A_VERTEX;
      }
    }
    forall i, j | 0 <= i < N && 0 <= j < N ensures Achieved(a, N, i, j, D[i, j]) { AchievedEdge(a, N, i, j); }
    for k := 0 to N
      invariant Sound(a, N, D) && Phase(a, N, k, D, Path) && Snapshot(A) == a
    {
      RelaxThrough(D, Path, N, k, a);
    }
    Conclude(a, N, D, Path);
  }

  lemma Conclude(a: Matrix, n: nat, d: array2<int>, path: array2<int>)
    requires d.Length0 == d.Length1 == path.Length0 == path.Length1 == n
    requires Square(a, n) && Sound(a, n, d) && Phase(a, n, n, d, path)
    ensures (exists i :: 0 <= i < n && d[i, i] < 0) <==> NegativeCycle(a, n)
    ensures !NegativeCycle(a, n) ==> forall i, j :: 0 <= i < n && 0 <= j < n ==>
      IsLeast(a, n, i, j, d[i, j]) &&
      WalkOfWeight(a, n, Route(Snapshot(path), n, i, j, n), i, j, d[i, j])
  {
    if i :| 0 <= i < n && d[i, i] < 0 {
      assert Achieved(a, n, i, i, d[i, i]);
    } else {
      NoNegativeCycle(a, n);
      forall i, j | 0 <= i < n && 0 <= j < n
        ensures IsLeast(a, n, i, j, d[i, j])
        ensures WalkOfWeight(a, n, Route(Snapshot(path), n, i, j, n), i, j, d[i, j])
      {
        LeastEntry(a, n, i, j);
        RouteWeight(Snapshot(path), a, n, i, j, n);
      }
    }
  }
}
