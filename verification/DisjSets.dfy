/** Disjoint sets with union by height and path compression, DSAAC/disjsets.c. */
module DisjSets {
  import opened Basics

  // ----- Being joined by a list of unions -----

  type Unions = seq<(int, int)>

  ghost predicate Edge(us: Unions, x: int, y: int) {
    (x, y) in us || (y, x) in us
  }

  /** Consecutive elements of the chain were the arguments of some union. */
  ghost predicate IsChain(us: Unions, w: seq<int>, x: int, y: int) {
    |w| > 0 && w[0] == x && w[|w| - 1] == y && forall i :: 0 <= i < |w| - 1 ==> Edge(us, w[i], w[i + 1])
  }

  ghost predicate Joined(us: Unions, x: int, y: int) {
    exists w :: IsChain(us, w, x, y)
  }

  lemma JoinedReflexive(us: Unions, x: int)
    ensures Joined(us, x, x)
  {
    assert IsChain(us, [x], x, x);
  }

  lemma JoinedSymmetric(us: Unions, x: int, y: int)
    requires Joined(us, x, y)
    ensures Joined(us, y, x)
  {
    var w :| IsChain(us, w, x, y);
    var v := seq(|w|, i requires 0 <= i < |w| => w[|w| - 1 - i]);
    forall i | 0 <= i < |v| - 1 ensures Edge(us, v[i], v[i + 1]) {
      assert Edge(us, w[|w| - 2 - i], w[|w| - 2 - i + 1]);
    }
    assert IsChain(us, v, y, x);
  }

  lemma JoinedTransitive(us: Unions, x: int, y: int, z: int)
    requires Joined(us, x, y) && Joined(us, y, z)
    ensures Joined(us, x, z)
  {
    var v :| IsChain(us, v, x, y);
    var w :| IsChain(us, w, y, z);
    var u := v + w[1..];
    forall i | 0 <= i < |u| - 1 ensures Edge(us, u[i], u[i + 1]) {
      if i >= |v| - 1 { assert u[i] == w[i - |v| + 1] && u[i + 1] == w[i - |v| + 2]; }
    }
    assert IsChain(us, u, x, z);
  }

  lemma JoinedGrows(us: Unions, e: (int, int), x: int, y: int)
    requires Joined(us, x, y)
    ensures Joined(us + [e], x, y)
  {
    var w :| IsChain(us, w, x, y);
    forall i | 0 <= i < |w| - 1 ensures Edge(us + [e], w[i], w[i + 1]) {
      assert Edge(us, w[i], w[i + 1]);
    }
    assert IsChain(us + [e], w, x, y);
  }

  lemma JoinedEdge(us: Unions, a: int, b: int)
    requires Edge(us, a, b)
    ensures Joined(us, a, b)
  {
    assert IsChain(us, [a, b], a, b);
  }

  lemma {:induction false} ChainKeepsRep(us: Unions, rep: seq<int>, w: seq<int>, x: int, y: int)
    requires IsChain(us, w, x, y) && EdgesAgree(us, rep) && 0 <= x < |rep|
    ensures 0 <= y < |rep| && rep[x] == rep[y]
    decreases |w|
  {
    if |w| > 1 {
      assert Edge(us, w[0], w[1]);
      ChainKeepsRep(us, rep, w[1..], w[1], y);
    }
  }

  ghost predicate EdgesAgree(us: Unions, rep: seq<int>) {
    forall i :: 0 <= i < |us| ==> 0 <= us[i].0 < |rep| && 0 <= us[i].1 < |rep| && rep[us[i].0] == rep[us[i].1]
  }

  // ----- Sizes -----

  lemma {:induction false} Pow2Monotone(a: nat, b: nat)
    requires a <= b
    ensures Pow2(a) <= Pow2(b)
  {
    if a < b { Pow2Monotone(a, b - 1); }
  }

  ghost function Members(rep: seq<int>, r: int): set<int> {
    set x | 0 < x < |rep| && rep[x] == r
  }

  /** The elements 1 to n. */
  ghost function UpTo(n: nat): (u: set<int>)
    ensures |u| == n && forall x :: x in u <==> 0 < x <= n
  {
    if n == 0 then {} else UpTo(n - 1) + {n}
  }

  /** The representatives after the classes of r and s are merged under r. */
  function Merged(rep: seq<int>, r: int, s: int): (m: seq<int>)
    ensures |m| == |rep| && forall x :: 0 <= x < |rep| ==> m[x] == if rep[x] == s then r else rep[x]
  {
    seq(|rep|, x requires 0 <= x < |rep| => if rep[x] == s then r else rep[x])
  }

  lemma MergedMembers(rep: seq<int>, r: int, s: int)
    requires r != s
    ensures Members(Merged(rep, r, s), r) == Members(rep, r) + Members(rep, s)
    ensures |Members(Merged(rep, r, s), r)| == |Members(rep, r)| + |Members(rep, s)|
    ensures forall q :: q != r && q != s ==> Members(Merged(rep, r, s), q) == Members(rep, q)
  {
    assert Members(rep, r) !! Members(rep, s);
  }

  // ----- The forest -----

  /** Links climb in rank; a root stores minus its rank. The rank of a non-root is nowhere in the array. */
  ghost predicate InForest(s: seq<int>, rep: seq<int>, rank: seq<int>, x: int)
    requires |s| == |rep| == |rank| && 0 < x < |s|
  {
    0 < rep[x] < |s| && s[rep[x]] <= 0 && 0 <= rank[x] <= rank[rep[x]] &&
    if s[x] <= 0 then rep[x] == x && s[x] == -rank[x]
    else s[x] < |s| && rep[x] == rep[s[x]] && rank[x] < rank[s[x]]
  }

  ghost predicate Forest(s: seq<int>, rep: seq<int>, rank: seq<int>) {
    |s| == |rep| == |rank| && forall x :: 0 < x < |s| ==> InForest(s, rep, rank, x)
  }

  ghost predicate Heavy(rep: seq<int>, rank: seq<int>) {
    |rep| == |rank| &&
    forall x :: 0 < x < |rep| && rep[x] == x ==> rank[x] >= 0 && |Members(rep, x)| >= Pow2(rank[x])
  }

  ghost predicate Explained(us: Unions, rep: seq<int>) {
    EdgesAgree(us, rep) && forall x :: 0 < x < |rep| ==> Joined(us, x, rep[x])
  }

  lemma SameRootIffJoined(us: Unions, rep: seq<int>, x: int, y: int)
    requires Explained(us, rep) && 0 < x < |rep| && 0 < y < |rep|
    ensures rep[x] == rep[y] <==> Joined(us, x, y)
  {
    if rep[x] == rep[y] {
      JoinedSymmetric(us, y, rep[y]);
      JoinedTransitive(us, x, rep[x], y);
    }
    if Joined(us, x, y) {
      var w :| IsChain(us, w, x, y);
      ChainKeepsRep(us, rep, w, x, y);
    }
  }

  lemma MergeExplained(us: Unions, rep: seq<int>, r: int, s: int, e: (int, int))
    requires Explained(us, rep) && 0 < r < |rep| && 0 < s < |rep| && rep[r] == r && rep[s] == s
    requires e == (r, s) || e == (s, r)
    ensures Explained(us + [e], Merged(rep, r, s))
  {
    var us', rep' := us + [e], Merged(rep, r, s);
    forall x | 0 < x < |rep| ensures Joined(us', x, rep'[x]) {
      JoinedGrows(us, e, x, rep[x]);
      if rep[x] == s {
        assert us'[|us|] == e;
        JoinedEdge(us', s, r);
        JoinedTransitive(us', x, s, r);
      }
    }
  }

  ghost predicate Linkable(a: seq<int>, rep: seq<int>, rank: seq<int>, r: int, s: int, k: int) {
    Forest(a, rep, rank) && Heavy(rep, rank) &&
    0 < r < |a| && 0 < s < |a| && r != s && a[r] <= 0 && a[s] <= 0 &&
    rank[s] < k && (k == rank[r] || (k == rank[r] + 1 && rank[s] == rank[r]))
  }

  /** Linking root s below root r, whose rank becomes k. */
  lemma LinkForest(a: seq<int>, rep: seq<int>, rank: seq<int>, r: int, s: int, k: int)
    requires Linkable(a, rep, rank, r, s, k)
    ensures Forest(a[r := -k][s := r], Merged(rep, r, s), rank[r := k])
  {
    var a', rep', rank' := a[r := -k][s := r], Merged(rep, r, s), rank[r := k];
    assert InForest(a, rep, rank, r) && InForest(a, rep, rank, s);
    forall x | 0 < x < |a'| ensures InForest(a', rep', rank', x) {
      assert InForest(a, rep, rank, x);
      if a[x] > 0 { assert InForest(a, rep, rank, a[x]); }
    }
  }

  lemma LinkHeavy(a: seq<int>, rep: seq<int>, rank: seq<int>, r: int, s: int, k: int)
    requires Linkable(a, rep, rank, r, s, k)
    ensures Heavy(Merged(rep, r, s), rank[r := k])
  {
    MergedMembers(rep, r, s);
    assert InForest(a, rep, rank, r) && InForest(a, rep, rank, s);
    forall x | 0 < x < |rep| && Merged(rep, r, s)[x] == x
      ensures rank[r := k][x] >= 0 && |Members(Merged(rep, r, s), x)| >= Pow2(rank[r := k][x])
    {
      if x == r {
        Pow2Monotone(rank[s], rank[r]);
      } else {
        assert x != s && rep[x] == x;
      }
    }
  }

  /** Pointing x straight at its root. */
  lemma CompressForest(a: seq<int>, rep: seq<int>, rank: seq<int>, x: int)
    requires Forest(a, rep, rank) && 0 < x < |a| && a[x] > 0
    ensures Forest(a[x := rep[x]], rep, rank)
  {
    var a' := a[x := rep[x]];
    assert InForest(a, rep, rank, x) && InForest(a, rep, rank, a[x]) && InForest(a, rep, rank, rep[x]);
    forall y | 0 < y < |a| ensures InForest(a', rep, rank, y) {
      assert InForest(a, rep, rank, y);
    }
  }

  /** An element that is its own parent is on no path to a root, whatever roots and ranks are tried. */
  lemma {:induction false} SelfUnionIsNoForest(a: seq<int>, r: int)
    requires 0 < r < |a| && a[r] == r
    ensures forall rep, rank :: !Forest(a, rep, rank)
  {
    forall rep, rank ensures !Forest(a, rep, rank) {
      if |a| == |rep| == |rank| { assert !InForest(a, rep, rank, r); }
    }
  }

  ghost function Climb(a: seq<int>, rep: seq<int>, rank: seq<int>, x: int): nat
    requires Forest(a, rep, rank) && 0 < x < |a|
  {
    assert InForest(a, rep, rank, x);
    rank[rep[x]] - rank[x]
  }

  ghost function Depth(a: seq<int>, rep: seq<int>, rank: seq<int>, x: int): nat
    requires Forest(a, rep, rank) && 0 < x < |a|
    decreases Climb(a, rep, rank, x)
  {
    assert InForest(a, rep, rank, x);
    assert a[x] > 0 ==> InForest(a, rep, rank, a[x]);
    if a[x] <= 0 then 0 else 1 + Depth(a, rep, rank, a[x])
  }

  /** The elements met on the way from x to its root. */
  ghost function Way(a: seq<int>, rep: seq<int>, rank: seq<int>, x: int): set<int>
    requires Forest(a, rep, rank) && 0 < x < |a|
    decreases Climb(a, rep, rank, x)
  {
    assert InForest(a, rep, rank, x);
    assert a[x] > 0 ==> InForest(a, rep, rank, a[x]);
    if a[x] <= 0 then {x} else {x} + Way(a, rep, rank, a[x])
  }

  /** The number of links to the root is at most the stored height, hence at most log2 of the class. */
  lemma {:induction false} DepthBound(a: seq<int>, rep: seq<int>, rank: seq<int>, x: int)
    requires Forest(a, rep, rank) && Heavy(rep, rank) && 0 < x < |a|
    ensures 0 < rep[x] < |a| && Depth(a, rep, rank, x) + rank[x] <= -a[rep[x]]
    ensures Pow2(Depth(a, rep, rank, x)) <= |Members(rep, rep[x])| < |a|
    decreases Climb(a, rep, rank, x)
  {
    var r := rep[x];
    assert InForest(a, rep, rank, x) && InForest(a, rep, rank, r);
    if a[x] > 0 { DepthBound(a, rep, rank, a[x]); }
    Pow2Monotone(Depth(a, rep, rank, x), rank[r]);
    SubsetSize(Members(rep, r), UpTo(|a| - 1));
  }

  class DisjSet {
    const S: array<int>
    ghost var rep: seq<int>      // root of each element
    ghost var rank: seq<int>
    ghost var unions: Unions     // arguments of every SetUnion so far

    ghost predicate Valid()
      reads this, S
    {
      S.Length > 0 && Forest(S[..], rep, rank) && Heavy(rep, rank) && Explained(unions, rep)
    }

    /** numSets singletons. */
    constructor (numSets: nat)
      ensures Valid() && fresh(S) && S.Length == numSets + 1 && unions == []
      ensures forall x :: 0 < x <= numSets ==> rep[x] == x
    {
      var s := new int[numSets + 1];
      var i: int := numSets;
      while i > 0
        invariant 0 <= i <= numSets && forall x :: i < x <= numSets ==> s[x] == 0
      {
        s[i] := 0;
        i := i - 1;
      }
      S := s;
      rep := seq(numSets + 1, x => x);
      rank := seq(numSets + 1, x => 0);
      unions := [];
      new;
      forall x | 0 < x < |rep| ensures Joined([], x, rep[x]) && |Members(rep, x)| >= 1 {
        JoinedReflexive([], x);
        assert x in Members(rep, x);
      }
    }

    /** Makes the deeper of two roots the root of both. The source asks for no more than roots; one root passed twice
        becomes its own parent, and the array is a forest no longer. */
    method SetUnion(root1: int, root2: int)
      requires Valid() && 0 < root1 < S.Length && 0 < root2 < S.Length
      requires S[root1] <= 0 && S[root2] <= 0
      modifies this, S
      ensures root1 != root2 ==> Valid() && unions == old(unions) + [(root1, root2)]
      ensures root1 != root2 ==>
        rep == if old(S[root2] < S[root1]) then Merged(old(rep), root2, root1) else Merged(old(rep), root1, root2)
      ensures root1 == root2 ==>
        S[..] == old(S[..])[root1 := root1] && forall rep, rank :: !Forest(S[..], rep, rank)
    {
      ghost var a := S[..];
      ghost var k := if S[root1] == S[root2] then rank[root1] + 1 else rank[root1];
      if S[root2] < S[root1] {
        S[root1] := root2;
        assert S[..] == a[root1 := root2];
      } else {
        if S[root1] == S[root2] {
          S[root1] := S[root1] - 1;
        }
        S[root2] := root1;
        assert root1 == root2 ==> S[..] == a[root1 := root1];
        assert root1 != root2 && a[root1] != a[root2] ==> S[..] == a[root2 := root1];
        assert root1 != root2 && a[root1] == a[root2] ==> S[..] == a[root1 := a[root1] - 1][root2 := root1];
      }
      if root1 == root2 {
        SelfUnionIsNoForest(S[..], root1);
      } else {
        Record(a, root1, root2, k);
      }
    }

    /** What the union of two distinct roots means. */
    ghost method Record(a: seq<int>, root1: int, root2: int, k: int)
      requires 0 < root1 < |a| == S.Length && 0 < root2 < |a| && root1 != root2 && a[root1] <= 0 && a[root2] <= 0
      requires Forest(a, rep, rank) && Heavy(rep, rank) && Explained(unions, rep)
      requires k == if a[root1] == a[root2] then rank[root1] + 1 else rank[root1]
      requires if a[root2] < a[root1] then S[..] == a[root1 := root2]
        else S[..] == if a[root1] == a[root2] then a[root1 := a[root1] - 1][root2 := root1] else a[root2 := root1]
      modifies this
      ensures Valid() && unions == old(unions) + [(root1, root2)]
      ensures rep == if a[root2] < a[root1] then Merged(old(rep), root2, root1) else Merged(old(rep), root1, root2)
    {
      assert InForest(a, rep, rank, root1) && InForest(a, rep, rank, root2);
      if a[root2] < a[root1] {
        LinkForest(a, rep, rank, root2, root1, rank[root2]);
        LinkHeavy(a, rep, rank, root2, root1, rank[root2]);
        MergeExplained(unions, rep, root2, root1, (root1, root2));
        assert S[..] == a[root2 := -rank[root2]][root1 := root2];
        assert rank[root2 := rank[root2]] == rank;
        rep := Merged(rep, root2, root1);
      } else {
        LinkForest(a, rep, rank, root1, root2, k);
        LinkHeavy(a, rep, rank, root1, root2, k);
        MergeExplained(unions, rep, root1, root2, (root1, root2));
        assert S[..] == a[root1 := -k][root2 := root1];
        rep, rank := Merged(rep, root1, root2), rank[root1 := k];
      }
      unions := unions + [(root1, root2)];
    }

    /** The root of x; every element on the way is pointed straight at it. */
    method Find(x: int) returns (r: int)
      requires Valid() && 0 < x < S.Length
      modifies S
      ensures Valid() && 0 < r < S.Length && r == rep[x] && S[r] == old(S[r]) <= 0 && (x != r ==> S[x] == r)
      ensures forall y :: 0 < y < S.Length ==>
        S[y] == if y != r && y in old(Way(S[..], rep, rank, x)) then r else old(S[y])
      ensures forall y :: 0 < y < S.Length ==> (rep[x] == rep[y] <==> Joined(unions, x, y))
      decreases Climb(S[..], rep, rank, x)
    {
      assert InForest(S[..], rep, rank, x);
      if S[x] <= 0 {
        r := x;
      } else {
        assert InForest(S[..], rep, rank, S[x]);
        r := Find(S[x]);
        ghost var a := S[..];
        CompressForest(a, rep, rank, x);
        S[x] := r;
        assert S[..] == a[x := r];
      }
      forall y | 0 < y < S.Length ensures rep[x] == rep[y] <==> Joined(unions, x, y) {
        SameRootIffJoined(unions, rep, x, y);
      }
    }
  }
}
