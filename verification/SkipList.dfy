/** The deterministic 1-2-3 skip list, DSAAC/dsl.c. */
module SkipList {
  import opened Basics
  import opened Ordering

  const INFINITY := 10000

  datatype Node = Node(element: int, right: Ptr, down: Ptr)

  type Memory = map<Ptr, Node>

  // ----- Shapes -----

  /** A node together with the run of nodes one level below that it covers; the run ends with a node of
      the same element. On the lowest level there is no run. */
  datatype Tower = Tower(n: Ptr, e: int, kids: seq<Tower>)

  ghost function Keys(t: Tower): seq<int>
    decreases t, 1
  {
    if t.kids == [] then [t.e] else KeysAll(t.kids)
  }

  ghost function KeysAll(ts: seq<Tower>): seq<int>
    decreases ts, 0
  {
    if ts == [] then [] else Keys(ts[0]) + KeysAll(ts[1..])
  }

  ghost function Nodes(t: Tower): set<Ptr>
    decreases t, 1
  {
    {t.n} + NodesAll(t.kids)
  }

  ghost function NodesAll(ts: seq<Tower>): set<Ptr>
    decreases ts, 0
  {
    if ts == [] then {} else Nodes(ts[0]) + NodesAll(ts[1..])
  }

  ghost predicate Disjoint(t: Tower)
    decreases t, 1
  {
    t.n !in NodesAll(t.kids) && DisjointAll(t.kids)
  }

  ghost predicate DisjointAll(ts: seq<Tower>)
    decreases ts, 0
  {
    ts != [] ==> Disjoint(ts[0]) && DisjointAll(ts[1..]) && Nodes(ts[0]) !! NodesAll(ts[1..])
  }

  /** Gaps of one to three nodes: every run has two to four nodes, and all towers have height h. */
  ghost predicate Shaped(t: Tower, h: nat)
    decreases h
  {
    if h == 0 then t.kids == []
    else
      2 <= |t.kids| <= 4 && t.kids[|t.kids| - 1].e == t.e &&
      forall i :: 0 <= i < |t.kids| ==> Shaped(t.kids[i], h - 1)
  }

  ghost predicate ShapedAll(ts: seq<Tower>, h: nat) {
    forall i :: 0 <= i < |ts| ==> Shaped(ts[i], h)
  }

  // ----- Right neighbours -----

  /** The nodes to the right, level by level; Stop means the tail on every level. */
  datatype Spine = Stop(tail: Ptr) | On(n: Ptr, rest: Spine)

  function Head(s: Spine): Ptr {
    match s case Stop(t) => t case On(n, _) => n
  }

  function Below(s: Spine): Spine {
    match s case Stop(_) => s case On(_, d) => d
  }

  /** The leftmost nodes of a tower. */
  function LeftEdge(t: Tower, bottom: Ptr): Spine
    decreases t
  {
    On(t.n, if t.kids == [] then Stop(bottom) else LeftEdge(t.kids[0], bottom))
  }

  function EdgeAll(ts: seq<Tower>, s: Spine, bottom: Ptr): Spine {
    if ts == [] then s else LeftEdge(ts[0], bottom)
  }

  // ----- Towers in memory -----

  /** The memory holds the tower, with the nodes of s to its right. */
  ghost predicate Rep(m: Memory, bottom: Ptr, t: Tower, s: Spine)
    decreases t, 1
  {
    t.n in m && t.n != bottom &&
    m[t.n] == Node(t.e, Head(s), if t.kids == [] then bottom else t.kids[0].n) &&
    RepAll(m, bottom, t.kids, Below(s))
  }

  ghost predicate RepAll(m: Memory, bottom: Ptr, ts: seq<Tower>, s: Spine)
    decreases ts, 0
  {
    ts != [] ==> Rep(m, bottom, ts[0], EdgeAll(ts[1..], s, bottom)) && RepAll(m, bottom, ts[1..], s)
  }

  lemma {:induction false} RepFrame(m: Memory, m': Memory, bottom: Ptr, t: Tower, s: Spine)
    requires Rep(m, bottom, t, s) && Agree(m, m', Nodes(t))
    ensures Rep(m', bottom, t, s)
    decreases t, 1
  {
    RepAllFrame(m, m', bottom, t.kids, Below(s));
  }

  lemma {:induction false} RepAllFrame(m: Memory, m': Memory, bottom: Ptr, ts: seq<Tower>, s: Spine)
    requires RepAll(m, bottom, ts, s) && Agree(m, m', NodesAll(ts))
    ensures RepAll(m', bottom, ts, s)
    decreases ts, 0
  {
    if ts != [] {
      RepFrame(m, m', bottom, ts[0], EdgeAll(ts[1..], s, bottom));
      RepAllFrame(m, m', bottom, ts[1..], s);
    }
  }

  lemma {:induction false} RepNodes(m: Memory, bottom: Ptr, t: Tower, s: Spine)
    requires Rep(m, bottom, t, s)
    ensures Nodes(t) <= m.Keys && bottom !in Nodes(t)
    decreases t, 1
  {
    RepAllNodes(m, bottom, t.kids, Below(s));
  }

  lemma {:induction false} RepAllNodes(m: Memory, bottom: Ptr, ts: seq<Tower>, s: Spine)
    requires RepAll(m, bottom, ts, s)
    ensures NodesAll(ts) <= m.Keys && bottom !in NodesAll(ts)
    decreases ts, 0
  {
    if ts != [] {
      RepNodes(m, bottom, ts[0], EdgeAll(ts[1..], s, bottom));
      RepAllNodes(m, bottom, ts[1..], s);
    }
  }

  // ----- Splitting a run around a tower -----

  lemma {:induction false} AroundKeys(ls: seq<Tower>, rs: seq<Tower>)
    ensures KeysAll(ls + rs) == KeysAll(ls) + KeysAll(rs)
    ensures NodesAll(ls + rs) == NodesAll(ls) + NodesAll(rs)
    ensures DisjointAll(ls + rs) <==> DisjointAll(ls) && DisjointAll(rs) && NodesAll(ls) !! NodesAll(rs)
  {
    if ls == [] {
      assert ls + rs == rs;
    } else {
      assert (ls + rs)[1..] == ls[1..] + rs;
      AroundKeys(ls[1..], rs);
    }
  }

  lemma {:induction false} AroundRep(m: Memory, bottom: Ptr, ls: seq<Tower>, rs: seq<Tower>, s: Spine)
    ensures RepAll(m, bottom, ls + rs, s) <==>
            RepAll(m, bottom, ls, EdgeAll(rs, s, bottom)) && RepAll(m, bottom, rs, s)
  {
    if ls == [] {
      assert ls + rs == rs;
    } else {
      assert (ls + rs)[1..] == ls[1..] + rs;
      AroundRep(m, bottom, ls[1..], rs, s);
    }
  }

  // ----- A position in the list -----

  /** The runs around a tower: its neighbours in its own run, then those of the node above, and so on. */
  datatype Path =
    | Top(ls: seq<Tower>, rs: seq<Tower>)
    | Step(up: Path, n: Ptr, e: int, ls: seq<Tower>, rs: seq<Tower>)

  /** The fixed nodes: bottom below the lowest level, tail right of every level. */
  datatype Ends = Ends(bottom: Ptr, tail: Ptr)

  function RightOf(p: Path, ends: Ends): Spine {
    EdgeAll(p.rs, if p.Top? then Stop(ends.tail) else Below(RightOf(p.up, ends)), ends.bottom)
  }

  /** The leftmost nodes of the run that has the tower with left edge s at the position. */
  function RunEdge(p: Path, s: Spine, ends: Ends): Spine {
    EdgeAll(p.ls, s, ends.bottom)
  }

  /** The memory holds everything around a tower with left edge s. */
  ghost predicate PathRep(m: Memory, ends: Ends, p: Path, s: Spine) {
    RepAll(m, ends.bottom, p.ls, s) &&
    RepAll(m, ends.bottom, p.rs, if p.Top? then Stop(ends.tail) else Below(RightOf(p.up, ends))) &&
    (p.Step? ==>
      p.n in m && p.n != ends.bottom && m[p.n] == Node(p.e, Head(RightOf(p.up, ends)), Head(RunEdge(p, s, ends))) &&
      PathRep(m, ends, p.up, On(p.n, RunEdge(p, s, ends))))
  }

  ghost function PathNodes(p: Path): set<Ptr> {
    NodesAll(p.ls) + NodesAll(p.rs) + if p.Top? then {} else {p.n} + PathNodes(p.up)
  }

  ghost function AllNodes(p: Path, t: Tower): set<Ptr> {
    Nodes(t) + PathNodes(p)
  }

  ghost predicate PathDisjoint(p: Path) {
    DisjointAll(p.ls) && DisjointAll(p.rs) && NodesAll(p.ls) !! NodesAll(p.rs) &&
    (p.Step? ==>
      PathDisjoint(p.up) && p.n !in PathNodes(p.up) &&
      ({p.n} + PathNodes(p.up)) !! (NodesAll(p.ls) + NodesAll(p.rs)))
  }

  ghost predicate Sentinels(m: Memory, ends: Ends) {
    ends.bottom in m && ends.tail in m && ends.bottom != ends.tail &&
    m[ends.bottom].right == ends.bottom && m[ends.bottom].down == ends.bottom &&
    m[ends.tail].element == INFINITY && m[ends.tail].right == ends.tail
  }

  /** The memory holds the list that has t at position p. */
  ghost predicate Holds(m: Memory, ends: Ends, p: Path, t: Tower) {
    Sentinels(m, ends) && Rep(m, ends.bottom, t, RightOf(p, ends)) && PathRep(m, ends, p, LeftEdge(t, ends.bottom)) &&
    Disjoint(t) && PathDisjoint(p) && Nodes(t) !! PathNodes(p) && ends.tail !in Nodes(t) + PathNodes(p)
  }

  lemma {:induction false} PathFrame(m: Memory, m': Memory, ends: Ends, p: Path, s: Spine)
    requires PathRep(m, ends, p, s) && Agree(m, m', PathNodes(p))
    ensures PathRep(m', ends, p, s)
  {
    RepAllFrame(m, m', ends.bottom, p.ls, s);
    RepAllFrame(m, m', ends.bottom, p.rs, if p.Top? then Stop(ends.tail) else Below(RightOf(p.up, ends)));
    if p.Step? { PathFrame(m, m', ends, p.up, On(p.n, RunEdge(p, s, ends))); }
  }

  lemma {:induction false} PathInMemory(m: Memory, ends: Ends, p: Path, s: Spine)
    requires PathRep(m, ends, p, s)
    ensures PathNodes(p) <= m.Keys && ends.bottom !in PathNodes(p)
  {
    RepAllNodes(m, ends.bottom, p.ls, s);
    RepAllNodes(m, ends.bottom, p.rs, if p.Top? then Stop(ends.tail) else Below(RightOf(p.up, ends)));
    if p.Step? { PathInMemory(m, ends, p.up, On(p.n, RunEdge(p, s, ends))); }
  }

  // ----- Keys around a position -----

  ghost function Before(p: Path): seq<int> {
    (if p.Top? then [] else Before(p.up)) + KeysAll(p.ls)
  }

  ghost function After(p: Path): seq<int> {
    KeysAll(p.rs) + if p.Top? then [] else After(p.up)
  }

  ghost function Total(p: Path, t: Tower): seq<int> {
    Before(p) + Keys(t) + After(p)
  }

  // ----- Moving right and down -----

  function Right(p: Path, t: Tower): Path
    requires p.rs != []
  {
    p.(ls := p.ls + [t], rs := p.rs[1..])
  }

  function Down(p: Path, t: Tower): Path
    requires t.kids != []
  {
    Step(p, t.n, t.e, [], t.kids[1..])
  }

  lemma {:induction false} RightHolds(m: Memory, ends: Ends, p: Path, t: Tower)
    requires p.rs != [] && Holds(m, ends, p, t)
    ensures Holds(m, ends, Right(p, t), p.rs[0]) && m[t.n].right == p.rs[0].n
    ensures AllNodes(Right(p, t), p.rs[0]) == AllNodes(p, t)
  {
    var s := if p.Top? then Stop(ends.tail) else Below(RightOf(p.up, ends));
    AroundRep(m, ends.bottom, p.ls, [t], LeftEdge(p.rs[0], ends.bottom));
    AroundKeys(p.ls, [t]);
    assert [t][1..] == [];
    assert NodesAll([t]) == Nodes(t) + NodesAll([t][1..]);
    assert NodesAll(p.rs) == Nodes(p.rs[0]) + NodesAll(p.rs[1..]);
    assert RunEdge(Right(p, t), LeftEdge(p.rs[0], ends.bottom), ends) == RunEdge(p, LeftEdge(t, ends.bottom), ends);
  }

  lemma {:induction false} RightTotal(p: Path, t: Tower)
    requires p.rs != []
    ensures Total(Right(p, t), p.rs[0]) == Total(p, t) && Before(Right(p, t)) == Before(p) + Keys(t)
  {
    var b, a := if p.Top? then [] else Before(p.up), if p.Top? then [] else After(p.up);
    var l, k, r := KeysAll(p.ls), Keys(p.rs[0]), KeysAll(p.rs[1..]);
    AroundKeys(p.ls, [t]);
    KeysOne(t);
    Associate(b, l, Keys(t));
    assert Before(Right(p, t)) == Before(p) + Keys(t);
    assert After(p) == (k + r) + a && After(Right(p, t)) == r + a;
    Associate(k, r, a);
    Associate(Before(p) + Keys(t), k, r + a);
  }

  lemma {:induction false} KeysOne(t: Tower)
    ensures KeysAll([t]) == Keys(t)
  {
    assert [t][1..] == [] && KeysAll([]) == [];
    assert KeysAll([t]) == Keys(t) + KeysAll([]);
  }

  lemma Associate(a: seq<int>, b: seq<int>, c: seq<int>)
    ensures (a + b) + c == a + (b + c)
  {
  }

  lemma {:induction false} DownHolds(m: Memory, ends: Ends, p: Path, t: Tower)
    requires t.kids != [] && Holds(m, ends, p, t)
    ensures Holds(m, ends, Down(p, t), t.kids[0]) && m[t.n].down == t.kids[0].n
    ensures AllNodes(Down(p, t), t.kids[0]) == AllNodes(p, t)
  {
    var q, k := Down(p, t), t.kids[0];
    assert RightOf(q, ends) == EdgeAll(t.kids[1..], Below(RightOf(p, ends)), ends.bottom);
    assert RepAll(m, ends.bottom, t.kids, Below(RightOf(p, ends)));
    assert RepAll(m, ends.bottom, [], LeftEdge(k, ends.bottom));
    assert On(t.n, RunEdge(q, LeftEdge(k, ends.bottom), ends)) == LeftEdge(t, ends.bottom);
    assert PathNodes(q) == NodesAll([]) + NodesAll(t.kids[1..]) + ({t.n} + PathNodes(p));
    assert NodesAll(t.kids) == Nodes(t.kids[0]) + NodesAll(t.kids[1..]);
    assert Nodes(t) == {t.n} + NodesAll(t.kids);
    assert DisjointAll(t.kids);
  }

  lemma {:induction false} DownTotal(p: Path, t: Tower)
    requires t.kids != []
    ensures Total(Down(p, t), t.kids[0]) == Total(p, t) && Before(Down(p, t)) == Before(p)
  {
    var b, k, r, a := Before(p), Keys(t.kids[0]), KeysAll(t.kids[1..]), After(p);
    assert KeysAll([]) == [];
    assert Before(Down(p, t)) == b + KeysAll([]);
    assert After(Down(p, t)) == r + a;
    assert Keys(t) == KeysAll(t.kids) == k + r;
    assert b + [] == b;
    assert b + (k + r) + a == b + k + (r + a);
  }

  // ----- Gaps around a position -----

  ghost function LastElement(e: int, rs: seq<Tower>): int {
    if rs == [] then e else rs[|rs| - 1].e
  }

  /** The runs around a tower of height h and element e have the right gaps and last elements. */
  ghost predicate PathShaped(p: Path, e: int, h: nat) {
    ShapedAll(p.ls, h) && ShapedAll(p.rs, h) &&
    LastElement(e, p.rs) == (if p.Top? then INFINITY else p.e) &&
    (p.Top? ==> |p.ls| + |p.rs| <= 1) &&
    (p.Step? ==> 1 <= |p.ls| + |p.rs| <= 3 && PathShaped(p.up, p.e, h + 1))
  }

  /** The run at the position can take one more node. */
  ghost predicate Room(p: Path) {
    |p.ls| + |p.rs| <= if p.Top? then 0 else 2
  }

  /** The towers t at p form a list of sorted keys with gaps of one to three. */
  ghost predicate Fits(p: Path, t: Tower, h: nat) {
    Shaped(t, h) && PathShaped(p, t.e, h) && Sorted(Total(p, t))
  }

  lemma {:induction false} LastKey(t: Tower, h: nat)
    requires Shaped(t, h)
    ensures Keys(t) != [] && Keys(t)[|Keys(t)| - 1] == t.e
    decreases h, 0
  {
    if h > 0 { LastKeyAll(t.kids, h - 1); }
  }

  lemma {:induction false} LastKeyAll(ts: seq<Tower>, h: nat)
    requires ts != [] && ShapedAll(ts, h)
    ensures KeysAll(ts) != [] && KeysAll(ts)[|KeysAll(ts)| - 1] == ts[|ts| - 1].e
    decreases h, |ts|
  {
    LastKey(ts[0], h);
    if |ts| > 1 {
      LastKeyAll(ts[1..], h);
      assert KeysAll(ts)[|KeysAll(ts)| - 1] == KeysAll(ts[1..])[|KeysAll(ts[1..])| - 1];
    } else {
      assert ts[1..] == [];
      assert KeysAll(ts) == Keys(ts[0]);
    }
  }

  lemma {:induction false} RightFits(p: Path, t: Tower, h: nat)
    requires Fits(p, t, h) && p.rs != []
    ensures Fits(Right(p, t), p.rs[0], h)
    ensures Room(p) ==> Room(Right(p, t))
  {
    RightTotal(p, t);
  }

  lemma {:induction false} DownFits(p: Path, t: Tower, h: nat)
    requires Fits(p, t, h) && h > 0
    ensures Fits(Down(p, t), t.kids[0], h - 1)
    ensures |t.kids| <= 3 ==> Room(Down(p, t))
  {
    DownTotal(p, t);
  }

  // ----- What is two steps right of the node below -----

  /** On the lowest h + 1 levels of s the nodes have elements of at least x. */
  ghost predicate ClearTo(m: Memory, s: Spine, x: int, h: nat)
    decreases h
  {
    Head(s) in m && m[Head(s)].element >= x && (h > 0 ==> ClearTo(m, Below(s), x, h - 1))
  }

  ghost predicate NoneBelow(s: seq<int>, x: int) {
    forall i :: 0 <= i < |s| ==> s[i] >= x
  }

  lemma NoneBelowParts(a: seq<int>, b: seq<int>, x: int)
    requires NoneBelow(a + b, x)
    ensures NoneBelow(a, x) && NoneBelow(b, x)
  {
    var s := a + b;
    assert forall i :: 0 <= i < |a| ==> a[i] == s[i];
    assert forall i :: 0 <= i < |b| ==> b[i] == s[|a| + i];
  }

  lemma {:induction false} EdgeClear(m: Memory, bottom: Ptr, t: Tower, s: Spine, x: int, h: nat)
    requires Rep(m, bottom, t, s) && Shaped(t, h) && NoneBelow(Keys(t), x)
    ensures ClearTo(m, LeftEdge(t, bottom), x, h)
    decreases h
  {
    LastKey(t, h);
    if h > 0 {
      assert RepAll(m, bottom, t.kids, Below(s));
      NoneBelowParts(Keys(t.kids[0]), KeysAll(t.kids[1..]), x);
      EdgeClear(m, bottom, t.kids[0], EdgeAll(t.kids[1..], Below(s), bottom), x, h - 1);
    }
  }

  lemma {:induction false} StopClear(m: Memory, ends: Ends, x: int, h: nat)
    requires Sentinels(m, ends) && x <= INFINITY
    ensures ClearTo(m, Stop(ends.tail), x, h)
    decreases h
  {
    if h > 0 { StopClear(m, ends, x, h - 1); }
  }

  lemma {:induction false} PathClear(m: Memory, ends: Ends, p: Path, s: Spine, e: int, x: int, h: nat)
    requires Sentinels(m, ends) && PathRep(m, ends, p, s) && PathShaped(p, e, h)
    requires x <= INFINITY && NoneBelow(After(p), x)
    ensures ClearTo(m, RightOf(p, ends), x, h)
  {
    var r := if p.Top? then Stop(ends.tail) else Below(RightOf(p.up, ends));
    NoneBelowParts(KeysAll(p.rs), if p.Top? then [] else After(p.up), x);
    if p.rs != [] {
      NoneBelowParts(Keys(p.rs[0]), KeysAll(p.rs[1..]), x);
      EdgeClear(m, ends.bottom, p.rs[0], EdgeAll(p.rs[1..], r, ends.bottom), x, h);
    } else if p.Top? {
      StopClear(m, ends, x, h);
    } else {
      PathClear(m, ends, p.up, On(p.n, RunEdge(p, s, ends)), p.e, x, h + 1);
    }
  }

  lemma {:induction false} AfterClear(p: Path, t: Tower, h: nat)
    requires Fits(p, t, h)
    ensures NoneBelow(After(p), t.e)
  {
    LastKey(t, h);
    var k := Keys(t);
    var b := Before(p) + k[..|k| - 1];
    assert k == k[..|k| - 1] + [t.e];
    assert Total(p, t) == b + [t.e] + After(p);
    SortedAround(b, t.e, After(p));
  }

  lemma {:induction false} BelowInfinity(p: Path, t: Tower, h: nat)
    requires Fits(p, t, h)
    ensures t.e <= INFINITY
    ensures Total(p, t) != [] && Total(p, t)[|Total(p, t)| - 1] == INFINITY
  {
    AfterClear(p, t, h);
    LastKey(t, h);
    LastAfter(p, t.e, h);
    var s := After(p);
    if s == [] {
      assert Total(p, t)[|Total(p, t)| - 1] == Keys(t)[|Keys(t)| - 1];
    } else {
      assert Total(p, t)[|Total(p, t)| - 1] == s[|s| - 1];
    }
  }

  lemma {:induction false} LastAfter(p: Path, e: int, h: nat)
    requires PathShaped(p, e, h)
    ensures After(p) == [] ==> e == INFINITY
    ensures After(p) != [] ==> After(p)[|After(p)| - 1] == INFINITY
  {
    if p.rs != [] { LastKeyAll(p.rs, h); }
    if p.Step? {
      LastAfter(p.up, p.e, h + 1);
      LastOfBoth(KeysAll(p.rs), After(p.up));
    } else {
      LastOfBoth(KeysAll(p.rs), []);
    }
  }

  lemma LastOfBoth(a: seq<int>, b: seq<int>)
    ensures a + [] == a && (b != [] ==> (a + b)[|a + b| - 1] == b[|b| - 1])
    ensures b == [] ==> a + b == a
  {
  }

  function RightRight(m: Memory, n: Ptr): int
    requires n in m && m[n].down in m && m[m[n].down].right in m && m[m[m[n].down].right].right in m
  {
    m[m[m[m[n].down].right].right].element
  }

  ghost predicate Readable(m: Memory, n: Ptr) {
    n in m && m[n].down in m && m[m[n].down].right in m && m[m[m[n].down].right].right in m
  }

  /** The test of the insertion loop: above the lowest level it finds exactly the gaps of three. */
  lemma {:induction false} WideTest(m: Memory, ends: Ends, p: Path, t: Tower, h: nat)
    requires Holds(m, ends, p, t) && Fits(p, t, h) && h > 0
    ensures Readable(m, t.n)
    ensures m[t.n].element > RightRight(m, t.n) <==> |t.kids| == 4
    ensures m[m[t.n].down].right == t.kids[1].n && m[t.kids[1].n].element == t.kids[1].e
    ensures |t.kids| == 4 ==> m[t.kids[1].n].right == t.kids[2].n
  {
    var k, s := t.kids, Below(RightOf(p, ends));
    assert RepAll(m, ends.bottom, k, s);
    assert RepAll(m, ends.bottom, k[1..], s);
    assert k[1..][1..] == k[2..] && k[1..][0] == k[1];
    assert Rep(m, ends.bottom, k[0], EdgeAll(k[1..], s, ends.bottom));
    assert Rep(m, ends.bottom, k[1], EdgeAll(k[2..], s, ends.bottom));
    if |k| == 2 {
      AfterClear(p, t, h);
      BelowInfinity(p, t, h);
      PathClear(m, ends, p, LeftEdge(t, ends.bottom), t.e, t.e, h);
      assert ClearTo(m, s, t.e, h - 1);
    } else {
      assert k[2..][0] == k[2] && RepAll(m, ends.bottom, k[2..], s);
      assert Rep(m, ends.bottom, k[2], EdgeAll(k[2..][1..], s, ends.bottom));
      if |k| == 4 { ThirdBelow(p, t, h); }
    }
  }

  lemma {:induction false} ThirdBelow(p: Path, t: Tower, h: nat)
    requires Fits(p, t, h) && h > 0 && |t.kids| == 4
    ensures t.kids[2].e < t.e
  {
    var k := t.kids;
    assert k == k[..3] + k[3..];
    AroundKeys(k[..3], k[3..]);
    LastKeyAll(k[..3], h - 1);
    LastKeyAll(k[3..], h - 1);
    var a, b := KeysAll(k[..3]), KeysAll(k[3..]);
    var s := Total(p, t);
    assert s == Before(p) + (a + b) + After(p);
    assert s[|Before(p)| + |a| - 1] == k[2].e;
    assert s[|Before(p)| + |a| + |b| - 1] == t.e;
  }

  // ----- Splitting a node -----

  /** Current becomes the left half with element e, a new node takes the rest. */
  function SplitMemory(m: Memory, n: Ptr, added: Ptr, e: int, down: Ptr): Memory
    requires n in m
  {
    m[added := Node(m[n].element, m[n].right, down)][n := Node(e, added, m[n].down)]
  }

  function LeftHalf(t: Tower, item: int): Tower
    requires t.kids == [] || |t.kids| == 4
  {
    if t.kids == [] then Tower(t.n, item, []) else Tower(t.n, t.kids[1].e, t.kids[..2])
  }

  function RightHalf(t: Tower, added: Ptr): Tower
    requires t.kids == [] || |t.kids| == 4
  {
    if t.kids == [] then Tower(added, t.e, []) else Tower(added, t.e, t.kids[2..])
  }

  function Widened(p: Path, t: Tower): Path {
    p.(rs := [t] + p.rs)
  }

  lemma {:induction false} HalfNodes(t: Tower, item: int, added: Ptr)
    requires (t.kids == [] || |t.kids| == 4) && Disjoint(t) && added !in Nodes(t)
    ensures Nodes(LeftHalf(t, item)) + Nodes(RightHalf(t, added)) == Nodes(t) + {added}
    ensures Disjoint(LeftHalf(t, item)) && Disjoint(RightHalf(t, added))
    ensures Nodes(LeftHalf(t, item)) !! Nodes(RightHalf(t, added))
  {
    if t.kids != [] {
      assert t.kids == t.kids[..2] + t.kids[2..];
      AroundKeys(t.kids[..2], t.kids[2..]);
    }
  }

  lemma {:induction false} SplitRep(m: Memory, m': Memory, bottom: Ptr, t: Tower, s: Spine, item: int, added: Ptr)
    requires Rep(m, bottom, t, s) && Disjoint(t) && added !in m && added != bottom
    requires t.kids == [] || |t.kids| == 4
    requires m' == SplitMemory(m, t.n, added, LeftHalf(t, item).e, if t.kids == [] then bottom else t.kids[2].n)
    ensures Rep(m', bottom, LeftHalf(t, item), LeftEdge(RightHalf(t, added), bottom))
    ensures Rep(m', bottom, RightHalf(t, added), s)
    ensures LeftEdge(LeftHalf(t, item), bottom) == LeftEdge(t, bottom)
  {
    RepAllNodes(m, bottom, t.kids, Below(s));
    assert RepAll(m, bottom, t.kids, Below(s));
    RepAllFrame(m, m', bottom, t.kids, Below(s));
    if t.kids == [] {
      assert RepAll(m', bottom, [], Below(LeftEdge(RightHalf(t, added), bottom)));
    } else {
      var k := t.kids;
      assert k == k[..2] + k[2..];
      AroundRep(m', bottom, k[..2], k[2..], Below(s));
      assert k[..2][0] == k[0] && k[2..][0] == k[2];
      assert Below(LeftEdge(RightHalf(t, added), bottom)) == LeftEdge(k[2], bottom);
    }
  }

  lemma {:induction false} SplitHolds(m: Memory, m': Memory, ends: Ends, p: Path, t: Tower, item: int, added: Ptr)
    requires Holds(m, ends, p, t) && added !in m
    requires t.kids == [] || |t.kids| == 4
    requires m' == SplitMemory(m, t.n, added, LeftHalf(t, item).e, if t.kids == [] then ends.bottom else t.kids[2].n)
    ensures Holds(m', ends, Widened(p, RightHalf(t, added)), LeftHalf(t, item))
  {
    var t1, t2 := LeftHalf(t, item), RightHalf(t, added);
    var s := LeftEdge(t, ends.bottom);
    PathInMemory(m, ends, p, s);
    RepNodes(m, ends.bottom, t, RightOf(p, ends));
    HalfNodes(t, item, added);
    SplitRep(m, m', ends.bottom, t, RightOf(p, ends), item, added);
    PathFrame(m, m', ends, p, s);
    WidenedPath(p, t2);
    WidenedRep(m', ends, p, s, t2);
  }

  lemma {:induction false} WidenedPath(p: Path, t: Tower)
    requires PathDisjoint(p) && Disjoint(t) && Nodes(t) !! PathNodes(p)
    ensures PathDisjoint(Widened(p, t)) && PathNodes(Widened(p, t)) == PathNodes(p) + Nodes(t)
  {
    var q := Widened(p, t);
    assert q.rs[0] == t && q.rs[1..] == p.rs;
    assert NodesAll(q.rs) == Nodes(t) + NodesAll(p.rs);
  }

  lemma {:induction false} WidenedRep(m: Memory, ends: Ends, p: Path, s: Spine, t: Tower)
    requires PathRep(m, ends, p, s) && Rep(m, ends.bottom, t, RightOf(p, ends))
    ensures PathRep(m, ends, Widened(p, t), s) && RightOf(Widened(p, t), ends) == LeftEdge(t, ends.bottom)
  {
    var q := Widened(p, t);
    assert q.rs[0] == t && q.rs[1..] == p.rs;
    assert RunEdge(q, s, ends) == RunEdge(p, s, ends);
  }

  lemma {:induction false} SplitTotal(p: Path, t: Tower, item: int, added: Ptr)
    requires t.kids == [] || |t.kids| == 4
    ensures Total(Widened(p, RightHalf(t, added)), LeftHalf(t, item)) ==
            if t.kids == [] then Before(p) + [item] + [t.e] + After(p) else Total(p, t)
  {
    var t1, t2 := LeftHalf(t, item), RightHalf(t, added);
    var q := Widened(p, t2);
    assert q.rs[0] == t2 && q.rs[1..] == p.rs;
    AfterWidened(p, t2);
    var b, k1, k2, a := Before(p), Keys(t1), Keys(t2), After(p);
    assert Before(q) == b;
    if t.kids != [] {
      assert t.kids == t.kids[..2] + t.kids[2..];
      AroundKeys(t.kids[..2], t.kids[2..]);
      assert Keys(t) == k1 + k2;
    }
    Middle(b, k1, k2, a);
  }

  lemma {:induction false} AfterWidened(p: Path, t: Tower)
    ensures After(Widened(p, t)) == Keys(t) + After(p)
  {
    var q := Widened(p, t);
    assert q.rs[0] == t && q.rs[1..] == p.rs;
    assert KeysAll(q.rs) == Keys(t) + KeysAll(p.rs);
  }

  lemma Middle(b: seq<int>, k: seq<int>, l: seq<int>, a: seq<int>)
    ensures b + k + (l + a) == b + (k + l) + a == b + k + l + a
  {
  }

  lemma {:induction false} SplitShaped(t: Tower, item: int, added: Ptr, h: nat)
    requires Shaped(t, h) && (h > 0 ==> |t.kids| == 4)
    ensures Shaped(LeftHalf(t, item), h) && Shaped(RightHalf(t, added), h)
  {
    if h > 0 {
      assert forall i :: 0 <= i < 2 ==> t.kids[2..][i] == t.kids[2 + i];
    }
  }

  lemma {:induction false} WidenedShaped(p: Path, e: int, t: Tower, e': int, h: nat)
    requires PathShaped(p, e, h) && Room(p) && Shaped(t, h) && t.e == e
    ensures PathShaped(Widened(p, t), e', h)
  {
    ShapedFirst(t, p.rs, h);
    LastFirst(e', t, p.rs);
  }

  lemma ShapedFirst(t: Tower, rs: seq<Tower>, h: nat)
    requires Shaped(t, h) && ShapedAll(rs, h)
    ensures ShapedAll([t] + rs, h)
  {
    var ts := [t] + rs;
    forall i | 0 <= i < |ts| ensures Shaped(ts[i], h) {
      if i > 0 { assert ts[i] == rs[i - 1]; }
    }
  }

  lemma LastFirst(e: int, t: Tower, rs: seq<Tower>)
    ensures LastElement(e, [t] + rs) == LastElement(t.e, rs)
  {
  }

  lemma {:induction false} SplitFits(p: Path, t: Tower, item: int, added: Ptr, h: nat)
    requires Fits(p, t, h) && Room(p) && (if h == 0 then item < t.e && AllBelow(Before(p), item) else |t.kids| == 4)
    ensures Fits(Widened(p, RightHalf(t, added)), LeftHalf(t, item), h)
  {
    var t1, t2 := LeftHalf(t, item), RightHalf(t, added);
    SplitTotal(p, t, item, added);
    SplitShaped(t, item, added, h);
    WidenedShaped(p, t.e, t2, t1.e, h);
    if h == 0 { SortedInsertion(Before(p), item, t.e, After(p)); }
  }

  lemma SortedInsertion(b: seq<int>, item: int, e: int, a: seq<int>)
    requires Sorted(b + [e] + a) && AllBelow(b, item) && item < e
    ensures Sorted(b + [item] + [e] + a)
  {
    SortedAround(b, e, a);
    SortedAround([], e, a);
    assert [] + [e] + a == [e] + a;
    SortedAround(b, item, [e] + a);
    assert b + [item] + ([e] + a) == b + [item] + [e] + a;
  }

  // ----- Back to the top -----

  function Up(p: Path, t: Tower): Tower
    requires p.Step?
  {
    Tower(p.n, p.e, p.ls + [t] + p.rs)
  }

  /** The leftmost node of the top level. */
  function TopEdge(p: Path, n: Ptr): Ptr {
    match p
    case Top(ls, _) => if ls == [] then n else ls[0].n
    case Step(up, _, _, _, _) => TopEdge(up, p.n)
  }

  lemma {:induction false} RunParts(ls: seq<Tower>, t: Tower, rs: seq<Tower>)
    ensures KeysAll(ls + [t] + rs) == KeysAll(ls) + Keys(t) + KeysAll(rs)
    ensures NodesAll(ls + [t] + rs) == NodesAll(ls) + Nodes(t) + NodesAll(rs)
    ensures (DisjointAll(ls) && Disjoint(t) && DisjointAll(rs) && NodesAll(ls) !! NodesAll(rs) &&
             Nodes(t) !! NodesAll(ls) + NodesAll(rs)) ==> DisjointAll(ls + [t] + rs)
  {
    AroundKeys(ls, [t]);
    AroundKeys(ls + [t], rs);
    assert [t][1..] == [];
    assert KeysAll([t]) == Keys(t) + KeysAll([]);
    assert NodesAll([t]) == Nodes(t) + NodesAll([]);
    assert DisjointAll([]);
    assert DisjointAll([t]) <==> Disjoint(t);
  }

  lemma {:induction false} RunRep(m: Memory, bottom: Ptr, ls: seq<Tower>, t: Tower, rs: seq<Tower>, s: Spine)
    requires RepAll(m, bottom, ls, LeftEdge(t, bottom)) && Rep(m, bottom, t, EdgeAll(rs, s, bottom)) &&
      RepAll(m, bottom, rs, s)
    ensures RepAll(m, bottom, ls + [t] + rs, s)
  {
    assert [t][1..] == [];
    assert RepAll(m, bottom, [], EdgeAll(rs, s, bottom));
    AroundRep(m, bottom, ls, [t], EdgeAll(rs, s, bottom));
    AroundRep(m, bottom, ls + [t], rs, s);
  }

  lemma {:induction false} UpHolds(m: Memory, ends: Ends, p: Path, t: Tower)
    requires p.Step? && Holds(m, ends, p, t)
    ensures Holds(m, ends, p.up, Up(p, t))
  {
    var s, u := LeftEdge(t, ends.bottom), Up(p, t);
    RunParts(p.ls, t, p.rs);
    RunRep(m, ends.bottom, p.ls, t, p.rs, Below(RightOf(p.up, ends)));
    assert u.kids[0] == if p.ls == [] then t else p.ls[0];
    assert LeftEdge(u, ends.bottom) == On(p.n, RunEdge(p, s, ends));
    assert Nodes(u) == {p.n} + NodesAll(u.kids);
    assert PathNodes(p) == NodesAll(p.ls) + NodesAll(p.rs) + ({p.n} + PathNodes(p.up));
  }

  lemma {:induction false} UpFits(p: Path, t: Tower, h: nat)
    requires p.Step? && Fits(p, t, h)
    ensures Fits(p.up, Up(p, t), h + 1) && Total(p.up, Up(p, t)) == Total(p, t)
  {
    RunParts(p.ls, t, p.rs);
    UpShaped(p, t, h);
    var b, l, k, r, a := Before(p.up), KeysAll(p.ls), Keys(t), KeysAll(p.rs), After(p.up);
    assert Keys(Up(p, t)) == l + k + r;
    assert Before(p) == b + l && After(p) == r + a;
    FiveParts(b, l, k, r, a);
  }

  lemma {:induction false} UpShaped(p: Path, t: Tower, h: nat)
    requires p.Step? && Shaped(t, h) && PathShaped(p, t.e, h)
    ensures Shaped(Up(p, t), h + 1) && PathShaped(p.up, p.e, h + 1)
  {
    var k := p.ls + [t] + p.rs;
    assert k[|k| - 1].e == LastElement(t.e, p.rs);
  }

  lemma FiveParts(b: seq<int>, l: seq<int>, k: seq<int>, r: seq<int>, a: seq<int>)
    ensures b + (l + k + r) + a == (b + l) + k + (r + a)
  {
    Associate(b, l + k, r);
    Associate(b, l, k);
    Associate(b + l + k, r, a);
  }

  /** The towers around the top of the position, with the focus raised to the top level. */
  ghost function Zip(p: Path, t: Tower): (Path, Tower)
    decreases p
  {
    if p.Top? then (p, t) else Zip(p.up, Up(p, t))
  }

  lemma {:induction false} ZipHolds(m: Memory, ends: Ends, p: Path, t: Tower, h: nat) returns (g: nat)
    requires Holds(m, ends, p, t) && Fits(p, t, h)
    ensures Zip(p, t).0.Top? && Holds(m, ends, Zip(p, t).0, Zip(p, t).1) && Fits(Zip(p, t).0, Zip(p, t).1, g)
    ensures Total(Zip(p, t).0, Zip(p, t).1) == Total(p, t)
    ensures TopEdge(Zip(p, t).0, Zip(p, t).1.n) == TopEdge(p, t.n)
  {
    g := h;
    if p.Step? {
      UpHolds(m, ends, p, t);
      UpFits(p, t, h);
      g := ZipHolds(m, ends, p.up, Up(p, t), h + 1);
    }
  }

  // ----- The descent -----

  /** The list has t at p, and the place of the item is at or right of t in its run. */
  ghost predicate Seeks(m: Memory, ends: Ends, p: Path, t: Tower, h: nat, item: int) {
    Holds(m, ends, p, t) && Fits(p, t, h) && m[ends.bottom].element == item < INFINITY &&
    AllBelow(Before(p), item) && item <= LastElement(t.e, p.rs)
  }

  /** The node for the item on this level needs no split. */
  ghost predicate Slim(p: Path, t: Tower, h: nat, item: int) {
    if h == 0 then t.e == item
    else |t.kids| <= 3 && (item > t.e ==> p.rs != [] && |p.rs[0].kids| <= 3 && item <= p.rs[0].e)
  }

  lemma {:induction false} KeysUpTo(p: Path, t: Tower, h: nat, item: int)
    requires Fits(p, t, h) && t.e < item && AllBelow(Before(p), item)
    ensures AllBelow(Before(p) + Keys(t), item)
  {
    LastKey(t, h);
    LastIsLargest(Before(p), Keys(t), After(p));
  }

  lemma LastIsLargest(b: seq<int>, k: seq<int>, a: seq<int>)
    requires Sorted(b + k + a) && k != []
    ensures forall i :: 0 <= i < |k| ==> k[i] <= k[|k| - 1]
  {
    SortedHalves(b + k, a);
    SortedHalves(b, k);
  }

  lemma {:induction false} SeekRight(m: Memory, ends: Ends, p: Path, t: Tower, h: nat, item: int)
    requires Seeks(m, ends, p, t, h, item) && item > t.e
    ensures p.rs != [] && Seeks(m, ends, Right(p, t), p.rs[0], h, item) && m[t.n].right == p.rs[0].n
    ensures Total(Right(p, t), p.rs[0]) == Total(p, t) && TopEdge(Right(p, t), p.rs[0].n) == TopEdge(p, t.n)
    ensures AllNodes(Right(p, t), p.rs[0]) == AllNodes(p, t)
    ensures Room(p) ==> Room(Right(p, t))
    ensures Slim(p, t, h, item) ==> Slim(Right(p, t), p.rs[0], h, item)
  {
    RightHolds(m, ends, p, t);
    RightFits(p, t, h);
    RightTotal(p, t);
    KeysUpTo(p, t, h, item);
  }

  lemma {:induction false} SeekDown(m: Memory, ends: Ends, p: Path, t: Tower, h: nat, item: int)
    requires Seeks(m, ends, p, t, h, item) && item <= t.e && h > 0
    ensures Seeks(m, ends, Down(p, t), t.kids[0], h - 1, item) && m[t.n].down == t.kids[0].n
    ensures Total(Down(p, t), t.kids[0]) == Total(p, t) && TopEdge(Down(p, t), t.kids[0].n) == TopEdge(p, t.n)
    ensures AllNodes(Down(p, t), t.kids[0]) == AllNodes(p, t)
    ensures |t.kids| <= 3 ==> Room(Down(p, t))
  {
    DownHolds(m, ends, p, t);
    DownFits(p, t, h);
    DownTotal(p, t);
  }

  lemma {:induction false} SeekSplit(m: Memory, m': Memory, ends: Ends, p: Path, t: Tower, h: nat, item: int,
      added: Ptr)
    requires Seeks(m, ends, p, t, h, item) && item <= t.e && Room(p) && added !in m
    requires if h == 0 then item < t.e else |t.kids| == 4
    requires m' == SplitMemory(m, t.n, added, LeftHalf(t, item).e, if t.kids == [] then ends.bottom else t.kids[2].n)
    ensures Seeks(m', ends, Widened(p, RightHalf(t, added)), LeftHalf(t, item), h, item)
    ensures Slim(Widened(p, RightHalf(t, added)), LeftHalf(t, item), h, item)
    ensures TopEdge(Widened(p, RightHalf(t, added)), t.n) == TopEdge(p, t.n)
  {
    RepNodes(m, ends.bottom, t, RightOf(p, ends));
    SplitHolds(m, m', ends, p, t, item, added);
    SplitFits(p, t, item, added, h);
    assert Before(Widened(p, RightHalf(t, added))) == Before(p);
  }

  /** On the lowest level the item is either here or nowhere. */
  lemma {:induction false} SeekEnds(m: Memory, ends: Ends, p: Path, t: Tower, item: int)
    requires Seeks(m, ends, p, t, 0, item) && item <= t.e
    ensures item in Total(p, t) <==> item == t.e
  {
    var b, s := Before(p), Total(p, t);
    assert s == b + [t.e] + After(p);
    SortedAround(b, t.e, After(p));
    assert s[|b|] == t.e;
    forall i | 0 <= i < |s| && i != |b| ensures s[i] != item {
      if i < |b| { assert s[i] == b[i]; } else { assert s[i] == After(p)[i - |b| - 1]; }
    }
  }

  lemma {:induction false} ElementIsKey(p: Path, t: Tower, h: nat)
    requires Shaped(t, h)
    ensures t.e in Total(p, t)
  {
    LastKey(t, h);
    InMiddle(Before(p), Keys(t), After(p), t.e);
  }

  lemma InMiddle(b: seq<int>, k: seq<int>, a: seq<int>, x: int)
    requires x in k
    ensures x in b + k + a
  {
    assert x in b + k;
  }

  // ----- Levels and height -----

  /** The height is at most logarithmic in the number of keys. */
  lemma {:induction false} HeightBound(t: Tower, h: nat)
    requires Shaped(t, h)
    ensures |Keys(t)| >= Pow2(h)
  {
    if h > 0 {
      var k := t.kids;
      HeightBound(k[0], h - 1);
      HeightBound(k[1], h - 1);
      assert k[1..][0] == k[1];
      assert KeysAll(k) == Keys(k[0]) + (Keys(k[1]) + KeysAll(k[1..][1..]));
    }
  }

  ghost function Elements(ts: seq<Tower>): seq<int> {
    seq(|ts|, i requires 0 <= i < |ts| => ts[i].e)
  }

  /** The nodes one level below a run. */
  ghost function Lower(ts: seq<Tower>): seq<Tower> {
    if ts == [] then [] else ts[0].kids + Lower(ts[1..])
  }

  ghost function Level(ts: seq<Tower>, k: nat): seq<Tower> {
    if k == 0 then ts else Lower(Level(ts, k - 1))
  }

  /** Every element of upper is in lower, one to three elements of lower lie in each gap of upper. */
  ghost predicate Thinned(upper: seq<int>, lower: seq<int>) {
    if upper == [] then lower == []
    else exists g :: 1 <= g <= 3 && g < |lower| && lower[g] == upper[0] && Thinned(upper[1..], lower[g + 1..])
  }

  lemma {:induction false} LowerThinned(ts: seq<Tower>, h: nat)
    requires ShapedAll(ts, h + 1)
    ensures Thinned(Elements(ts), Elements(Lower(ts))) && ShapedAll(Lower(ts), h) && KeysAll(Lower(ts)) == KeysAll(ts)
  {
    if ts != [] {
      var u, l, k := Elements(ts), Elements(Lower(ts)), ts[0].kids;
      LowerThinned(ts[1..], h);
      AroundKeys(k, Lower(ts[1..]));
      assert u[1..] == Elements(ts[1..]);
      assert l[|k|..] == Elements(Lower(ts[1..]));
      assert l[|k| - 1] == k[|k| - 1].e == u[0];
      assert 1 <= |k| - 1 <= 3 && l[(|k| - 1) + 1..] == l[|k|..];
    }
  }

  lemma {:induction false} ThinnedWithin(upper: seq<int>, lower: seq<int>, i: nat)
    requires Thinned(upper, lower) && i < |upper|
    ensures upper[i] in lower
  {
    var g :| 1 <= g <= 3 && g < |lower| && lower[g] == upper[0] && Thinned(upper[1..], lower[g + 1..]);
    if i > 0 { ThinnedWithin(upper[1..], lower[g + 1..], i - 1); }
  }

  lemma {:induction false} ThinnedSorted(upper: seq<int>, lower: seq<int>)
    requires Thinned(upper, lower) && Sorted(lower)
    ensures Sorted(upper)
  {
    if upper != [] {
      var g :| 1 <= g <= 3 && g < |lower| && lower[g] == upper[0] && Thinned(upper[1..], lower[g + 1..]);
      ThinnedHead(lower, g, upper[1..]);
      ThinnedSorted(upper[1..], lower[g + 1..]);
      SortedAround([], upper[0], upper[1..]);
      assert upper == [] + [upper[0]] + upper[1..];
    }
  }

  lemma {:induction false} ThinnedHead(lower: seq<int>, g: nat, u: seq<int>)
    requires Sorted(lower) && g < |lower| && Thinned(u, lower[g + 1..])
    ensures AllAbove(u, lower[g]) && Sorted(lower[g + 1..])
  {
    assert lower == lower[..g] + [lower[g]] + lower[g + 1..];
    SortedAround(lower[..g], lower[g], lower[g + 1..]);
    forall i | 0 <= i < |u| ensures lower[g] < u[i] {
      ThinnedWithin(u, lower[g + 1..], i);
    }
  }

  lemma {:induction false} LevelSorted(ts: seq<Tower>, h: nat)
    requires ShapedAll(ts, h) && Sorted(KeysAll(ts))
    ensures Sorted(Elements(ts)) && forall x :: x in Elements(ts) ==> x in KeysAll(ts)
    ensures h == 0 ==> Elements(ts) == KeysAll(ts)
    decreases h
  {
    if h == 0 {
      LowestElements(ts);
    } else {
      LowerThinned(ts, h - 1);
      LevelSorted(Lower(ts), h - 1);
      ThinnedSorted(Elements(ts), Elements(Lower(ts)));
      forall i | 0 <= i < |ts| ensures Elements(ts)[i] in KeysAll(ts) {
        ThinnedWithin(Elements(ts), Elements(Lower(ts)), i);
      }
    }
  }

  lemma {:induction false} LowestElements(ts: seq<Tower>)
    requires ShapedAll(ts, 0)
    ensures Elements(ts) == KeysAll(ts)
  {
    if ts != [] {
      LowestElements(ts[1..]);
      assert Keys(ts[0]) == [ts[0].e];
      assert Elements(ts) == [ts[0].e] + Elements(ts[1..]);
    }
  }

  /** The nodes are linked from left to right, the last one to end. */
  ghost predicate Linked(m: Memory, ts: seq<Tower>, end: Ptr) {
    forall i :: 0 <= i < |ts| ==>
      ts[i].n in m && m[ts[i].n].element == ts[i].e && m[ts[i].n].right == if i + 1 < |ts| then ts[i + 1].n else end
  }

  lemma {:induction false} LinkAt(m: Memory, bottom: Ptr, ts: seq<Tower>, s: Spine, i: nat)
    requires RepAll(m, bottom, ts, s) && i < |ts|
    ensures ts[i].n in m && m[ts[i].n].element == ts[i].e
    ensures m[ts[i].n].right == if i + 1 < |ts| then ts[i + 1].n else Head(s)
  {
    var u := ts[1..];
    if i > 0 {
      LinkAt(m, bottom, u, s, i - 1);
      assert u[i - 1] == ts[i] && (i + 1 < |ts| ==> u[i] == ts[i + 1]);
    } else {
      assert Rep(m, bottom, ts[0], EdgeAll(u, s, bottom));
      assert if |ts| > 1 then u[0] == ts[1] else u == [];
    }
  }

  lemma {:induction false} RunLinked(m: Memory, bottom: Ptr, ts: seq<Tower>, s: Spine)
    requires RepAll(m, bottom, ts, s)
    ensures Linked(m, ts, Head(s))
  {
    forall i | 0 <= i < |ts|
      ensures ts[i].n in m && m[ts[i].n].element == ts[i].e
      ensures m[ts[i].n].right == if i + 1 < |ts| then ts[i + 1].n else Head(s)
    {
      LinkAt(m, bottom, ts, s, i);
    }
  }

  lemma {:induction false} LowerRep(m: Memory, bottom: Ptr, ts: seq<Tower>, s: Spine, h: nat)
    requires RepAll(m, bottom, ts, s) && ShapedAll(ts, h + 1)
    ensures RepAll(m, bottom, Lower(ts), Below(s))
    ensures EdgeAll(Lower(ts), Below(s), bottom) == Below(EdgeAll(ts, s, bottom))
  {
    if ts != [] {
      var k := ts[0].kids;
      LowerRep(m, bottom, ts[1..], s, h);
      assert Rep(m, bottom, ts[0], EdgeAll(ts[1..], s, bottom));
      assert Shaped(ts[0], h + 1);
      AroundRep(m, bottom, k, Lower(ts[1..]), Below(s));
      assert (k + Lower(ts[1..]))[0] == k[0];
    }
  }

  lemma {:induction false} LevelRep(m: Memory, ends: Ends, ts: seq<Tower>, h: nat, k: nat)
    requires RepAll(m, ends.bottom, ts, Stop(ends.tail)) && ShapedAll(ts, h) && k <= h
    ensures RepAll(m, ends.bottom, Level(ts, k), Stop(ends.tail))
    ensures ShapedAll(Level(ts, k), h - k) && KeysAll(Level(ts, k)) == KeysAll(ts)
  {
    if k > 0 {
      var us := Level(ts, k - 1);
      LevelRep(m, ends, ts, h, k - 1);
      LowerRep(m, ends.bottom, us, Stop(ends.tail), h - k);
      LowerThinned(us, h - k);
    }
  }

  /** What the memory holds level by level: sorted lists, each thinned from the one below, ending at the tail. */
  lemma {:induction false} LevelsInMemory(m: Memory, ends: Ends, ts: seq<Tower>, h: nat, k: nat)
    requires RepAll(m, ends.bottom, ts, Stop(ends.tail)) && ShapedAll(ts, h) && Sorted(KeysAll(ts)) && k <= h
    ensures Linked(m, Level(ts, k), ends.tail) && Sorted(Elements(Level(ts, k)))
    ensures k < h ==> Thinned(Elements(Level(ts, k)), Elements(Level(ts, k + 1)))
    ensures k == h ==> Elements(Level(ts, k)) == KeysAll(ts)
  {
    var us := Level(ts, k);
    LevelRep(m, ends, ts, h, k);
    RunLinked(m, ends.bottom, us, Stop(ends.tail));
    LevelSorted(us, h - k);
    if k < h { LowerThinned(us, h - k - 1); }
  }

  // ----- The operations -----

  ghost predicate Whole(m: Memory, ends: Ends, root: Tower, h: nat) {
    Holds(m, ends, Top([], []), root) && Fits(Top([], []), root, h)
  }

  /** Every level of the list in memory, and its height. */
  lemma {:induction false} WholeLevels(m: Memory, ends: Ends, root: Tower, h: nat, k: nat)
    requires Whole(m, ends, root, h) && k <= h
    ensures Linked(m, Level([root], k), ends.tail) && Sorted(Elements(Level([root], k)))
    ensures k < h ==> Thinned(Elements(Level([root], k)), Elements(Level([root], k + 1)))
    ensures k == h ==> Elements(Level([root], k)) == Keys(root)
    ensures Keys(root) != [] && Keys(root)[|Keys(root)| - 1] == INFINITY && Pow2(h) <= |Keys(root)|
  {
    TotalAtTop(root);
    HeightBound(root, h);
    BelowInfinity(Top([], []), root, h);
    assert [root][1..] == [] && KeysAll([]) == [];
    assert KeysAll([root]) == Keys(root) + KeysAll([]);
    assert RightOf(Top([], []), ends) == Stop(ends.tail);
    assert RepAll(m, ends.bottom, [], Stop(ends.tail));
    assert RepAll(m, ends.bottom, [root], Stop(ends.tail));
    LevelsInMemory(m, ends, [root], h, k);
  }

  /** A new header above the two nodes of the top level. */
  lemma {:induction false} RaiseWhole(m: Memory, m': Memory, ends: Ends, p: Path, t: Tower, h: nat, added: Ptr)
    requires Holds(m, ends, p, t) && Fits(p, t, h) && p.Top? && |p.ls| + |p.rs| == 1 && added !in m
    requires m' == m[added := Node(INFINITY, ends.tail, TopEdge(p, t.n))]
    ensures Whole(m', ends, Up(Step(Top([], []), added, INFINITY, p.ls, p.rs), t), h + 1)
    ensures Keys(Up(Step(Top([], []), added, INFINITY, p.ls, p.rs), t)) == Total(p, t)
  {
    var q, s := Step(Top([], []), added, INFINITY, p.ls, p.rs), LeftEdge(t, ends.bottom);
    PathInMemory(m, ends, p, s);
    RepNodes(m, ends.bottom, t, RightOf(p, ends));
    PathFrame(m, m', ends, p, s);
    RepFrame(m, m', ends.bottom, t, RightOf(p, ends));
    RaiseHolds(m', ends, p, t, added);
    UpHolds(m', ends, q, t);
    RaiseFits(p, t, h, added);
  }

  lemma {:induction false} RaiseHolds(m: Memory, ends: Ends, p: Path, t: Tower, added: Ptr)
    requires Holds(m, ends, p, t) && p.Top? && added !in AllNodes(p, t) && added != ends.bottom && added != ends.tail
    requires added in m && m[added] == Node(INFINITY, ends.tail, TopEdge(p, t.n))
    ensures Holds(m, ends, Step(Top([], []), added, INFINITY, p.ls, p.rs), t)
  {
    var q, s := Step(Top([], []), added, INFINITY, p.ls, p.rs), LeftEdge(t, ends.bottom);
    assert RightOf(Top([], []), ends) == Stop(ends.tail) && RightOf(q, ends) == RightOf(p, ends);
    assert RepAll(m, ends.bottom, [], On(added, RunEdge(q, s, ends))) && RepAll(m, ends.bottom, [], Stop(ends.tail));
    assert PathRep(m, ends, Top([], []), On(added, RunEdge(q, s, ends)));
    assert NodesAll([]) == {} && PathNodes(Top([], [])) == {};
    assert PathNodes(q) == PathNodes(p) + {added};
    assert DisjointAll([]) && PathDisjoint(Top([], []));
  }

  lemma {:induction false} RaiseFits(p: Path, t: Tower, h: nat, added: Ptr)
    requires Fits(p, t, h) && p.Top? && |p.ls| + |p.rs| == 1
    ensures Fits(Top([], []), Up(Step(Top([], []), added, INFINITY, p.ls, p.rs), t), h + 1)
    ensures Keys(Up(Step(Top([], []), added, INFINITY, p.ls, p.rs), t)) == Total(p, t)
  {
    var q := Step(Top([], []), added, INFINITY, p.ls, p.rs);
    assert KeysAll([]) == [];
    assert Before(Top([], [])) == [] && After(Top([], [])) == [];
    assert Before(q) == Before(p) && After(q) == After(p);
    assert PathShaped(Top([], []), INFINITY, h + 1);
    UpFits(q, t, h);
    TotalAtTop(Up(q, t));
  }

  lemma {:induction false} TotalAtTop(t: Tower)
    ensures Total(Top([], []), t) == Keys(t)
  {
    assert KeysAll([]) == [];
    assert Before(Top([], [])) == [] && After(Top([], [])) == [];
  }

  lemma {:induction false} SetBottom(m: Memory, m': Memory, ends: Ends, p: Path, t: Tower, item: int)
    requires Holds(m, ends, p, t) && m' == m[ends.bottom := m[ends.bottom].(element := item)]
    ensures Holds(m', ends, p, t)
  {
    PathInMemory(m, ends, p, LeftEdge(t, ends.bottom));
    RepNodes(m, ends.bottom, t, RightOf(p, ends));
    PathFrame(m, m', ends, p, LeftEdge(t, ends.bottom));
    RepFrame(m, m', ends.bottom, t, RightOf(p, ends));
  }

  lemma {:induction false} StartSeeking(m: Memory, ends: Ends, root: Tower, h: nat, item: int)
    requires Whole(m, ends, root, h) && m[ends.bottom].element == item < INFINITY
    ensures Seeks(m, ends, Top([], []), root, h, item) && AllNodes(Top([], []), root) == Nodes(root)
  {
    assert KeysAll([]) == [] && NodesAll([]) == {};
    assert Before(Top([], [])) == [] && PathNodes(Top([], [])) == {};
  }

  /** The search loop. It ends at Bottom, whose element was set to the item, unless the item is in the list. */
  method FindFrom(m: Memory, ends: Ends, list: Ptr, ghost root: Tower, ghost height: nat, item: int)
      returns (current: Ptr)
    requires Whole(m, ends, root, height) && list == root.n && m[ends.bottom].element == item < INFINITY
    ensures current in m && m[current].element == item
    ensures current == ends.bottom <==> item !in Keys(root)
    ensures current != ends.bottom ==> current in Nodes(root)
  {
    current := list;
    ghost var p, t, h := Top([], []), root, height;
    TotalAtTop(root);
    StartSeeking(m, ends, root, height, item);
    while item != m[current].element
      invariant current in m && Seeks(m, ends, p, t, h, item)
      invariant Total(p, t) == Keys(root) && AllNodes(p, t) == Nodes(root)
      invariant current == t.n || (current == ends.bottom && item !in Keys(root))
      decreases h, |p.rs|, if current == ends.bottom then 0 else 1
    {
      if item < m[current].element {
        if h > 0 {
          SeekDown(m, ends, p, t, h, item);
          p, t, h := Down(p, t), t.kids[0], h - 1;
        } else {
          SeekEnds(m, ends, p, t, item);
        }
        current := m[current].down;
      } else {
        SeekRight(m, ends, p, t, h, item);
        p, t := Right(p, t), p.rs[0];
        current := m[current].right;
      }
    }
    ElementIsKey(p, t, h);
  }

  lemma {:induction false} TopLinks(m: Memory, ends: Ends, p: Path, t: Tower)
    requires Holds(m, ends, p, t) && p.Top? && |p.ls| + |p.rs| <= 1
    ensures TopEdge(p, t.n) in m && (m[TopEdge(p, t.n)].right == ends.tail <==> p == Top([], []))
  {
    if p.ls != [] {
      assert p.ls[1..] == [] && RepAll(m, ends.bottom, p.ls, LeftEdge(t, ends.bottom));
      assert Rep(m, ends.bottom, p.ls[0], LeftEdge(t, ends.bottom));
    } else if p.rs != [] {
      assert NodesAll(p.rs) == Nodes(p.rs[0]) + NodesAll(p.rs[1..]);
    }
  }

  /** The keys of the list now: the old ones, and the item once it has been added. */
  ghost predicate KeysWith(now: seq<int>, was: seq<int>, item: int) {
    now == was ||
    (item !in was && exists i :: 0 <= i <= |was| && now == was[..i] + [item] + was[i..])
  }

  /** The condition of the split and the values it reads. */
  lemma {:induction false} SplitTest(m: Memory, ends: Ends, p: Path, t: Tower, h: nat, item: int)
    requires Seeks(m, ends, p, t, h, item)
    ensures Readable(m, t.n)
    ensures m[t.n].element > RightRight(m, t.n) <==> if h == 0 then item < t.e else |t.kids| == 4
    ensures t.kids == [] || |t.kids| == 4 ==> m[m[m[t.n].down].right].element == LeftHalf(t, item).e
    ensures t.kids == [] ==> m[m[m[t.n].down].right].right == ends.bottom
    ensures |t.kids| == 4 ==> m[m[m[t.n].down].right].right == t.kids[2].n
  {
    if h > 0 { WideTest(m, ends, p, t, h); }
  }

  lemma {:induction false} SplitKeys(m: Memory, ends: Ends, p: Path, t: Tower, h: nat, item: int, added: Ptr,
      was: seq<int>)
    requires Seeks(m, ends, p, t, h, item) && item <= t.e && KeysWith(Total(p, t), was, item)
    requires if h == 0 then item < t.e else |t.kids| == 4
    ensures KeysWith(Total(Widened(p, RightHalf(t, added)), LeftHalf(t, item)), was, item)
  {
    SplitTotal(p, t, item, added);
    if h == 0 {
      SeekEnds(m, ends, p, t, item);
      var s, b := Total(p, t), Before(p);
      NotYet(s, was, item);
      assert s == b + [t.e] + After(p);
      InsertedKey(b, t.e, After(p), item);
    }
  }

  /** The inner loop: along the run to the first element that is not below the item. */
  method GoRight(m: Memory, ends: Ends, from: Ptr, ghost p0: Path, ghost t0: Tower, ghost h: nat, item: int)
      returns (current: Ptr, ghost p: Path, ghost t: Tower)
    requires Seeks(m, ends, p0, t0, h, item) && from == t0.n && (Room(p0) || Slim(p0, t0, h, item))
    ensures Seeks(m, ends, p, t, h, item) && current == t.n && item <= t.e
    ensures Total(p, t) == Total(p0, t0) && TopEdge(p, t.n) == TopEdge(p0, t0.n)
    ensures Room(p) || Slim(p, t, h, item)
    ensures Slim(p0, t0, h, item) ==> Slim(p, t, h, item)
  {
    current, p, t := from, p0, t0;
    while item > m[current].element
      invariant Seeks(m, ends, p, t, h, item) && current == t.n
      invariant Total(p, t) == Total(p0, t0) && TopEdge(p, t.n) == TopEdge(p0, t0.n)
      invariant Room(p) || Slim(p, t, h, item)
      invariant Slim(p0, t0, h, item) ==> Slim(p, t, h, item)
      decreases |p.rs|
    {
      SeekRight(m, ends, p, t, h, item);
      p, t := Right(p, t), p.rs[0];
      current := m[current].right;
    }
  }

  lemma InsertedKey(b: seq<int>, e: int, a: seq<int>, item: int)
    requires item !in b + [e] + a
    ensures KeysWith(b + [item] + [e] + a, b + [e] + a, item)
  {
    var s := b + [e] + a;
    assert s[..|b|] == b && s[|b|..] == [e] + a;
    assert b + [item] + [e] + a == s[..|b|] + [item] + s[|b|..];
  }

  lemma NotYet(now: seq<int>, was: seq<int>, item: int)
    requires KeysWith(now, was, item)
    ensures item in now || now == was
  {
    if now != was {
      var i :| 0 <= i <= |was| && now == was[..i] + [item] + was[i..];
      assert now[i] == item;
    }
  }

  lemma KeysAdded(now: seq<int>, was: seq<int>, item: int)
    requires KeysWith(now, was, item) && item in now
    ensures forall x :: x in now <==> x in was || x == item
    ensures |now| == |was| + if item in was then 0 else 1
  {
    if now != was {
      var i :| 0 <= i <= |was| && now == was[..i] + [item] + was[i..];
      assert was == was[..i] + was[i..];
    }
  }

  /** The state between two rounds of the insertion loop. */
  ghost predicate Descends(m: Memory, next: Ptr, ends: Ends, p: Path, t: Tower, h: nat, item: int, list: Ptr,
      was: seq<int>) {
    Seeks(m, ends, p, t, h, item) && TopEdge(p, t.n) == list && KeysWith(Total(p, t), was, item) &&
    (Room(p) || Slim(p, t, h, item)) && forall n :: n in m ==> n < next
  }

  lemma {:induction false} DescendSplit(m: Memory, m': Memory, next: Ptr, ends: Ends, p: Path, t: Tower, h: nat,
      item: int, list: Ptr, was: seq<int>)
    requires Descends(m, next, ends, p, t, h, item, list, was) && item <= t.e
    requires if h == 0 then item < t.e else |t.kids| == 4
    requires m' == SplitMemory(m, t.n, next, LeftHalf(t, item).e, if t.kids == [] then ends.bottom else t.kids[2].n)
    ensures Descends(m', next + 1, ends, Widened(p, RightHalf(t, next)), LeftHalf(t, item), h, item, list, was)
    ensures Slim(Widened(p, RightHalf(t, next)), LeftHalf(t, item), h, item) && !Slim(p, t, h, item)
  {
    SeekSplit(m, m', ends, p, t, h, item, next);
    SplitKeys(m, ends, p, t, h, item, next, was);
  }

  /** One round: split the node, or go down. The search is over when it goes down from the lowest level. */
  method SplitOrDown(m: Memory, next: Ptr, ends: Ends, current: Ptr, ghost p: Path, ghost t: Tower, ghost h: nat,
      item: int, ghost list: Ptr, ghost was: seq<int>)
      returns (m': Memory, next': Ptr, current': Ptr, ghost p': Path, ghost t': Tower, ghost h': nat)
    requires Descends(m, next, ends, p, t, h, item, list, was) && current == t.n && item <= t.e
    ensures Descends(m', next', ends, p', t', h', item, list, was)
    ensures if current' == ends.bottom then h' == h && t'.e == item else current' == t'.n
    ensures h' < h || (h' == h && (current' == ends.bottom || (!Slim(p, t, h, item) && Slim(p', t', h', item))))
  {
    m', next', p', t', h' := m, next, p, t, h;
    SplitTest(m, ends, p, t, h, item);
    if m[current].element > RightRight(m, current) {
      var second := m[m[current].down].right;
      m', next' := SplitMemory(m, current, next, m[second].element, m[second].right), next + 1;
      DescendSplit(m, m', next, ends, p, t, h, item, list, was);
      p', t', current' := Widened(p, RightHalf(t, next)), LeftHalf(t, item), current;
    } else {
      if h > 0 {
        SeekDown(m, ends, p, t, h, item);
        p', t', h' := Down(p, t), t.kids[0], h - 1;
      }
      current' := m[current].down;
    }
  }

  /** The insertion loop. Nodes with three below them in their gap are split before the search goes down. */
  method Promote(m0: Memory, next0: Ptr, ends: Ends, list: Ptr, ghost root: Tower, ghost height: nat, item: int)
      returns (m: Memory, next: Ptr, ghost p: Path, ghost t: Tower, ghost h: nat)
    requires Whole(m0, ends, root, height) && list == root.n && m0[ends.bottom].element == item < INFINITY
    requires forall n :: n in m0 ==> n < next0
    ensures Holds(m, ends, p, t) && Fits(p, t, h) && TopEdge(p, t.n) == list
    ensures KeysWith(Total(p, t), Keys(root), item) && item in Total(p, t)
    ensures forall n :: n in m ==> n < next
  {
    m, next, p, t, h := m0, next0, Top([], []), root, height;
    TotalAtTop(root);
    StartSeeking(m, ends, root, height, item);
    var current := list;
    while current != ends.bottom
      invariant Descends(m, next, ends, p, t, h, item, list, Keys(root))
      invariant if current == ends.bottom then t.e == item else current == t.n
      decreases h, if current == ends.bottom then 0 else 1, if Slim(p, t, h, item) then 0 else 1
    {
      current, p, t := GoRight(m, ends, current, p, t, h, item);
      m, next, current, p, t, h := SplitOrDown(m, next, ends, current, p, t, h, item, list, Keys(root));
    }
    ElementIsKey(p, t, h);
  }

  /** Raises the height if the top level has a second node. */
  method Raise(m0: Memory, next0: Ptr, ends: Ends, list0: Ptr, ghost p: Path, ghost t: Tower, ghost h: nat)
      returns (m: Memory, next: Ptr, list: Ptr, ghost root: Tower, ghost height: nat)
    requires Holds(m0, ends, p, t) && Fits(p, t, h) && p.Top? && TopEdge(p, t.n) == list0
    requires forall n :: n in m0 ==> n < next0
    ensures Whole(m, ends, root, height) && Keys(root) == Total(p, t) && list == root.n
    ensures forall n :: n in m ==> n < next
  {
    m, next, list, root, height := m0, next0, list0, t, h;
    TopLinks(m, ends, p, t);
    if m[list].right != ends.tail {
      m := m[next := Node(INFINITY, ends.tail, list)];
      RaiseWhole(m0, m, ends, p, t, h, next);
      root, height := Up(Step(Top([], []), next, INFINITY, p.ls, p.rs), t), h + 1;
      list, next := next, next + 1;
    } else {
      TotalAtTop(root);
    }
  }

  method InsertInto(m0: Memory, next0: Ptr, ends: Ends, list0: Ptr, ghost root0: Tower, ghost height0: nat, item: int)
      returns (m: Memory, next: Ptr, list: Ptr, ghost root: Tower, ghost height: nat)
    requires Whole(m0, ends, root0, height0) && list0 == root0.n && item < INFINITY && forall n :: n in m0 ==> n < next0
    ensures Whole(m, ends, root, height) && list == root.n && forall n :: n in m ==> n < next
    ensures forall x :: x in Keys(root) <==> x in Keys(root0) || x == item
    ensures |Keys(root)| == |Keys(root0)| + if item in Keys(root0) then 0 else 1
  {
    m := m0[ends.bottom := m0[ends.bottom].(element := item)];
    SetBottom(m0, m, ends, Top([], []), root0, item);
    ghost var p, t, h;
    m, next, p, t, h := Promote(m, next0, ends, list0, root0, height0, item);
    KeysAdded(Total(p, t), Keys(root0), item);
    h := ZipHolds(m, ends, p, t, h);
    m, next, list, root, height := Raise(m, next, ends, list0, Zip(p, t).0, Zip(p, t).1, h);
  }

  /** One list: the static Bottom and Tail, and the header L. */
  class SkipLists {
    var mem: Memory
    var next: Ptr
    var bottom: Ptr
    var tail: Ptr
    var list: Ptr
    ghost var root: Tower
    ghost var height: nat

    ghost predicate Valid()
      reads this
    {
      Whole(mem, Ends(bottom, tail), root, height) && list == root.n && forall n :: n in mem ==> n < next
    }

    /** The keys in order, ending with the sentinel INFINITY. */
    ghost function Contents(): seq<int>
      reads this
    {
      Keys(root)
    }

    constructor ()
      ensures Valid() && Contents() == [INFINITY] && height == 0
    {
      bottom, tail, list, next := 0, 1, 2, 3;
      mem := map[0 := Node(0, 0, 0), 1 := Node(INFINITY, 1, 0), 2 := Node(INFINITY, 1, 0)];
      root, height := Tower(2, INFINITY, []), 0;
      new;
      assert NodesAll([]) == {} && KeysAll([]) == [];
      assert Nodes(root) == {2} + NodesAll([]);
      assert DisjointAll([]);
      assert RepAll(mem, bottom, [], Stop(tail)) && RepAll(mem, bottom, [], LeftEdge(root, bottom));
      assert RightOf(Top([], []), Ends(bottom, tail)) == Stop(tail);
      TotalAtTop(root);
    }

    /** Find: a real node exactly for a key of the list, otherwise Bottom. */
    method Find(item: int) returns (current: Ptr)
      requires Valid() && item < INFINITY
      modifies this`mem
      ensures Valid() && mem == old(mem)[bottom := old(mem[bottom]).(element := item)]
      ensures current in mem && mem[current].element == item
      ensures current != bottom <==> item in Contents()
      ensures current != bottom ==> current in Nodes(root)
    {
      var ends := Ends(bottom, tail);
      SetBottom(mem, mem[bottom := mem[bottom].(element := item)], ends, Top([], []), root, item);
      mem := mem[bottom := mem[bottom].(element := item)];
      current := FindFrom(mem, ends, list, root, height, item);
    }

    /** Insert: the keys become the old ones together with the item. */
    method Insert(item: int)
      requires Valid() && item < INFINITY
      modifies this
      ensures Valid() && bottom == old(bottom) && tail == old(tail)
      ensures forall x :: x in Contents() <==> x in old(Contents()) || x == item
      ensures |Contents()| == |old(Contents())| + if item in old(Contents()) then 0 else 1
    {
      mem, next, list, root, height := InsertInto(mem, next, Ends(bottom, tail), list, root, height, item);
    }
  }
}
