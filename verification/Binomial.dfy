/** Binomial queues, DSAAC/binomial.c. */
module Binomial {
  import opened Basics

  const INFINITY := 30000
  const MAX_TREES := 14
  const CAPACITY := 16383
  const NULL: Ptr := 0

  datatype Node = Node(element: int, leftChild: Ptr, nextSibling: Ptr)

  type Memory = map<Ptr, Node>

  // ----- Shapes -----

  /** A list of trees linked by nextSibling; kids is the list of children of the first. */
  datatype Forest = Nil | Tree(n: Ptr, e: int, kids: Forest, rest: Forest)

  ghost function Elems(f: Forest): multiset<int> {
    if f.Nil? then multiset{} else multiset{f.e} + Elems(f.kids) + Elems(f.rest)
  }

  ghost function Nodes(f: Forest): set<Ptr> {
    if f.Nil? then {} else {f.n} + Nodes(f.kids) + Nodes(f.rest)
  }

  ghost predicate Disjoint(f: Forest) {
    f.Tree? ==>
      Disjoint(f.kids) && Disjoint(f.rest) && f.n !in Nodes(f.kids) + Nodes(f.rest) && Nodes(f.kids) !! Nodes(f.rest)
  }

  /** Binomial trees of ranks k - 1, ..., 0. */
  ghost predicate Ranks(f: Forest, k: nat) {
    if k == 0 then f.Nil? else f.Tree? && Ranks(f.kids, k - 1) && Ranks(f.rest, k - 1)
  }

  ghost predicate Ordered(f: Forest, lo: int) {
    f.Tree? ==> lo <= f.e && Ordered(f.kids, f.e) && Ordered(f.rest, lo)
  }

  /** Nothing, or one heap-ordered binomial tree of rank k. */
  ghost predicate Slot(f: Forest, k: nat) {
    f.Tree? ==> f.rest.Nil? && Ranks(f.kids, k) && Ordered(f.kids, f.e)
  }

  ghost function Bit(f: Forest): nat {
    if f.Nil? then 0 else 1
  }

  /** The children of a tree of rank k are 2^k - 1 nodes in all. */
  lemma {:induction false} RankCount(f: Forest, k: nat)
    requires Ranks(f, k)
    ensures |Elems(f)| == Pow2(k) - 1
  {
    if k > 0 {
      RankCount(f.kids, k - 1);
      RankCount(f.rest, k - 1);
      CountParts(f.e, Elems(f.kids), Elems(f.rest));
    }
  }

  lemma CountParts(e: int, a: multiset<int>, b: multiset<int>)
    ensures |multiset{e} + a + b| == 1 + |a| + |b|
  {
  }

  lemma {:induction false} SlotCount(f: Forest, k: nat)
    requires Slot(f, k)
    ensures |Elems(f)| == Bit(f) * Pow2(k)
  {
    if f.Tree? { RankCount(f.kids, k); }
  }

  /** Heap order puts a least element at the front. */
  lemma {:induction false} OrderedLeast(f: Forest, lo: int, x: int)
    requires Ordered(f, lo) && x in Elems(f)
    ensures lo <= x
  {
    if x in Elems(f.kids) { OrderedLeast(f.kids, f.e, x); }
    if x in Elems(f.rest) { OrderedLeast(f.rest, lo, x); }
  }

  lemma {:induction false} RootLeast(f: Forest, k: nat, x: int)
    requires Slot(f, k) && x in Elems(f)
    ensures f.e <= x && f.e in Elems(f)
  {
    if x in Elems(f.kids) { OrderedLeast(f.kids, f.e, x); }
  }

  // ----- Shapes in memory -----

  ghost predicate Rep(m: Memory, f: Forest, p: Ptr) {
    match f
    case Nil => p == NULL
    case Tree(n, e, kids, rest) =>
      p == n && n != NULL && n in m && m[n].element == e && Rep(m, kids, m[n].leftChild) &&
        Rep(m, rest, m[n].nextSibling)
  }

  lemma {:induction false} RepFrame(m: Memory, m': Memory, f: Forest, p: Ptr)
    requires Rep(m, f, p) && Agree(m, m', Nodes(f))
    ensures Rep(m', f, p)
  {
    if f.Tree? {
      RepFrame(m, m', f.kids, m[f.n].leftChild);
      RepFrame(m, m', f.rest, m[f.n].nextSibling);
    }
  }

  lemma {:induction false} RepNodes(m: Memory, f: Forest, p: Ptr)
    requires Rep(m, f, p)
    ensures Nodes(f) <= m.Keys && NULL !in Nodes(f)
  {
    if f.Tree? {
      RepNodes(m, f.kids, m[f.n].leftChild);
      RepNodes(m, f.rest, m[f.n].nextSibling);
    }
  }

  // ----- Adding trees -----

  ghost function Combined(a: Forest, b: Forest): Forest
    requires a.Tree? && b.Tree?
  {
    if a.e > b.e then Tree(b.n, b.e, Tree(a.n, a.e, a.kids, b.kids), Nil)
    else Tree(a.n, a.e, Tree(b.n, b.e, b.kids, a.kids), Nil)
  }

  lemma {:induction false} CombinedSlot(a: Forest, b: Forest, k: nat)
    requires a.Tree? && b.Tree? && Slot(a, k) && Slot(b, k)
    ensures Slot(Combined(a, b), k + 1)
  {
  }

  lemma {:induction false} CombinedElems(a: Forest, b: Forest)
    requires a.Tree? && b.Tree? && a.rest.Nil? && b.rest.Nil?
    ensures Elems(Combined(a, b)) == Elems(a) + Elems(b)
  {
    var x, y := if a.e > b.e then b else a, if a.e > b.e then a else b;
    assert Elems(Nil) == multiset{};
    assert Elems(Tree(y.n, y.e, y.kids, x.kids)) == multiset{y.e} + Elems(y.kids) + Elems(x.kids);
  }

  lemma {:induction false} CombinedNodes(a: Forest, b: Forest)
    requires a.Tree? && b.Tree? && a.rest.Nil? && b.rest.Nil?
    ensures Nodes(Combined(a, b)) == Nodes(a) + Nodes(b)
    ensures Disjoint(a) && Disjoint(b) && Nodes(a) !! Nodes(b) ==> Disjoint(Combined(a, b))
  {
    if a.e > b.e { LinkedNodes(b, a); } else { LinkedNodes(a, b); }
  }

  /** The tree b becomes the first child of a. */
  lemma {:induction false} LinkedNodes(a: Forest, b: Forest)
    requires a.Tree? && b.Tree? && a.rest.Nil? && b.rest.Nil?
    ensures Nodes(Tree(a.n, a.e, Tree(b.n, b.e, b.kids, a.kids), Nil)) == Nodes(a) + Nodes(b)
    ensures Disjoint(a) && Disjoint(b) && Nodes(a) !! Nodes(b) ==>
              Disjoint(Tree(a.n, a.e, Tree(b.n, b.e, b.kids, a.kids), Nil))
  {
    var d := Tree(b.n, b.e, b.kids, a.kids);
    assert Nodes(Nil) == {};
    assert Nodes(d) == {b.n} + Nodes(b.kids) + Nodes(a.kids);
    assert Nodes(a) == {a.n} + Nodes(a.kids) && Nodes(b) == {b.n} + Nodes(b.kids);
    if Disjoint(a) && Disjoint(b) && Nodes(a) !! Nodes(b) { assert Disjoint(d); }
  }

  method CombineTrees(m: Memory, t1: Ptr, t2: Ptr, ghost a: Forest, ghost b: Forest) returns (m': Memory, t: Ptr)
    requires a.Tree? && b.Tree? && a.rest.Nil? && b.rest.Nil?
    requires Rep(m, a, t1) && Rep(m, b, t2) && Disjoint(a) && Disjoint(b) && Nodes(a) !! Nodes(b)
    ensures Rep(m', Combined(a, b), t) && m'.Keys == m.Keys
    ensures forall n :: n in m && n !in Nodes(a) + Nodes(b) ==> m'[n] == m[n]
    decreases if m[t1].element > m[t2].element then 1 else 0
  {
    if m[t1].element > m[t2].element {
      m', t := CombineTrees(m, t2, t1, b, a);
      return;
    }
    m' := m[t2 := m[t2].(nextSibling := m[t1].leftChild)];
    m' := m'[t1 := m'[t1].(leftChild := t2)];
    t := t1;
    RepFrame(m, m', a.kids, m[t1].leftChild);
    RepFrame(m, m', b.kids, m[t2].leftChild);
    assert Rep(m', Tree(b.n, b.e, b.kids, a.kids), t2);
  }

  /** One column of the addition: what stays in the column and what is carried. */
  datatype Sum = Sum(out: Forest, carry: Forest)

  ghost function Add(a: Forest, b: Forest, c: Forest): Sum {
    if a.Tree? && b.Tree? then Sum(c, Combined(a, b))
    else if a.Tree? && c.Tree? then Sum(Nil, Combined(a, c))
    else if b.Tree? && c.Tree? then Sum(Nil, Combined(b, c))
    else if a.Tree? then Sum(a, Nil)
    else if b.Tree? then Sum(b, Nil)
    else Sum(c, Nil)
  }

  ghost predicate Apart(a: Forest, b: Forest, c: Forest) {
    Disjoint(a) && Disjoint(b) && Disjoint(c) && Nodes(a) !! Nodes(b) && Nodes(a) !! Nodes(c) && Nodes(b) !! Nodes(c)
  }

  /** A column adds the bits, and keeps ranks and heap order. */
  lemma {:induction false} AddSlots(a: Forest, b: Forest, c: Forest, k: nat)
    requires Slot(a, k) && Slot(b, k) && Slot(c, k)
    ensures Slot(Add(a, b, c).out, k) && Slot(Add(a, b, c).carry, k + 1)
    ensures Bit(a) + Bit(b) + Bit(c) == Bit(Add(a, b, c).out) + 2 * Bit(Add(a, b, c).carry)
  {
    if a.Tree? && b.Tree? { CombinedSlot(a, b, k); }
    else if a.Tree? && c.Tree? { CombinedSlot(a, c, k); }
    else if b.Tree? && c.Tree? { CombinedSlot(b, c, k); }
  }

  /** A column keeps the elements. */
  lemma {:induction false} AddElems(a: Forest, b: Forest, c: Forest, k: nat)
    requires Slot(a, k) && Slot(b, k) && Slot(c, k)
    ensures Elems(a) + Elems(b) + Elems(c) == Elems(Add(a, b, c).out) + Elems(Add(a, b, c).carry)
  {
    assert Elems(Nil) == multiset{};
    if a.Tree? && b.Tree? {
      CombinedElems(a, b);
      Rejoined(Elems(a), Elems(b), Elems(c));
    } else if a.Tree? && c.Tree? {
      CombinedElems(a, c);
      Rejoined(Elems(a), Elems(c), Elems(b));
    } else if b.Tree? && c.Tree? {
      CombinedElems(b, c);
      Rejoined(Elems(b), Elems(c), Elems(a));
    }
  }

  lemma Rejoined(x: multiset<int>, y: multiset<int>, z: multiset<int>)
    ensures x + y + z == z + (x + y) && x + z + y == x + y + z && z + x + y == x + y + z
  {
  }

  /** A column keeps the nodes. */
  lemma {:induction false} AddNodes(a: Forest, b: Forest, c: Forest, k: nat)
    requires Slot(a, k) && Slot(b, k) && Slot(c, k) && Apart(a, b, c)
    ensures Nodes(a) + Nodes(b) + Nodes(c) == Nodes(Add(a, b, c).out) + Nodes(Add(a, b, c).carry)
    ensures Apart(Add(a, b, c).out, Nil, Add(a, b, c).carry)
  {
    assert Nodes(Nil) == {};
    if a.Tree? && b.Tree? { CombinedNodes(a, b); }
    else if a.Tree? && c.Tree? { CombinedNodes(a, c); }
    else if b.Tree? && c.Tree? { CombinedNodes(b, c); }
  }

  /** The switch of Merge on T1, T2 and Carry: the new column of H1, of H2 and the new carry. */
  method AddColumn(m: Memory, t1: Ptr, t2: Ptr, carry: Ptr, ghost a: Forest, ghost b: Forest, ghost c: Forest,
      ghost k: nat)
      returns (m': Memory, r1: Ptr, r2: Ptr, carry': Ptr)
    requires Rep(m, a, t1) && Rep(m, b, t2) && Rep(m, c, carry) && Apart(a, b, c)
    requires Slot(a, k) && Slot(b, k) && Slot(c, k)
    ensures Rep(m', Add(a, b, c).out, r1) && r2 == NULL && Rep(m', Add(a, b, c).carry, carry')
    ensures m'.Keys == m.Keys && forall n :: n in m && n !in Nodes(a) + Nodes(b) + Nodes(c) ==> m'[n] == m[n]
  {
    m', r1, r2, carry' := m, t1, t2, carry;
    match (t1 != NULL, t2 != NULL, carry != NULL) {
      case (false, false, false) =>
      case (true, false, false) =>
      case (false, true, false) => r1, r2 := t2, NULL;
      case (false, false, true) => r1, carry' := carry, NULL;
      case (true, true, false) => m', carry' := CombineTrees(m, t1, t2, a, b); r1, r2 := NULL, NULL;
      case (true, false, true) => m', carry' := CombineTrees(m, t1, carry, a, c); r1 := NULL;
      case (false, true, true) => m', carry' := CombineTrees(m, t2, carry, b, c); r2 := NULL;
      case (true, true, true) =>
        r1 := carry;
        m', carry' := CombineTrees(m, t1, t2, a, b);
        RepFrame(m, m', c, carry);
        r2 := NULL;
    }
  }

  // ----- Numbers as queues -----

  /** The number n shifted right by i bits. */
  function Shift(n: nat, i: nat): nat {
    if i == 0 then n else Shift(n, i - 1) / 2
  }

  /** The number that columns i and up stand for. */
  ghost function Value(ts: seq<Forest>, i: nat): nat
    requires i <= |ts|
    decreases |ts| - i
  {
    if i == |ts| then 0 else Bit(ts[i]) + 2 * Value(ts, i + 1)
  }

  ghost function Bag(ts: seq<Forest>, i: nat): multiset<int>
    requires i <= |ts|
    decreases |ts| - i
  {
    if i == |ts| then multiset{} else Elems(ts[i]) + Bag(ts, i + 1)
  }

  ghost predicate Slots(ts: seq<Forest>) {
    forall i :: 0 <= i < |ts| ==> Slot(ts[i], i)
  }

  /** A column holds a tree exactly when its bit of the number is 1. */
  lemma {:induction false} ColumnsAreBits(ts: seq<Forest>, i: nat)
    requires i <= |ts|
    ensures Shift(Value(ts, 0), i) == Value(ts, i)
    ensures i < |ts| ==> (ts[i].Tree? <==> Shift(Value(ts, 0), i) % 2 == 1)
  {
    if i > 0 { ColumnsAreBits(ts, i - 1); }
  }

  ghost predicate HasBit(t: Forest, n: nat, i: nat) {
    Bit(t) == Shift(n, i) % 2
  }

  lemma {:induction false} ColumnStep(ts: seq<Forest>, n: nat, i: nat)
    requires i < |ts| && HasBit(ts[i], n, i) && Value(ts, i + 1) == Shift(n, i + 1)
    ensures Value(ts, i) == Shift(n, i)
  {
    Halves(Shift(n, i));
  }

  lemma {:induction false} BitsAreColumns(ts: seq<Forest>, n: nat, i: nat)
    requires i <= |ts| && Shift(n, |ts|) == 0
    requires forall j :: 0 <= j < |ts| ==> HasBit(ts[j], n, j)
    ensures Value(ts, i) == Shift(n, i)
    decreases |ts| - i
  {
    if i < |ts| {
      BitsAreColumns(ts, n, i + 1);
      ColumnStep(ts, n, i);
    }
  }

  lemma Halves(n: nat)
    ensures n == n % 2 + 2 * (n / 2)
  {
  }

  lemma {:induction false} ShiftAtLeast(n: nat, i: nat, k: nat)
    ensures Shift(n, i) >= k <==> n >= k * Pow2(i)
  {
    if i > 0 {
      ShiftAtLeast(n, i - 1, 2 * k);
      Doubled(k, Pow2(i - 1));
    }
  }

  lemma Doubled(k: nat, p: nat)
    ensures (2 * k) * p == k * (2 * p)
  {
  }

  lemma {:induction false} ValueZero(ts: seq<Forest>, i: nat)
    requires i <= |ts| && Value(ts, i) == 0
    ensures forall j :: i <= j < |ts| ==> ts[j].Nil?
    ensures Bag(ts, i) == multiset{}
    decreases |ts| - i
  {
    if i < |ts| { ValueZero(ts, i + 1); }
  }

  /** A queue of n elements: the number of elements is the number the columns stand for. */
  lemma {:induction false} BagSize(ts: seq<Forest>, i: nat)
    requires i <= |ts| && Slots(ts)
    ensures |Bag(ts, i)| == Value(ts, i) * Pow2(i)
    decreases |ts| - i
  {
    if i < |ts| {
      BagSize(ts, i + 1);
      SlotCount(ts[i], i);
      BagStep(ts, i);
    }
  }

  lemma {:induction false} BagStep(ts: seq<Forest>, i: nat)
    requires i < |ts|
    requires |Elems(ts[i])| == Bit(ts[i]) * Pow2(i) && |Bag(ts, i + 1)| == Value(ts, i + 1) * Pow2(i + 1)
    ensures |Bag(ts, i)| == Value(ts, i) * Pow2(i)
  {
    var b, v, p := Bit(ts[i]), Value(ts, i + 1), Pow2(i);
    Both(Elems(ts[i]), Bag(ts, i + 1));
    assert Value(ts, i) == b + 2 * v && Pow2(i + 1) == 2 * p;
    Spread(b, v, p, 2 * p, |Elems(ts[i])|, |Bag(ts, i + 1)|);
  }

  lemma Both(a: multiset<int>, b: multiset<int>)
    ensures |a + b| == |a| + |b|
  {
  }

  lemma Spread(b: nat, v: nat, p: nat, q: nat, x: nat, y: nat)
    requires q == 2 * p && x == b * p && y == v * q
    ensures x + y == (b + 2 * v) * p
  {
  }

  // ----- Queues in memory -----

  /** Separate trees at the given addresses. */
  ghost predicate Held(m: Memory, ts: seq<Forest>, ps: seq<Ptr>) {
    |ts| == |ps| &&
    (forall i :: 0 <= i < |ts| ==> Rep(m, ts[i], ps[i]) && Disjoint(ts[i])) &&
    (forall i, j :: 0 <= i < j < |ts| ==> Nodes(ts[i]) !! Nodes(ts[j]))
  }

  ghost predicate Cover(ts: seq<Forest>, s: set<Ptr>) {
    forall i :: 0 <= i < |ts| ==> Nodes(ts[i]) <= s
  }

  /** Nothing outside s has changed. */
  ghost predicate OnlyIn(m: Memory, m': Memory, s: set<Ptr>) {
    forall n :: n in m && n !in s ==> n in m' && m'[n] == m[n]
  }

  /** The columns of two queues and one more list of trees. */
  function Three<T>(a: seq<T>, b: seq<T>, c: T): seq<T> {
    a + b + [c]
  }

  lemma ThreeUpdate<T>(a: seq<T>, b: seq<T>, c: T, i: nat, x: T, y: T, z: T)
    requires i < |a| == |b|
    ensures Three(a, b, c)[i := x][|a| + i := y][|a| + |b| := z] == Three(a[i := x], b[i := y], z)
  {
  }

  /** New trees at three places, made of the nodes that were there. */
  lemma {:induction false} Replace(m: Memory, m': Memory, ts: seq<Forest>, ps: seq<Ptr>, i: nat, j: nat, k: nat,
                                   x: Forest, y: Forest, z: Forest, p: Ptr, q: Ptr, r: Ptr, s: set<Ptr>)
    requires Held(m, ts, ps) && i < j < k < |ts| && Cover(ts, s)
    requires Rep(m', x, p) && Rep(m', y, q) && Rep(m', z, r) && Apart(x, y, z)
    requires Nodes(x) + Nodes(y) + Nodes(z) <= Nodes(ts[i]) + Nodes(ts[j]) + Nodes(ts[k])
    requires OnlyIn(m, m', Nodes(ts[i]) + Nodes(ts[j]) + Nodes(ts[k]))
    ensures Held(m', ts[i := x][j := y][k := z], ps[i := p][j := q][k := r])
    ensures Cover(ts[i := x][j := y][k := z], s) && OnlyIn(m, m', s)
  {
    var us, rs := ts[i := x][j := y][k := z], ps[i := p][j := q][k := r];
    var old3 := Nodes(ts[i]) + Nodes(ts[j]) + Nodes(ts[k]);
    forall h | 0 <= h < |ts| && h != i && h != j && h != k ensures Nodes(ts[h]) !! old3 {
    }
    forall h | 0 <= h < |us| ensures Rep(m', us[h], rs[h]) && Disjoint(us[h]) {
      if h != i && h != j && h != k { RepFrame(m, m', ts[h], ps[h]); }
    }
    forall g, h | 0 <= g < h < |us| ensures Nodes(us[g]) !! Nodes(us[h]) {
      ReplaceApart(ts, us, old3, i, j, k, g, h);
    }
  }

  lemma {:induction false} ReplaceApart(ts: seq<Forest>, us: seq<Forest>, s: set<Ptr>, i: nat, j: nat, k: nat, g: nat,
      h: nat)
    requires |us| == |ts| && g < h < |us| && i < j < k < |us|
    requires forall l :: 0 <= l < |ts| && l != i && l != j && l != k ==> us[l] == ts[l] && Nodes(ts[l]) !! s
    requires Nodes(us[i]) <= s && Nodes(us[j]) <= s && Nodes(us[k]) <= s && Apart(us[i], us[j], us[k])
    requires forall x, y :: 0 <= x < y < |ts| ==> Nodes(ts[x]) !! Nodes(ts[y])
    ensures Nodes(us[g]) !! Nodes(us[h])
  {
    if g != i && g != j && g != k {
      assert Nodes(us[g]) !! s;
      if h != i && h != j && h != k { assert Nodes(ts[g]) !! Nodes(ts[h]); }
    } else if h != i && h != j && h != k {
      assert Nodes(us[h]) !! s;
    }
  }

  // ----- Merging as binary addition -----

  lemma {:induction false} LaterColumns(ts: seq<Forest>, i: nat, x: Forest, k: nat)
    requires i < k <= |ts|
    ensures Value(ts[i := x], k) == Value(ts, k) && Bag(ts[i := x], k) == Bag(ts, k)
    decreases |ts| - k
  {
    if k < |ts| { LaterColumns(ts, i, x, k + 1); }
  }

  lemma {:induction false} BagUpdate(ts: seq<Forest>, i: nat, x: Forest, k: nat)
    requires k <= i < |ts|
    ensures Bag(ts[i := x], k) + Elems(ts[i]) == Bag(ts, k) + Elems(x)
    decreases i - k
  {
    if k < i {
      BagUpdate(ts, i, x, k + 1);
      Exchange(Elems(ts[k]), Bag(ts[i := x], k + 1), Elems(ts[i]), Bag(ts, k + 1), Elems(x));
    } else {
      LaterColumns(ts, i, x, k + 1);
      Exchange(Bag(ts, k + 1), Elems(x), Elems(ts[i]), Elems(ts[i]), Elems(x));
    }
  }

  lemma Exchange(a: multiset<int>, b: multiset<int>, c: multiset<int>, d: multiset<int>, e: multiset<int>)
    requires b + c == d + e
    ensures (a + b) + c == (a + d) + e && (b + a) + c == (d + a) + e
  {
    assert (a + b) + c == a + (b + c);
    assert (a + d) + e == a + (d + e);
    assert b + a == a + b && d + a == a + d;
  }

  /** The addition up to column i: the finished columns a[..i] hold the low bits of n, the rest is still to be added. */
  ghost predicate Adding(a: seq<Forest>, b: seq<Forest>, c: Forest, n: nat, i: nat, total: multiset<int>) {
    |a| == |b| == MAX_TREES && i <= MAX_TREES && Slots(a) && Slots(b) && Slot(c, i) &&
    Value(a, i) + Value(b, i) + Bit(c) == Shift(n, i) && Finished(a, b, n, i) &&
    Bag(a, 0) + Bag(b, 0) + Elems(c) == total
  }

  ghost predicate Finished(a: seq<Forest>, b: seq<Forest>, n: nat, i: nat) {
    i <= |a| == |b| && forall j :: 0 <= j < i ==> HasBit(a[j], n, j) && b[j].Nil?
  }

  lemma FinishedStep(a: seq<Forest>, b: seq<Forest>, n: nat, i: nat, out: Forest)
    requires Finished(a, b, n, i) && i < |a| && HasBit(out, n, i)
    ensures Finished(a[i := out], b[i := Nil], n, i + 1)
  {
  }

  lemma {:induction false} AddingStep(a: seq<Forest>, b: seq<Forest>, c: Forest, n: nat, i: nat, total: multiset<int>)
    requires Adding(a, b, c, n, i, total) && i < MAX_TREES
    ensures Adding(a[i := Add(a[i], b[i], c).out], b[i := Nil], Add(a[i], b[i], c).carry, n, i + 1, total)
  {
    var s := Add(a[i], b[i], c);
    AddSlots(a[i], b[i], c, i);
    SlotsUpdate(a, i, s.out);
    SlotsUpdate(b, i, Nil);
    AddingValue(a, b, c, n, i);
    FinishedStep(a, b, n, i, s.out);
    AddingBag(a, b, c, i, total);
  }

  lemma SlotsUpdate(ts: seq<Forest>, i: nat, x: Forest)
    requires Slots(ts) && i < |ts| && Slot(x, i)
    ensures Slots(ts[i := x])
  {
  }

  lemma {:induction false} AddingValue(a: seq<Forest>, b: seq<Forest>, c: Forest, n: nat, i: nat)
    requires i < |a| == |b| && Slot(a[i], i) && Slot(b[i], i) && Slot(c, i) &&
      Value(a, i) + Value(b, i) + Bit(c) == Shift(n, i)
    ensures Value(a[i := Add(a[i], b[i], c).out], i + 1) + Value(b[i := Nil], i + 1) + Bit(Add(a[i], b[i], c).carry) ==
      Shift(n, i + 1)
    ensures HasBit(Add(a[i], b[i], c).out, n, i)
  {
    var s := Add(a[i], b[i], c);
    AddSlots(a[i], b[i], c, i);
    LaterColumns(a, i, s.out, i + 1);
    LaterColumns(b, i, Nil, i + 1);
    ColumnSum(Bit(a[i]) + Bit(b[i]) + Bit(c), Bit(s.out), Bit(s.carry), Value(a, i + 1) + Value(b, i + 1), Shift(n, i));
  }

  lemma ColumnSum(bits: nat, out: nat, carry: nat, high: nat, n: nat)
    requires bits + 2 * high == n && bits == out + 2 * carry && out <= 1
    ensures n % 2 == out && n / 2 == high + carry
  {
  }

  lemma {:induction false} AddingBag(a: seq<Forest>, b: seq<Forest>, c: Forest, i: nat, total: multiset<int>)
    requires i < |a| == |b| && Slot(a[i], i) && Slot(b[i], i) && Slot(c, i) && Bag(a, 0) + Bag(b, 0) + Elems(c) == total
    ensures Bag(a[i := Add(a[i], b[i], c).out], 0) + Bag(b[i := Nil], 0) + Elems(Add(a[i], b[i], c).carry) == total
  {
    var s := Add(a[i], b[i], c);
    AddElems(a[i], b[i], c, i);
    BagUpdate(a, i, s.out, 0);
    BagUpdate(b, i, Nil, 0);
    assert Elems(Nil) == multiset{};
    BagsMove(Bag(a, 0), Bag(b, 0), Elems(c), Elems(a[i]), Elems(b[i]),
             Bag(a[i := s.out], 0), Bag(b[i := Nil], 0), Elems(s.out), Elems(s.carry));
  }

  lemma BagsMove(a: multiset<int>, b: multiset<int>, c: multiset<int>, x: multiset<int>, y: multiset<int>,
                 a': multiset<int>, b': multiset<int>, out: multiset<int>, carry: multiset<int>)
    requires a' + x == a + out && b' + y == b && x + y + c == out + carry
    ensures a' + b' + carry == a + b + c
  {
    forall e ensures (a' + b' + carry)[e] == (a + b + c)[e] {
      assert (a' + x)[e] == (a + out)[e];
      assert (b' + y)[e] == b[e];
      assert (x + y + c)[e] == (out + carry)[e];
    }
  }

  /** When 2^i exceeds the sum nothing is left: the carry is empty, and a is the sum. */
  lemma {:induction false} AddingEnds(a: seq<Forest>, b: seq<Forest>, c: Forest, n: nat, i: nat, total: multiset<int>)
    requires Adding(a, b, c, n, i, total) && Pow2(i) > n
    ensures c.Nil? && Value(a, 0) == n && Bag(a, 0) == total
    ensures forall j :: 0 <= j < MAX_TREES ==> b[j].Nil?
  {
    ShiftAtLeast(n, i, 1);
    ValueZero(a, i);
    ValueZero(b, i);
    ShiftZero(n, i, MAX_TREES);
    forall j | 0 <= j < |a| ensures HasBit(a[j], n, j) {
      if j >= i { ShiftZero(n, i, j); }
    }
    BitsAreColumns(a, n, 0);
    NilBag(b, 0);
    assert Elems(Nil) == multiset{};
  }

  lemma {:induction false} ShiftZero(n: nat, i: nat, j: nat)
    requires Shift(n, i) == 0 && i <= j
    ensures Shift(n, j) == 0
  {
    if i < j { ShiftZero(n, i, j - 1); }
  }

  lemma {:induction false} NilBag(ts: seq<Forest>, i: nat)
    requires i <= |ts| && forall j :: i <= j < |ts| ==> ts[j].Nil?
    ensures Bag(ts, i) == multiset{} && Value(ts, i) == 0
    decreases |ts| - i
  {
    if i < |ts| { NilBag(ts, i + 1); }
  }

  /** One column in memory. */
  method MergeColumn(m: Memory, p1: seq<Ptr>, p2: seq<Ptr>, carry: Ptr, i: nat, ghost a: seq<Forest>,
      ghost b: seq<Forest>, ghost c: Forest, ghost n: nat, ghost total: multiset<int>, ghost s: set<Ptr>)
      returns (m': Memory, r1: Ptr, r2: Ptr, carry': Ptr)
    requires Adding(a, b, c, n, i, total) && i < MAX_TREES == |p1| == |p2|
    requires Held(m, Three(a, b, c), Three(p1, p2, carry)) && Cover(Three(a, b, c), s)
    ensures Adding(a[i := Add(a[i], b[i], c).out], b[i := Nil], Add(a[i], b[i], c).carry, n, i + 1, total)
    ensures Held(m', Three(a[i := Add(a[i], b[i], c).out], b[i := Nil], Add(a[i], b[i], c).carry),
                 Three(p1[i := r1], p2[i := r2], carry'))
    ensures Cover(Three(a[i := Add(a[i], b[i], c).out], b[i := Nil], Add(a[i], b[i], c).carry), s)
    ensures OnlyIn(m, m', s)
  {
    ghost var ts, ps, k := Three(a, b, c), Three(p1, p2, carry), 2 * MAX_TREES;
    ghost var sum := Add(a[i], b[i], c);
    assert ts[i] == a[i] && ts[MAX_TREES + i] == b[i] && ts[k] == c;
    assert ps[i] == p1[i] && ps[MAX_TREES + i] == p2[i] && ps[k] == carry;
    m', r1, r2, carry' := AddColumn(m, p1[i], p2[i], carry, a[i], b[i], c, i);
    AddNodes(a[i], b[i], c, i);
    assert Nodes(Nil) == {};
    Replace(m, m', ts, ps, i, MAX_TREES + i, k, sum.out, Nil, sum.carry, r1, r2, carry', s);
    ThreeUpdate(a, b, c, i, sum.out, Nil, sum.carry);
    ThreeUpdate(p1, p2, carry, i, r1, r2, carry');
    AddingStep(a, b, c, n, i, total);
  }

  lemma Pow2OfTrees()
    ensures Pow2(MAX_TREES) == CAPACITY + 1
  {
    assert Pow2(7) == 128;
    assert Pow2(14) == 128 * Pow2(7);
  }

  /** The queues have no node in common. */
  ghost predicate Separate(a: seq<Forest>, b: seq<Forest>) {
    forall i, j :: 0 <= i < |a| && 0 <= j < |b| ==> Nodes(a[i]) !! Nodes(b[j])
  }

  lemma {:induction false} HeldTogether(m: Memory, a: seq<Forest>, b: seq<Forest>, p1: seq<Ptr>, p2: seq<Ptr>,
      s: set<Ptr>)
    requires Held(m, a, p1) && Held(m, b, p2) && Separate(a, b) && Cover(a, s) && Cover(b, s)
    ensures Held(m, Three(a, b, Nil), Three(p1, p2, NULL)) && Cover(Three(a, b, Nil), s)
  {
    var ts, ps := Three(a, b, Nil), Three(p1, p2, NULL);
    assert Nodes(Nil) == {};
    forall i | 0 <= i < |ts| ensures Rep(m, ts[i], ps[i]) && Disjoint(ts[i]) && Nodes(ts[i]) <= s {
      if i < |a| { assert ts[i] == a[i] && ps[i] == p1[i]; }
      else if i < |a| + |b| { assert ts[i] == b[i - |a|] && ps[i] == p2[i - |a|]; }
    }
    forall i, j | 0 <= i < j < |ts| ensures Nodes(ts[i]) !! Nodes(ts[j]) {
      if j < |a| + |b| {
        if j < |a| { assert Nodes(a[i]) !! Nodes(a[j]); }
        else if i < |a| { assert Nodes(a[i]) !! Nodes(b[j - |a|]); }
        else { assert Nodes(b[i - |a|]) !! Nodes(b[j - |a|]); }
      }
    }
  }

  lemma {:induction false} HeldFirst(m: Memory, a: seq<Forest>, b: seq<Forest>, c: Forest, p1: seq<Ptr>, p2: seq<Ptr>,
      q: Ptr, s: set<Ptr>)
    requires |a| == |p1| && |b| == |p2| && Held(m, Three(a, b, c), Three(p1, p2, q)) && Cover(Three(a, b, c), s)
    ensures Held(m, a, p1) && Held(m, b, p2) && Separate(a, b) && Cover(a, s) && Cover(b, s)
  {
    var ts, ps := Three(a, b, c), Three(p1, p2, q);
    assert forall i :: 0 <= i < |a| ==> a[i] == ts[i] && p1[i] == ps[i];
    assert forall i :: 0 <= i < |b| ==> b[i] == ts[|a| + i] && p2[i] == ps[|a| + i];
  }

  lemma {:induction false} StartAdding(a: seq<Forest>, b: seq<Forest>)
    requires |a| == |b| == MAX_TREES && Slots(a) && Slots(b)
    ensures Adding(a, b, Nil, Value(a, 0) + Value(b, 0), 0, Bag(a, 0) + Bag(b, 0))
  {
    assert Elems(Nil) == multiset{};
  }

  lemma {:induction false} SingleShape(m: Memory, ts: seq<Forest>, ps: seq<Ptr>, one: Forest)
    requires |ts| == |ps| == MAX_TREES && (forall i :: 0 <= i < |ts| ==> ts[i].Nil?) &&
      (forall i :: 1 <= i < |ps| ==> ps[i] == NULL)
    requires one.Tree? && one.kids.Nil? && one.rest.Nil? && Rep(m, one, ps[0])
    ensures Slots(ts[0 := one]) && Held(m, ts[0 := one], ps)
    ensures Value(ts[0 := one], 0) == 1 && Bag(ts[0 := one], 0) == multiset{one.e} && Cover(ts[0 := one], {one.n})
  {
    var us := ts[0 := one];
    assert Nodes(Nil) == {} && Elems(Nil) == multiset{};
    assert Nodes(one) == {one.n} && Elems(one) == multiset{one.e};
    NilBag(us, 1);
    forall i | 1 <= i < |us| ensures us[i].Nil? && ps[i] == NULL { assert us[i] == ts[i]; }
    assert Rep(m, us[0], ps[0]) && Disjoint(us[0]);
  }

  lemma {:induction false} HeldApart(m: Memory, m': Memory, ts: seq<Forest>, ps: seq<Ptr>, one: Forest)
    requires Held(m, ts, ps) && one.Tree? && one.kids.Nil? && one.rest.Nil? && one.n !in m
    requires OnlyIn(m, m', {one.n})
    ensures Held(m', ts, ps) && forall i :: 0 <= i < |ts| ==> Nodes(ts[i]) !! Nodes(one)
  {
    assert Nodes(one) == {one.n};
    forall i | 0 <= i < |ts| ensures Rep(m', ts[i], ps[i]) && Nodes(ts[i]) !! Nodes(one) {
      RepNodes(m, ts[i], ps[i]);
      RepFrame(m, m', ts[i], ps[i]);
    }
  }

  lemma {:induction false} ValueZeroIffEmpty(ts: seq<Forest>)
    requires Slots(ts)
    ensures Value(ts, 0) == 0 <==> Bag(ts, 0) == multiset{}
  {
    BagSize(ts, 0);
  }

  lemma {:induction false} InBag(ts: seq<Forest>, k: nat, x: int) returns (i: nat)
    requires k <= |ts| && x in Bag(ts, k)
    ensures k <= i < |ts| && x in Elems(ts[i])
    decreases |ts| - k
  {
    if x in Elems(ts[k]) { i := k; } else { i := InBag(ts, k + 1, x); }
  }

  lemma {:induction false} BagContains(ts: seq<Forest>, k: nat, i: nat, x: int)
    requires k <= i < |ts| && x in Elems(ts[i])
    ensures x in Bag(ts, k)
    decreases |ts| - k
  {
    if k < i { BagContains(ts, k + 1, i, x); }
  }

  /** The loop over the roots: a least element of a queue that is not empty, and its tree. */
  method SmallestRoot(m: Memory, ps: seq<Ptr>, ghost ts: seq<Forest>) returns (min: int, tree: nat)
    requires |ps| == MAX_TREES && Held(m, ts, ps) && Slots(ts) && Bag(ts, 0) != multiset{}
    requires forall x :: x in Bag(ts, 0) ==> x < INFINITY
    ensures tree < MAX_TREES && ts[tree].Tree? && ts[tree].e == min
    ensures min in Bag(ts, 0) && forall x :: x in Bag(ts, 0) ==> min <= x
  {
    min, tree := INFINITY, 0;
    for i := 0 to MAX_TREES
      invariant tree < MAX_TREES && if min == INFINITY then forall j :: 0 <= j < i ==> ts[j].Nil?
        else ts[tree].Tree? && ts[tree].e == min
      invariant forall j :: 0 <= j < i && ts[j].Tree? ==> min <= ts[j].e
    {
      assert Rep(m, ts[i], ps[i]);
      if ps[i] != NULL {
        RootInBag(ts, i);
        if m[ps[i]].element < min {
          min, tree := m[ps[i]].element, i;
        }
      }
    }
    if min == INFINITY { NilBag(ts, 0); }
    LeastOfRoots(ts, tree);
  }

  lemma {:induction false} LeastOfRoots(ts: seq<Forest>, k: nat)
    requires Slots(ts) && k < |ts| && ts[k].Tree? && forall j :: 0 <= j < |ts| && ts[j].Tree? ==> ts[k].e <= ts[j].e
    ensures ts[k].e in Bag(ts, 0) && forall x :: x in Bag(ts, 0) ==> ts[k].e <= x
  {
    forall x | x in Bag(ts, 0) ensures ts[k].e <= x {
      var i := InBag(ts, 0, x);
      RootLeast(ts[i], i, x);
    }
    RootInBag(ts, k);
  }

  lemma {:induction false} RootInBag(ts: seq<Forest>, i: nat)
    requires i < |ts| && ts[i].Tree?
    ensures ts[i].e in Bag(ts, 0)
  {
    BagContains(ts, 0, i, ts[i].e);
  }

  // ----- Splitting up a tree -----

  /** The children of ranks j and up of a tree of rank k are in b, the others in f. */
  ghost predicate Splitting(a: seq<Forest>, b: seq<Forest>, f: Forest, j: nat, k: nat, lo: int, total: multiset<int>) {
    |a| == |b| == MAX_TREES && j <= k < MAX_TREES && Slots(b) && Ranks(f, j) && Ordered(f, lo) &&
    (forall i :: 0 <= i < MAX_TREES ==> (b[i].Tree? <==> j <= i < k)) &&
    Bag(a, 0) + Bag(b, 0) + Elems(f) == total
  }

  lemma {:induction false} SplittingStep(a: seq<Forest>, b: seq<Forest>, f: Forest, j: nat, k: nat, lo: int,
      total: multiset<int>)
    requires Splitting(a, b, f, j, k, lo, total) && j > 0
    ensures f.Tree? && Splitting(a, b[j - 1 := f.(rest := Nil)], f.rest, j - 1, k, lo, total)
  {
    var t := f.(rest := Nil);
    assert Elems(Nil) == multiset{};
    SlotsUpdate(b, j - 1, t);
    BagUpdate(b, j - 1, t, 0);
    assert Elems(f) == Elems(t) + Elems(f.rest);
    var x, y := Bag(a, 0), Bag(b, 0);
    assert Bag(b[j - 1 := t], 0) == y + Elems(t);
    assert x + (y + Elems(t)) + Elems(f.rest) == x + y + (Elems(t) + Elems(f.rest));
  }

  lemma {:induction false} DetachHeld(m: Memory, a: seq<Forest>, b: seq<Forest>, f: Forest, ps: seq<Ptr>, qs: seq<Ptr>,
      p: Ptr, j: nat, s: set<Ptr>)
    requires |a| == |b| == |ps| == |qs| == MAX_TREES && j < MAX_TREES && f.Tree? && b[j].Nil?
    requires Held(m, Three(a, b, f), Three(ps, qs, p)) && Cover(Three(a, b, f), s)
    ensures p == f.n && p in m
    ensures Held(m[p := m[p].(nextSibling := NULL)], Three(a, b[j := f.(rest := Nil)], f.rest),
                 Three(ps, qs[j := p], m[p].nextSibling))
    ensures Cover(Three(a, b[j := f.(rest := Nil)], f.rest), s) && OnlyIn(m, m[p := m[p].(nextSibling := NULL)], s)
  {
    var ts, rs, k := Three(a, b, f), Three(ps, qs, p), 2 * MAX_TREES;
    assert ts[j] == a[j] && ts[MAX_TREES + j] == b[j] && ts[k] == f && rs[j] == ps[j] && rs[k] == p;
    assert Rep(m, f, p) && Rep(m, a[j], ps[j]) && Nodes(a[j]) !! Nodes(f);
    var m', t := m[p := m[p].(nextSibling := NULL)], f.(rest := Nil);
    assert Nodes(Nil) == {};
    RepFrame(m, m', f.kids, m[p].leftChild);
    RepFrame(m, m', f.rest, m[p].nextSibling);
    RepFrame(m, m', a[j], ps[j]);
    Replace(m, m', ts, rs, j, MAX_TREES + j, k, a[j], t, f.rest, ps[j], p, m[p].nextSibling, s);
    ThreeUpdate(a, b, f, j, a[j], t, f.rest);
    ThreeUpdate(ps, qs, p, j, ps[j], p, m[p].nextSibling);
    assert a[j := a[j]] == a && ps[j := ps[j]] == ps;
  }

  /** The root of column i is freed; its children are left over. */
  lemma {:induction false} RemoveRoot(m: Memory, a: seq<Forest>, b: seq<Forest>, ps: seq<Ptr>, qs: seq<Ptr>, i: nat,
      s: set<Ptr>)
    requires |a| == |b| == |ps| == |qs| == MAX_TREES && i < MAX_TREES && a[i].Tree? && Slots(a) && Cover(a, s)
    requires Held(m, a, ps) && forall j :: 0 <= j < MAX_TREES ==> b[j].Nil? && qs[j] == NULL
    ensures ps[i] in m && Splitting(a[i := Nil], b, a[i].kids, i, i, a[i].e, Bag(a, 0) - multiset{a[i].e})
    ensures Held(m - {ps[i]}, Three(a[i := Nil], b, a[i].kids), Three(ps[i := NULL], qs, m[ps[i]].leftChild))
    ensures Cover(Three(a[i := Nil], b, a[i].kids), s) && OnlyIn(m, m - {ps[i]}, s)
  {
    RemovedBag(a, b, i);
    assert Rep(m, a[i], ps[i]) && Nodes(Nil) == {};
    forall j | 0 <= j < |b| ensures Rep(m, b[j], qs[j]) && Nodes(b[j]) == {} {}
    HeldTogether(m, a, b, ps, qs, s);
    var ts, rs, m', k, l := Three(a, b, Nil), Three(ps, qs, NULL), m - {ps[i]}, a[i].kids, m[ps[i]].leftChild;
    RepFrame(m, m', k, l);
    assert ts[i] == a[i] && rs[i] == ps[i];
    Replace(m, m', ts, rs, i, MAX_TREES + i, 2 * MAX_TREES, Nil, Nil, k, NULL, NULL, l, s);
    ThreeUpdate(a, b, Nil, i, Nil, Nil, k);
    ThreeUpdate(ps, qs, NULL, i, NULL, NULL, l);
    assert b[i := Nil] == b && qs[i := NULL] == qs;
  }

  lemma {:induction false} RemovedBag(a: seq<Forest>, b: seq<Forest>, i: nat)
    requires |a| == |b| == MAX_TREES && i < MAX_TREES && a[i].Tree? && Slots(a)
    requires forall j :: 0 <= j < MAX_TREES ==> b[j].Nil?
    ensures Splitting(a[i := Nil], b, a[i].kids, i, i, a[i].e, Bag(a, 0) - multiset{a[i].e})
  {
    assert Elems(Nil) == multiset{} && Slot(a[i], i);
    NilBag(b, 0);
    BagUpdate(a, i, Nil, 0);
    assert Elems(a[i]) == multiset{a[i].e} + Elems(a[i].kids);
    OneLess(Bag(a[i := Nil], 0), Elems(a[i].kids), Bag(a, 0), a[i].e);
  }

  lemma PartsBelow(a: multiset<int>, b: multiset<int>, all: multiset<int>, e: int)
    requires a + b == all - multiset{e} && forall x :: x in all ==> x < INFINITY
    ensures (forall x :: x in a ==> x < INFINITY) && (forall x :: x in b ==> x < INFINITY)
  {
    forall x | x in a || x in b ensures x < INFINITY { assert x in a + b; }
  }

  lemma OneLess(rest: multiset<int>, kids: multiset<int>, all: multiset<int>, e: int)
    requires rest + (multiset{e} + kids) == all
    ensures rest + multiset{} + kids == all - multiset{e}
  {
    assert rest + (multiset{e} + kids) == (rest + kids) + multiset{e};
  }

  /** All children are in b, which stands for 2^k - 1. */
  lemma {:induction false} SplittingEnds(a: seq<Forest>, b: seq<Forest>, k: nat, lo: int, total: multiset<int>)
    requires Splitting(a, b, Nil, 0, k, lo, total)
    ensures Value(b, 0) == Pow2(k) - 1 && Bag(a, 0) + Bag(b, 0) == total
  {
    assert Elems(Nil) == multiset{};
    OnesBelow(b, k, 0);
  }

  lemma {:induction false} ValueBelow(ts: seq<Forest>, i: nat)
    requires i <= |ts|
    ensures Value(ts, i) < Pow2(|ts| - i)
    decreases |ts| - i
  {
    if i < |ts| { ValueBelow(ts, i + 1); }
  }

  lemma {:induction false} OnesBelow(ts: seq<Forest>, k: nat, i: nat)
    requires i <= |ts| && k <= |ts| && forall j :: 0 <= j < |ts| ==> (ts[j].Tree? <==> j < k)
    ensures Value(ts, i) == if i < k then Pow2(k - i) - 1 else 0
    decreases |ts| - i
  {
    if i < |ts| { OnesBelow(ts, k, i + 1); }
  }

  lemma {:induction false} RootRemoved(ts: seq<Forest>, i: nat)
    requires i < |ts| && ts[i].Tree? && Slots(ts)
    ensures Value(ts[i := Nil], 0) == Value(ts, 0) - Pow2(i) && Slots(ts[i := Nil])
  {
    ColumnRemoved(ts, i, 0);
  }

  lemma {:induction false} ColumnRemoved(ts: seq<Forest>, i: nat, k: nat)
    requires k <= i < |ts| && ts[i].Tree?
    ensures Value(ts[i := Nil], k) == Value(ts, k) - Pow2(i - k)
    decreases i - k
  {
    if k < i { ColumnRemoved(ts, i, k + 1); } else { LaterColumns(ts, i, Nil, i + 1); }
  }

  class BinQueue {
    var currentSize: nat
    const trees: array<Ptr>
    ghost var shape: seq<Forest>

    /** Heap-ordered binomial trees whose ranks spell the size in binary, elements below INFINITY. */
    ghost predicate Valid(m: Memory)
      reads this, trees
    {
      trees.Length == MAX_TREES == |shape| && Slots(shape) && Held(m, shape, trees[..]) &&
        Value(shape, 0) == currentSize &&
      forall x :: x in Bag(shape, 0) ==> x < INFINITY
    }

    ghost function Elements(): multiset<int>
      reads this
    {
      Bag(shape, 0)
    }

    /** Initialize. */
    constructor ()
      ensures fresh(trees) && currentSize == 0 && forall m :: Valid(m)
      ensures trees.Length == MAX_TREES == |shape| && Elements() == multiset{}
      ensures forall i :: 0 <= i < MAX_TREES ==> shape[i].Nil? && trees[i] == NULL
    {
      trees := new Ptr[MAX_TREES];
      new;
      currentSize := 0;
      for i := 0 to MAX_TREES
        invariant forall j :: 0 <= j < i ==> trees[j] == NULL
        modifies trees
      {
        trees[i] := NULL;
      }
      shape := seq(MAX_TREES, i => Nil);
      NilBag(shape, 0);
    }

    /** One round of the loop of Merge. */
    method AddAt(h2: BinQueue, m: Memory, carry: Ptr, i: nat, ghost a: seq<Forest>, ghost b: seq<Forest>,
        ghost c: Forest, ghost n: nat, ghost total: multiset<int>, ghost s: set<Ptr>)
        returns (m': Memory, carry': Ptr, ghost a': seq<Forest>, ghost b': seq<Forest>, ghost c': Forest)
      requires trees != h2.trees && trees.Length == h2.trees.Length == MAX_TREES && i < MAX_TREES
      requires Adding(a, b, c, n, i, total) && Cover(Three(a, b, c), s)
      requires Held(m, Three(a, b, c), Three(trees[..], h2.trees[..], carry))
      modifies trees, h2.trees
      ensures Adding(a', b', c', n, i + 1, total) && Cover(Three(a', b', c'), s) && OnlyIn(m, m', s)
      ensures Held(m', Three(a', b', c'), Three(trees[..], h2.trees[..], carry'))
    {
      a', b', c' := a[i := Add(a[i], b[i], c).out], b[i := Nil], Add(a[i], b[i], c).carry;
      var r1, r2;
      m', r1, r2, carry' := MergeColumn(m, trees[..], h2.trees[..], carry, i, a, b, c, n, total, s);
      ghost var p1, p2 := trees[..], h2.trees[..];
      trees[i], h2.trees[i] := r1, r2;
      assert trees[..] == p1[i := r1] && h2.trees[..] == p2[i := r2];
    }

    /** The loop of Merge. */
    method AddAll(h2: BinQueue, m0: Memory, ghost a0: seq<Forest>, ghost b0: seq<Forest>, ghost s: set<Ptr>)
        returns (m: Memory, ghost a: seq<Forest>, ghost b: seq<Forest>)
      requires trees != h2.trees && trees.Length == h2.trees.Length == MAX_TREES == |a0| == |b0|
      requires Slots(a0) && Slots(b0) && Held(m0, a0, trees[..]) && Held(m0, b0, h2.trees[..]) && Separate(a0, b0)
      requires Cover(a0, s) && Cover(b0, s) && currentSize == Value(a0, 0) + Value(b0, 0) <= CAPACITY
      modifies trees, h2.trees
      ensures |a| == |b| == MAX_TREES && Slots(a) && Held(m, a, trees[..]) && Held(m, b, h2.trees[..])
      ensures Value(a, 0) == currentSize && Bag(a, 0) == Bag(a0, 0) + Bag(b0, 0)
      ensures Cover(a, s) && OnlyIn(m0, m, s) && forall i :: 0 <= i < MAX_TREES ==> b[i].Nil?
    {
      m, a, b := m0, a0, b0;
      ghost var c, n, total := Nil, currentSize, Bag(a0, 0) + Bag(b0, 0);
      StartAdding(a, b);
      HeldTogether(m, a, b, trees[..], h2.trees[..], s);
      var carry := NULL;
      var i, j := 0, 1;
      while j <= currentSize
        invariant i <= MAX_TREES && j == Pow2(i)
        invariant Adding(a, b, c, n, i, total)
        invariant Held(m, Three(a, b, c), Three(trees[..], h2.trees[..], carry))
        invariant Cover(Three(a, b, c), s) && OnlyIn(m0, m, s)
        decreases MAX_TREES - i
      {
        Pow2OfTrees();
        m, carry, a, b, c := AddAt(h2, m, carry, i, a, b, c, n, total, s);
        i, j := i + 1, j * 2;
      }
      AddingEnds(a, b, c, n, i, total);
      HeldFirst(m, a, b, c, trees[..], h2.trees[..], carry, s);
    }

    /** Merges h2 into this queue; the program exits when the result would not fit. */
    method Merge(h2: BinQueue, m0: Memory, ghost s: set<Ptr>) returns (m: Memory, ok: bool)
      requires this != h2 && trees != h2.trees && Valid(m0) && h2.Valid(m0) && Separate(shape, h2.shape)
      requires Cover(shape, s) && Cover(h2.shape, s)
      modifies this, h2, trees, h2.trees
      ensures ok <==> old(currentSize) + old(h2.currentSize) <= CAPACITY
      ensures !ok ==> m == m0
      ensures ok ==> Valid(m) && currentSize == old(currentSize) + old(h2.currentSize)
      ensures ok ==> Elements() == old(Elements()) + old(h2.Elements())
      ensures ok ==> Cover(shape, s) && OnlyIn(m0, m, s)
      ensures ok ==> h2.currentSize == old(h2.currentSize) && forall i :: 0 <= i < MAX_TREES ==> h2.trees[i] == NULL
    {
      m := m0;
      if currentSize + h2.currentSize > CAPACITY {
        return m, false;
      }
      ok := true;
      currentSize := currentSize + h2.currentSize;
      m, shape, h2.shape := AddAll(h2, m, shape, h2.shape, s);
    }

    /** Adds one item in a node at the address given by malloc. */
    method Insert(item: int, m0: Memory, address: Ptr, ghost s: set<Ptr>) returns (m: Memory, ok: bool)
      requires Valid(m0) && Cover(shape, s) && item < INFINITY && address !in m0 && address != NULL
      modifies this, trees
      ensures ok <==> old(currentSize) < CAPACITY
      ensures ok ==> Valid(m) && currentSize == old(currentSize) + 1 && Elements() == old(Elements()) + multiset{item}
      ensures ok ==> Cover(shape, s + {address}) && OnlyIn(m0, m, s)
    {
      m := m0[address := Node(item, NULL, NULL)];
      ghost var one := Tree(address, item, Nil, Nil);
      var single := new BinQueue();
      single.currentSize := 1;
      single.trees[0] := address;
      SingleShape(m, single.shape, single.trees[..], one);
      single.shape := single.shape[0 := one];
      HeldApart(m0, m, shape, trees[..], one);
      m, ok := Merge(single, m, s + {address});
    }

    /** The smallest root. */
    method FindMin(m: Memory) returns (r: Option<int>)
      requires Valid(m)
      ensures r.None? <==> Elements() == multiset{}
      ensures r.Some? ==> r.value in Elements() && forall x :: x in Elements() ==> r.value <= x
    {
      ValueZeroIffEmpty(shape);
      if currentSize == 0 {
        return None;
      }
      var min, tree := SmallestRoot(m, trees[..], shape);
      r := Some(min);
    }

    /** Moves the children of a tree of rank k, a list of trees of ranks k - 1, ..., 0, into an empty queue. */
    method TakeKids(m0: Memory, first: Ptr, k: nat, ghost a: seq<Forest>, ghost ps: seq<Ptr>, ghost f0: Forest,
        ghost lo: int, ghost total: multiset<int>, ghost s: set<Ptr>)
        returns (m: Memory, ghost b: seq<Forest>)
      requires trees.Length == MAX_TREES && k < MAX_TREES && Splitting(a, shape, f0, k, k, lo, total)
      requires |ps| == MAX_TREES && Held(m0, Three(a, shape, f0), Three(ps, trees[..], first)) &&
        Cover(Three(a, shape, f0), s)
      modifies trees
      ensures Splitting(a, b, Nil, 0, k, lo, total)
      ensures Held(m, Three(a, b, Nil), Three(ps, trees[..], NULL)) && Cover(Three(a, b, Nil), s) && OnlyIn(m0, m, s)
    {
      m, b := m0, shape;
      var next := first;
      ghost var f := f0;
      var j: nat := k;
      while j > 0
        invariant 0 <= j <= k && Splitting(a, b, f, j, k, lo, total)
        invariant Held(m, Three(a, b, f), Three(ps, trees[..], next)) && Cover(Three(a, b, f), s) && OnlyIn(m0, m, s)
      {
        m, next, b, f := TakeKid(m, next, j - 1, k, a, ps, b, f, lo, total, s);
        j := j - 1;
      }
      assert Three(a, b, f)[2 * MAX_TREES] == f && Three(ps, trees[..], next)[2 * MAX_TREES] == next;
    }

    /** One round of the loop of DeleteMin over the children. */
    method TakeKid(m: Memory, next: Ptr, j: nat, ghost k: nat, ghost a: seq<Forest>, ghost ps: seq<Ptr>,
        ghost b: seq<Forest>, ghost f: Forest, ghost lo: int, ghost total: multiset<int>, ghost s: set<Ptr>)
        returns (m': Memory, next': Ptr, ghost b': seq<Forest>, ghost f': Forest)
      requires trees.Length == MAX_TREES == |ps| && j < k && Splitting(a, b, f, j + 1, k, lo, total)
      requires Held(m, Three(a, b, f), Three(ps, trees[..], next)) && Cover(Three(a, b, f), s)
      modifies trees
      ensures Splitting(a, b', f', j, k, lo, total)
      ensures Held(m', Three(a, b', f'), Three(ps, trees[..], next')) && Cover(Three(a, b', f'), s) && OnlyIn(m, m', s)
    {
      ghost var qs := trees[..];
      SplittingStep(a, b, f, j + 1, k, lo, total);
      DetachHeld(m, a, b, f, ps, qs, next, j, s);
      trees[j] := next;
      next' := m[next].nextSibling;
      m' := m[trees[j] := m[trees[j]].(nextSibling := NULL)];
      assert trees[..] == qs[j := f.n];
      b', f' := b[j := f.(rest := Nil)], f.rest;
    }

    /** Removes one least element; the program exits when the queue is empty. */
    method DeleteMin(m0: Memory, ghost s: set<Ptr>) returns (m: Memory, r: Option<int>)
      requires Valid(m0) && Cover(shape, s)
      modifies this, trees
      ensures r.None? <==> old(Elements()) == multiset{}
      ensures r.Some? ==> r.value in old(Elements()) && forall x :: x in old(Elements()) ==> r.value <= x
      ensures r.Some? ==>
        Valid(m) && currentSize == old(currentSize) - 1 && Elements() == old(Elements()) - multiset{r.value}
      ensures r.Some? ==> Cover(shape, s) && OnlyIn(m0, m, s)
    {
      m := m0;
      ValueZeroIffEmpty(shape);
      ValueBelow(shape, 0);
      Pow2OfTrees();
      if currentSize == 0 {
        return m, None;
      }
      var min, tree := SmallestRoot(m, trees[..], shape);
      r := Some(min);
      m := RemoveLeast(m, tree, min, s);
    }

    /** DeleteMin once the tree of the least root is known. */
    method RemoveLeast(m0: Memory, tree: nat, ghost min: int, ghost s: set<Ptr>) returns (m: Memory)
      requires Valid(m0) && Cover(shape, s) && tree < MAX_TREES && shape[tree].Tree? && shape[tree].e == min
      requires currentSize <= CAPACITY
      modifies this, trees
      ensures Valid(m) && currentSize == old(currentSize) - 1 && Elements() == old(Elements()) - multiset{min}
      ensures Cover(shape, s) && OnlyIn(m0, m, s)
    {
      var deleted;
      m, deleted := TakeRoot(m0, tree, min, s);
      currentSize := currentSize - (deleted.currentSize + 1);
      var ok;
      m, ok := Merge(deleted, m, s);
    }

    /** Takes the tree of a column out of the queue, frees its root and puts its children into a new queue. */
    method TakeRoot(m0: Memory, tree: nat, ghost min: int, ghost s: set<Ptr>) returns (m: Memory, deleted: BinQueue)
      requires Valid(m0) && Cover(shape, s) && tree < MAX_TREES && shape[tree].Tree? && shape[tree].e == min
      modifies this`shape, trees
      ensures fresh(deleted) && fresh(deleted.trees) && deleted.Valid(m) && deleted.currentSize == Pow2(tree) - 1
      ensures trees.Length == MAX_TREES == |shape| && Slots(shape) && Held(m, shape, trees[..])
      ensures Value(shape, 0) == currentSize - Pow2(tree) && forall x :: x in Elements() ==> x < INFINITY
      ensures Elements() + deleted.Elements() == old(Elements()) - multiset{min}
      ensures Separate(shape, deleted.shape) && Cover(shape, s) && Cover(deleted.shape, s) && OnlyIn(m0, m, s)
    {
      var oldRoot := trees[tree];
      assert Rep(m0, shape[tree], trees[tree]);
      var deletedTree := m0[oldRoot].leftChild;
      deleted := new BinQueue();
      ghost var ps, a, total := trees[..], shape[tree := Nil], Elements() - multiset{min};
      RemoveRoot(m0, shape, deleted.shape, ps, deleted.trees[..], tree, s);
      RootRemoved(shape, tree);
      m := m0 - {oldRoot};
      deleted.currentSize := Pow2(tree) - 1;
      ghost var b;
      m, b := deleted.TakeKids(m, deletedTree, tree, a, ps[tree := NULL], shape[tree].kids, min, total, s);
      trees[tree] := NULL;
      assert trees[..] == ps[tree := NULL];
      HeldFirst(m, a, b, Nil, trees[..], deleted.trees[..], NULL, s);
      SplittingEnds(a, b, tree, min, total);
      deleted.shape, shape := b, a;
      PartsBelow(Bag(a, 0), Bag(b, 0), old(Elements()), min);
    }
  }
}
