/** Top-down splay trees, DSAAC/splay.c. */
module Splay {
  import opened Basics
  import opened Ordering

  datatype Node = Node(element: int, left: Ptr, right: Ptr)

  type Memory = map<Ptr, Node>

  // ----- Shapes -----

  datatype Tree = Leaf | Tree(l: Tree, n: Ptr, e: int, r: Tree)

  /** The left tree under construction: a spine of right links, latest node first. */
  datatype LeftSpine = LNil | LCons(up: LeftSpine, l: Tree, n: Ptr, e: int)

  /** The right tree under construction: a spine of left links, latest node first. */
  datatype RightSpine = RNil | RCons(up: RightSpine, n: Ptr, e: int, r: Tree)

  function Size(t: Tree): nat {
    if t.Leaf? then 0 else 1 + Size(t.l) + Size(t.r)
  }

  ghost function Nodes(t: Tree): set<Ptr> {
    if t.Leaf? then {} else Nodes(t.l) + {t.n} + Nodes(t.r)
  }

  ghost function LNodes(s: LeftSpine): set<Ptr> {
    if s.LNil? then {} else LNodes(s.up) + Nodes(s.l) + {s.n}
  }

  ghost function RNodes(s: RightSpine): set<Ptr> {
    if s.RNil? then {} else RNodes(s.up) + {s.n} + Nodes(s.r)
  }

  ghost predicate Disjoint(t: Tree) {
    t.Tree? ==> Disjoint(t.l) && Disjoint(t.r) && Nodes(t.l) !! Nodes(t.r) && t.n !in Nodes(t.l) + Nodes(t.r)
  }

  ghost predicate LDisjoint(s: LeftSpine) {
    s.LCons? ==> LDisjoint(s.up) && Disjoint(s.l) && LNodes(s.up) !! Nodes(s.l) && s.n !in LNodes(s.up) + Nodes(s.l)
  }

  ghost predicate RDisjoint(s: RightSpine) {
    s.RCons? ==> RDisjoint(s.up) && Disjoint(s.r) && RNodes(s.up) !! Nodes(s.r) && s.n !in RNodes(s.up) + Nodes(s.r)
  }

  ghost function Inorder(t: Tree): seq<int> {
    if t.Leaf? then [] else Inorder(t.l) + [t.e] + Inorder(t.r)
  }

  ghost function LKeys(s: LeftSpine): seq<int> {
    if s.LNil? then [] else LKeys(s.up) + Inorder(s.l) + [s.e]
  }

  ghost function RKeys(s: RightSpine): seq<int> {
    if s.RNil? then [] else [s.e] + Inorder(s.r) + RKeys(s.up)
  }

  /** All keys, in order, while t is being splayed between the two trees under construction. */
  ghost function Keys(ls: LeftSpine, t: Tree, rs: RightSpine): seq<int> {
    LKeys(ls) + Inorder(t) + RKeys(rs)
  }

  /** The left tree, finished with t as the last right child. */
  function LClose(s: LeftSpine, t: Tree): Tree {
    if s.LNil? then t else LClose(s.up, Tree(s.l, s.n, s.e, t))
  }

  function RClose(s: RightSpine, t: Tree): Tree {
    if s.RNil? then t else RClose(s.up, Tree(t, s.n, s.e, s.r))
  }

  lemma {:induction false} LCloseKeys(s: LeftSpine, t: Tree)
    ensures Inorder(LClose(s, t)) == LKeys(s) + Inorder(t)
  {
    if s.LCons? {
      LCloseKeys(s.up, Tree(s.l, s.n, s.e, t));
      assert LKeys(s.up) + (Inorder(s.l) + [s.e] + Inorder(t)) == LKeys(s) + Inorder(t);
    }
  }

  lemma {:induction false} LCloseNodes(s: LeftSpine, t: Tree)
    ensures Nodes(LClose(s, t)) == LNodes(s) + Nodes(t)
    ensures LDisjoint(s) && Disjoint(t) && LNodes(s) !! Nodes(t) ==> Disjoint(LClose(s, t))
  {
    if s.LCons? { LCloseNodes(s.up, Tree(s.l, s.n, s.e, t)); }
  }

  lemma {:induction false} RCloseKeys(s: RightSpine, t: Tree)
    ensures Inorder(RClose(s, t)) == Inorder(t) + RKeys(s)
  {
    if s.RCons? {
      RCloseKeys(s.up, Tree(t, s.n, s.e, s.r));
      var a, b, c := Inorder(t), Inorder(s.r), RKeys(s.up);
      assert a + [s.e] + b + c == a + ([s.e] + b + c);
    }
  }

  lemma {:induction false} RCloseNodes(s: RightSpine, t: Tree)
    ensures Nodes(RClose(s, t)) == RNodes(s) + Nodes(t)
    ensures RDisjoint(s) && Disjoint(t) && RNodes(s) !! Nodes(t) ==> Disjoint(RClose(s, t))
  {
    if s.RCons? { RCloseNodes(s.up, Tree(t, s.n, s.e, s.r)); }
  }

  function WithLeft(t: Tree): Tree
    requires t.Tree? && t.l.Tree?
  {
    Tree(t.l.l, t.l.n, t.l.e, Tree(t.l.r, t.n, t.e, t.r))
  }

  function WithRight(t: Tree): Tree
    requires t.Tree? && t.r.Tree?
  {
    Tree(Tree(t.l, t.n, t.e, t.r.l), t.r.n, t.r.e, t.r.r)
  }

  lemma {:induction false} Rotation(l: Tree, r: Tree)
    requires l.Tree? && l.l.Tree? && r == WithLeft(l)
    ensures Inorder(l) == Inorder(r) && Nodes(l) == Nodes(r) && Disjoint(l) == Disjoint(r) && Size(l) == Size(r)
  {
    var a, b, d := Inorder(r.l), Inorder(r.r.l), Inorder(r.r.r);
    assert Inorder(l.l) == a + [r.e] + b;
    assert Inorder(r.r) == b + [l.e] + d;
    assert a + [r.e] + b + [l.e] + d == a + [r.e] + (b + [l.e] + d);
    assert Nodes(l.l) == Nodes(r.l) + {r.n} + Nodes(r.r.l);
    assert Nodes(r.r) == Nodes(r.r.l) + {l.n} + Nodes(r.r.r);
    assert Disjoint(l.l) == (Disjoint(r.l) && Disjoint(r.r.l) && Nodes(r.l) !! Nodes(r.r.l) &&
      r.n !in Nodes(r.l) + Nodes(r.r.l));
    assert Disjoint(r.r) == (Disjoint(r.r.l) && Disjoint(r.r.r) && Nodes(r.r.l) !! Nodes(r.r.r) &&
      l.n !in Nodes(r.r.l) + Nodes(r.r.r));
    assert Size(l.l) == 1 + Size(r.l) + Size(r.r.l);
  }

  // ----- Shapes in memory -----

  function Root(t: Tree, nul: Ptr): Ptr {
    if t.Leaf? then nul else t.n
  }

  ghost predicate Rep(m: Memory, nul: Ptr, t: Tree) {
    t.Tree? ==>
      t.n != nul && t.n in m && m[t.n] == Node(t.e, Root(t.l, nul), Root(t.r, nul)) && Rep(m, nul, t.l) &&
        Rep(m, nul, t.r)
  }

  /** The node whose right link the next left piece will use: LeftTreeMax. */
  function LMax(s: LeftSpine, hdr: Ptr): Ptr {
    if s.LNil? then hdr else s.n
  }

  function RMin(s: RightSpine, hdr: Ptr): Ptr {
    if s.RNil? then hdr else s.n
  }

  ghost predicate LRep(m: Memory, nul: Ptr, hdr: Ptr, s: LeftSpine) {
    s.LCons? ==>
      s.n != nul && s.n in m && m[s.n].element == s.e && m[s.n].left == Root(s.l, nul) && Rep(m, nul, s.l) &&
      LMax(s.up, hdr) in m && m[LMax(s.up, hdr)].right == s.n && LRep(m, nul, hdr, s.up)
  }

  ghost predicate RRep(m: Memory, nul: Ptr, hdr: Ptr, s: RightSpine) {
    s.RCons? ==>
      s.n != nul && s.n in m && m[s.n].element == s.e && m[s.n].right == Root(s.r, nul) && Rep(m, nul, s.r) &&
      RMin(s.up, hdr) in m && m[RMin(s.up, hdr)].left == s.n && RRep(m, nul, hdr, s.up)
  }

  lemma {:induction false} RepFrame(m: Memory, m': Memory, nul: Ptr, t: Tree)
    requires Rep(m, nul, t) && Agree(m, m', Nodes(t))
    ensures Rep(m', nul, t)
  {
    if t.Tree? {
      RepFrame(m, m', nul, t.l);
      RepFrame(m, m', nul, t.r);
    }
  }

  lemma {:induction false} LFrame(m: Memory, m': Memory, nul: Ptr, hdr: Ptr, s: LeftSpine)
    requires LRep(m, nul, hdr, s) && Agree(m, m', LNodes(s)) && hdr in m && hdr in m' && m'[hdr].right == m[hdr].right
    ensures LRep(m', nul, hdr, s)
  {
    if s.LCons? {
      RepFrame(m, m', nul, s.l);
      LFrame(m, m', nul, hdr, s.up);
    }
  }

  lemma {:induction false} RFrame(m: Memory, m': Memory, nul: Ptr, hdr: Ptr, s: RightSpine)
    requires RRep(m, nul, hdr, s) && Agree(m, m', RNodes(s)) && hdr in m && hdr in m' && m'[hdr].left == m[hdr].left
    ensures RRep(m', nul, hdr, s)
  {
    if s.RCons? {
      RepFrame(m, m', nul, s.r);
      RFrame(m, m', nul, hdr, s.up);
    }
  }

  lemma {:induction false} LCloseRep(m: Memory, nul: Ptr, hdr: Ptr, s: LeftSpine, t: Tree)
    requires LRep(m, nul, hdr, s) && Rep(m, nul, t) && LMax(s, hdr) in m && m[LMax(s, hdr)].right == Root(t, nul)
    ensures Rep(m, nul, LClose(s, t)) && hdr in m && m[hdr].right == Root(LClose(s, t), nul)
  {
    if s.LCons? { LCloseRep(m, nul, hdr, s.up, Tree(s.l, s.n, s.e, t)); }
  }

  lemma {:induction false} RCloseRep(m: Memory, nul: Ptr, hdr: Ptr, s: RightSpine, t: Tree)
    requires RRep(m, nul, hdr, s) && Rep(m, nul, t) && RMin(s, hdr) in m && m[RMin(s, hdr)].left == Root(t, nul)
    ensures Rep(m, nul, RClose(s, t)) && hdr in m && m[hdr].left == Root(RClose(s, t), nul)
  {
    if s.RCons? { RCloseRep(m, nul, hdr, s.up, Tree(t, s.n, s.e, s.r)); }
  }

  /** Everything is where it should be while t is being splayed. */
  ghost predicate Splaying(m: Memory, nul: Ptr, hdr: Ptr, ls: LeftSpine, t: Tree, rs: RightSpine) {
    nul in m && hdr in m && nul != hdr && m[nul].left == nul && m[nul].right == nul &&
    LRep(m, nul, hdr, ls) && Rep(m, nul, t) && RRep(m, nul, hdr, rs) && Apart(nul, hdr, ls, t, rs)
  }

  ghost predicate Apart(nul: Ptr, hdr: Ptr, ls: LeftSpine, t: Tree, rs: RightSpine) {
    LDisjoint(ls) && Disjoint(t) && RDisjoint(rs) &&
    LNodes(ls) !! Nodes(t) && LNodes(ls) !! RNodes(rs) && Nodes(t) !! RNodes(rs) &&
    nul !in LNodes(ls) + Nodes(t) + RNodes(rs) && hdr !in LNodes(ls) + Nodes(t) + RNodes(rs)
  }

  /** item is below everything on the right and above everything on the left. */
  ghost predicate Between(ls: LeftSpine, rs: RightSpine, item: int) {
    AllBelow(LKeys(ls), item) && AllAbove(RKeys(rs), item)
  }

  ghost function AllNodes(ls: LeftSpine, t: Tree, rs: RightSpine): set<Ptr> {
    LNodes(ls) + Nodes(t) + RNodes(rs)
  }

  lemma {:induction false} LinkRightShape(nul: Ptr, hdr: Ptr, ls: LeftSpine, t: Tree, rs: RightSpine)
    requires t.Tree? && Apart(nul, hdr, ls, t, rs)
    ensures var rs' := RCons(rs, t.n, t.e, t.r);
            Apart(nul, hdr, ls, t.l, rs') && AllNodes(ls, t.l, rs') == AllNodes(ls, t, rs)
  {
  }

  lemma {:induction false} LinkLeftShape(nul: Ptr, hdr: Ptr, ls: LeftSpine, t: Tree, rs: RightSpine)
    requires t.Tree? && Apart(nul, hdr, ls, t, rs)
    ensures var ls' := LCons(ls, t.l, t.n, t.e);
            Apart(nul, hdr, ls', t.r, rs) && AllNodes(ls', t.r, rs) == AllNodes(ls, t, rs)
  {
  }

  /** Linking the root of t into the right tree. */
  lemma {:induction false} LinkRight(m: Memory, nul: Ptr, hdr: Ptr, ls: LeftSpine, t: Tree, rs: RightSpine)
    requires t.Tree? && Splaying(m, nul, hdr, ls, t, rs)
    ensures RMin(rs, hdr) in m && RMin(rs, hdr) != nul
    ensures var k := RMin(rs, hdr);
            Splaying(m[k := m[k].(left := t.n)], nul, hdr, ls, t.l, RCons(rs, t.n, t.e, t.r))
  {
    var k := RMin(rs, hdr);
    var m' := m[k := m[k].(left := t.n)];
    assert rs.RCons? ==> k in RNodes(rs);
    LinkRightShape(nul, hdr, ls, t, rs);
    RepFrame(m, m', nul, t.l);
    RepFrame(m, m', nul, t.r);
    LFrame(m, m', nul, hdr, ls);
    if rs.RCons? {
      RepFrame(m, m', nul, rs.r);
      RFrame(m, m', nul, hdr, rs.up);
    }
    assert RRep(m', nul, hdr, rs);
  }

  /** Linking the root of t into the left tree. */
  lemma {:induction false} LinkLeft(m: Memory, nul: Ptr, hdr: Ptr, ls: LeftSpine, t: Tree, rs: RightSpine)
    requires t.Tree? && Splaying(m, nul, hdr, ls, t, rs)
    ensures LMax(ls, hdr) in m && LMax(ls, hdr) != nul
    ensures var k := LMax(ls, hdr);
            Splaying(m[k := m[k].(right := t.n)], nul, hdr, LCons(ls, t.l, t.n, t.e), t.r, rs)
  {
    var k := LMax(ls, hdr);
    var m' := m[k := m[k].(right := t.n)];
    assert ls.LCons? ==> k in LNodes(ls);
    LinkLeftShape(nul, hdr, ls, t, rs);
    RepFrame(m, m', nul, t.l);
    RepFrame(m, m', nul, t.r);
    RFrame(m, m', nul, hdr, rs);
    if ls.LCons? {
      RepFrame(m, m', nul, ls.l);
      LFrame(m, m', nul, hdr, ls.up);
    }
    assert LRep(m', nul, hdr, ls);
  }

  lemma {:induction false} LinkRightKeys(ls: LeftSpine, t: Tree, rs: RightSpine, item: int)
    requires t.Tree? && item < t.e && Between(ls, rs, item) && Sorted(Keys(ls, t, rs))
    ensures var rs' := RCons(rs, t.n, t.e, t.r); Keys(ls, t.l, rs') == Keys(ls, t, rs) && Between(ls, rs', item)
  {
    var a, b, c, d := LKeys(ls), Inorder(t.l), Inorder(t.r), RKeys(rs);
    assert a + (b + [t.e] + c) + d == a + b + ([t.e] + c + d);
    StepLeft(a, b, t.e, c, d, item);
  }

  lemma {:induction false} LinkLeftKeys(ls: LeftSpine, t: Tree, rs: RightSpine, item: int)
    requires t.Tree? && t.e < item && Between(ls, rs, item) && Sorted(Keys(ls, t, rs))
    ensures var ls' := LCons(ls, t.l, t.n, t.e); Keys(ls', t.r, rs) == Keys(ls, t, rs) && Between(ls', rs, item)
  {
    var a, b, c, d := LKeys(ls), Inorder(t.l), Inorder(t.r), RKeys(rs);
    assert a + (b + [t.e] + c) + d == (a + b + [t.e]) + c + d;
    StepRight(a, b, t.e, c, d, item);
  }

  // ----- Rotations while splaying -----

  function RotatedWithLeft(m: Memory, k2: Ptr): Memory
    requires k2 in m && m[k2].left in m
  {
    var k1 := m[k2].left;
    var m1 := m[k2 := m[k2].(left := m[k1].right)];
    m1[k1 := m1[k1].(right := k2)]
  }

  function RotatedWithRight(m: Memory, k1: Ptr): Memory
    requires k1 in m && m[k1].right in m
  {
    var k2 := m[k1].right;
    var m1 := m[k1 := m[k1].(right := m[k2].left)];
    m1[k2 := m1[k2].(left := k1)]
  }

  lemma {:induction false} RotateLeftChild(m: Memory, nul: Ptr, hdr: Ptr, ls: LeftSpine, t: Tree, rs: RightSpine)
    requires t.Tree? && t.l.Tree? && Splaying(m, nul, hdr, ls, t, rs)
    ensures t.n in m && m[t.n].left in m && Splaying(RotatedWithLeft(m, t.n), nul, hdr, ls, WithLeft(t), rs)
    ensures Agree(m, RotatedWithLeft(m, t.n), m.Keys - Nodes(t))
  {
    assert Rep(m, nul, t.l) && Disjoint(t.l) && t.l.n in Nodes(t.l);
    var m' := RotatedWithLeft(m, t.n);
    Rotation(t, WithLeft(t));
    RepFrame(m, m', nul, t.l.l);
    RepFrame(m, m', nul, t.l.r);
    RepFrame(m, m', nul, t.r);
    LFrame(m, m', nul, hdr, ls);
    RFrame(m, m', nul, hdr, rs);
    assert Rep(m', nul, WithLeft(t).r);
  }

  lemma {:induction false} RotateRightChild(m: Memory, nul: Ptr, hdr: Ptr, ls: LeftSpine, t: Tree, rs: RightSpine)
    requires t.Tree? && t.r.Tree? && Splaying(m, nul, hdr, ls, t, rs)
    ensures t.n in m && m[t.n].right in m && Splaying(RotatedWithRight(m, t.n), nul, hdr, ls, WithRight(t), rs)
    ensures Agree(m, RotatedWithRight(m, t.n), m.Keys - Nodes(t))
  {
    assert Rep(m, nul, t.r) && Disjoint(t.r) && t.r.n in Nodes(t.r);
    var m' := RotatedWithRight(m, t.n);
    Rotation(WithRight(t), t);
    RepFrame(m, m', nul, t.r.l);
    RepFrame(m, m', nul, t.r.r);
    RepFrame(m, m', nul, t.l);
    LFrame(m, m', nul, hdr, ls);
    RFrame(m, m', nul, hdr, rs);
    assert Rep(m', nul, WithRight(t).l);
  }

  // ----- Reassembly -----

  function Assembled(ls: LeftSpine, t: Tree, rs: RightSpine): Tree {
    if t.Leaf? then t else Tree(LClose(ls, t.l), t.n, t.e, RClose(rs, t.r))
  }

  lemma {:induction false} AssembledKeys(ls: LeftSpine, t: Tree, rs: RightSpine)
    requires t.Tree?
    ensures Inorder(Assembled(ls, t, rs)) == Keys(ls, t, rs)
  {
    LCloseKeys(ls, t.l);
    RCloseKeys(rs, t.r);
    var a, b, c, d := LKeys(ls), Inorder(t.l), Inorder(t.r), RKeys(rs);
    assert (a + b) + [t.e] + (c + d) == a + (b + [t.e] + c) + d;
  }

  lemma {:induction false} AssembledNodes(nul: Ptr, hdr: Ptr, ls: LeftSpine, t: Tree, rs: RightSpine)
    requires t.Tree? && Apart(nul, hdr, ls, t, rs)
    ensures var u := Assembled(ls, t, rs); Nodes(u) == AllNodes(ls, t, rs) && Disjoint(u)
  {
    LCloseNodes(ls, t.l);
    RCloseNodes(rs, t.r);
  }

  /** Memory after both pieces left of t have been hung on the two spines. */
  function HungMemory(m: Memory, x: Ptr, lmax: Ptr, rmin: Ptr): Memory
    requires x in m && lmax in m && rmin in m
  {
    var m1 := m[lmax := m[lmax].(right := m[x].left)];
    m1[rmin := m1[rmin].(left := m1[x].right)]
  }

  lemma {:induction false} Hung(m: Memory, nul: Ptr, hdr: Ptr, ls: LeftSpine, t: Tree, rs: RightSpine)
    requires t.Tree? && Splaying(m, nul, hdr, ls, t, rs)
    ensures t.n in m && LMax(ls, hdr) in m && RMin(rs, hdr) in m
    ensures var m' := HungMemory(m, t.n, LMax(ls, hdr), RMin(rs, hdr));
            var l, r := LClose(ls, t.l), RClose(rs, t.r);
            Rep(m', nul, l) && Rep(m', nul, r) && m'[hdr].right == Root(l, nul) && m'[hdr].left == Root(r, nul) &&
            m'[t.n] == m[t.n]
  {
    var lmax, rmin := LMax(ls, hdr), RMin(rs, hdr);
    assert (ls.LCons? ==> lmax in LNodes(ls)) && (rs.RCons? ==> rmin in RNodes(rs)) && t.n in Nodes(t);
    var m' := HungMemory(m, t.n, lmax, rmin);
    LSettled(m, m', nul, hdr, ls, t, rs);
    RSettled(m, m', nul, hdr, ls, t, rs);
    LCloseRep(m', nul, hdr, ls, t.l);
    RCloseRep(m', nul, hdr, rs, t.r);
  }

  /** Memory after the children of x are taken from the header. */
  function CrownedMemory(m: Memory, hdr: Ptr, x: Ptr): Memory
    requires hdr in m && x in m
  {
    var m1 := m[x := m[x].(left := m[hdr].right)];
    m1[x := m1[x].(right := m1[hdr].left)]
  }

  lemma {:induction false} Crowned(m: Memory, nul: Ptr, hdr: Ptr, l: Tree, n: Ptr, r: Tree)
    requires hdr in m && n in m && n != hdr && n != nul && n !in Nodes(l) + Nodes(r)
    requires Rep(m, nul, l) && Rep(m, nul, r) && m[hdr].right == Root(l, nul) && m[hdr].left == Root(r, nul)
    ensures Rep(CrownedMemory(m, hdr, n), nul, Tree(l, n, m[n].element, r))
  {
    var m' := CrownedMemory(m, hdr, n);
    RepFrame(m, m', nul, l);
    RepFrame(m, m', nul, r);
  }

  lemma {:induction false} Reassembled(m: Memory, nul: Ptr, hdr: Ptr, ls: LeftSpine, t: Tree, rs: RightSpine)
    requires t.Tree? && Splaying(m, nul, hdr, ls, t, rs)
    ensures t.n in m && LMax(ls, hdr) in m && RMin(rs, hdr) in m
    ensures Rep(CrownedMemory(HungMemory(m, t.n, LMax(ls, hdr), RMin(rs, hdr)), hdr, t.n), nul, Assembled(ls, t, rs))
  {
    Hung(m, nul, hdr, ls, t, rs);
    LCloseNodes(ls, t.l);
    RCloseNodes(rs, t.r);
    assert t.n in Nodes(t);
    Crowned(HungMemory(m, t.n, LMax(ls, hdr), RMin(rs, hdr)), nul, hdr, LClose(ls, t.l), t.n, RClose(rs, t.r));
  }

  lemma {:induction false} LSettled(m: Memory, m2: Memory, nul: Ptr, hdr: Ptr, ls: LeftSpine, t: Tree, rs: RightSpine)
    requires t.Tree? && Splaying(m, nul, hdr, ls, t, rs) && LMax(ls, hdr) in m2 && hdr in m2
    requires Agree(m, m2, LNodes(ls) + Nodes(t) - {LMax(ls, hdr)})
    requires m2[LMax(ls, hdr)].element == m[LMax(ls, hdr)].element
    requires ls.LCons? ==> m2[LMax(ls, hdr)].left == m[LMax(ls, hdr)].left && m2[hdr].right == m[hdr].right
    ensures LRep(m2, nul, hdr, ls) && Rep(m2, nul, t.l)
  {
    RepFrame(m, m2, nul, t.l);
    if ls.LCons? {
      RepFrame(m, m2, nul, ls.l);
      LFrame(m, m2, nul, hdr, ls.up);
      assert ls.up.LCons? ==> ls.up.n in LNodes(ls.up);
    }
  }

  lemma {:induction false} RSettled(m: Memory, m2: Memory, nul: Ptr, hdr: Ptr, ls: LeftSpine, t: Tree, rs: RightSpine)
    requires t.Tree? && Splaying(m, nul, hdr, ls, t, rs) && RMin(rs, hdr) in m2 && hdr in m2
    requires Agree(m, m2, RNodes(rs) + Nodes(t) - {RMin(rs, hdr)})
    requires m2[RMin(rs, hdr)].element == m[RMin(rs, hdr)].element
    requires rs.RCons? ==> m2[RMin(rs, hdr)].right == m[RMin(rs, hdr)].right && m2[hdr].left == m[hdr].left
    ensures RRep(m2, nul, hdr, rs) && Rep(m2, nul, t.r)
  {
    RepFrame(m, m2, nul, t.r);
    if rs.RCons? {
      RepFrame(m, m2, nul, rs.r);
      RFrame(m, m2, nul, hdr, rs.up);
      assert rs.up.RCons? ==> rs.up.n in RNodes(rs.up);
    }
  }

  // ----- The algorithm -----

  /** The root may stay: it is item, or nothing lies between it and the gap where item belongs. */
  predicate AtRest(t: Tree, item: int) {
    t.Tree? && (t.e == item || (item < t.e && t.l.Leaf?) || (t.e < item && t.r.Leaf?))
  }

  lemma {:induction false} RestIsNearest(ls: LeftSpine, t: Tree, rs: RightSpine, item: int)
    requires AtRest(t, item) && Between(ls, rs, item) && Sorted(Keys(ls, t, rs))
    ensures Nearest(t.e, item, Keys(ls, t, rs))
  {
    var a, b, c, d := LKeys(ls), Inorder(t.l), Inorder(t.r), RKeys(rs);
    assert Keys(ls, t, rs) == (a + b) + [t.e] + (c + d);
    if item < t.e { assert a + b == a; } else if t.e < item { assert c + d == d; }
    GapIsNearest(a + b, t.e, c + d, item);
  }

  // ----- Depths -----

  /** The subtree that a search for item meets after n steps. */
  ghost function PathSub(t: Tree, item: int, n: nat): Tree {
    if n == 0 || t.Leaf? then t else PathSub(if item < t.e then t.l else t.r, item, n - 1)
  }

  lemma {:induction false} PathNext(t: Tree, item: int, n: nat)
    ensures var s := PathSub(t, item, n);
      PathSub(t, item, n + 1) == if s.Leaf? then Leaf else if item < s.e then s.l else s.r
  {
    if n > 0 && t.Tree? { PathNext(if item < t.e then t.l else t.r, item, n - 1); }
  }

  lemma {:induction false} PathEnds(t: Tree, item: int, n: nat, d: nat)
    requires n <= d && PathSub(t, item, n).Leaf?
    ensures PathSub(t, item, d).Leaf?
    decreases d - n
  {
    if n < d {
      PathNext(t, item, n);
      PathEnds(t, item, n + 1, d);
    }
  }

  /** A search for item comes by a node after d steps. */
  ghost predicate OnPath(t: Tree, item: int, d: nat) {
    PathSub(t, item, d).Tree? && forall c: nat :: c < d ==> PathKey(t, item, c) != item
  }

  ghost function PathKey(t: Tree, item: int, d: nat): int {
    var s := PathSub(t, item, d);
    if s.Leaf? then 0 else s.e
  }

  /** x is k links below the root. */
  ghost predicate Sits(t: Tree, x: int, k: nat) {
    t.Tree? && if k == 0 then t.e == x else Sits(t.l, x, k - 1) || Sits(t.r, x, k - 1)
  }

  ghost function LLen(s: LeftSpine): nat {
    if s.LNil? then 0 else 1 + LLen(s.up)
  }

  ghost function RLen(s: RightSpine): nat {
    if s.RNil? then 0 else 1 + RLen(s.up)
  }

  /** x is on the spine, or is the root of what hangs on it, k links below its top. */
  ghost predicate LHas(s: LeftSpine, x: int, k: nat) {
    s.LCons? &&
    (LHas(s.up, x, k) || (s.e == x && k == LLen(s.up)) || (s.l.Tree? && s.l.e == x && k == LLen(s.up) + 1))
  }

  ghost predicate RHas(s: RightSpine, x: int, k: nat) {
    s.RCons? &&
    (RHas(s.up, x, k) || (s.e == x && k == RLen(s.up)) || (s.r.Tree? && s.r.e == x && k == RLen(s.up) + 1))
  }

  lemma {:induction false} LCloseSits(s: LeftSpine, t: Tree, x: int, j: nat)
    requires Sits(t, x, j)
    ensures Sits(LClose(s, t), x, LLen(s) + j)
  {
    if s.LCons? {
      assert Sits(Tree(s.l, s.n, s.e, t), x, j + 1);
      LCloseSits(s.up, Tree(s.l, s.n, s.e, t), x, j + 1);
    }
  }

  lemma {:induction false} RCloseSits(s: RightSpine, t: Tree, x: int, j: nat)
    requires Sits(t, x, j)
    ensures Sits(RClose(s, t), x, RLen(s) + j)
  {
    if s.RCons? {
      assert Sits(Tree(t, s.n, s.e, s.r), x, j + 1);
      RCloseSits(s.up, Tree(t, s.n, s.e, s.r), x, j + 1);
    }
  }

  lemma {:induction false} LHasSits(s: LeftSpine, t: Tree, x: int, k: nat)
    requires LHas(s, x, k)
    ensures Sits(LClose(s, t), x, k)
  {
    var u := Tree(s.l, s.n, s.e, t);
    if s.e == x && k == LLen(s.up) {
      LCloseSits(s.up, u, x, 0);
    } else if s.l.Tree? && s.l.e == x && k == LLen(s.up) + 1 {
      assert Sits(s.l, x, 0);
      LCloseSits(s.up, u, x, 1);
    } else {
      LHasSits(s.up, u, x, k);
    }
  }

  lemma {:induction false} RHasSits(s: RightSpine, t: Tree, x: int, k: nat)
    requires RHas(s, x, k)
    ensures Sits(RClose(s, t), x, k)
  {
    var u := Tree(t, s.n, s.e, s.r);
    if s.e == x && k == RLen(s.up) {
      RCloseSits(s.up, u, x, 0);
    } else if s.r.Tree? && s.r.e == x && k == RLen(s.up) + 1 {
      assert Sits(s.r, x, 0);
      RCloseSits(s.up, u, x, 1);
    } else {
      RHasSits(s.up, u, x, k);
    }
  }

  /** A node that was d links down the search path is about half as far down one of the spines. */
  ghost predicate Halfway(t0: Tree, item: int, d: nat, ls: LeftSpine, rs: RightSpine) {
    exists k: nat :: 2 * k <= d + 2 && Hangs(ls, rs, PathKey(t0, item, d), k)
  }

  ghost predicate Hangs(ls: LeftSpine, rs: RightSpine, x: int, k: nat) {
    LHas(ls, x, k) || RHas(rs, x, k)
  }

  /** Where the tree is taken apart: t is what the search met after n steps, the spines are at most half as long, and
      have everything met before. */
  ghost predicate Halved(t0: Tree, item: int, n: nat, ls: LeftSpine, t: Tree, rs: RightSpine) {
    t.Tree? && t == PathSub(t0, item, n) && (forall c: nat :: c < n ==> PathKey(t0, item, c) != item) &&
    (2 * RLen(rs) <= n || (2 * RLen(rs) <= n + 1 && !(item < t.e))) &&
    (2 * LLen(ls) <= n || (2 * LLen(ls) <= n + 1 && !(t.e < item))) &&
    forall d: nat :: d < n ==> Halfway(t0, item, d, ls, rs)
  }

  lemma {:induction false} StillHalfway(t0: Tree, item: int, d: nat, ls: LeftSpine, rs: RightSpine, ls': LeftSpine,
      rs': RightSpine)
    requires Halfway(t0, item, d, ls, rs) && (ls' == ls || (ls'.LCons? && ls'.up == ls)) &&
      (rs' == rs || (rs'.RCons? && rs'.up == rs))
    ensures Halfway(t0, item, d, ls', rs')
  {
    var k: nat :| 2 * k <= d + 2 && Hangs(ls, rs, PathKey(t0, item, d), k);
    assert Hangs(ls', rs', PathKey(t0, item, d), k);
  }

  lemma {:induction false} AtHalf(t0: Tree, item: int, d: nat, ls: LeftSpine, rs: RightSpine, x: int, k: nat)
    requires x == PathKey(t0, item, d) && Hangs(ls, rs, x, k) && 2 * k <= d + 2
    ensures Halfway(t0, item, d, ls, rs)
  {
  }

  /** One node goes to the right tree. */
  lemma {:induction false} HalvedRight(t0: Tree, item: int, n: nat, ls: LeftSpine, t: Tree, rs: RightSpine)
    requires Halved(t0, item, n, ls, t, rs) && item < t.e && t.l.Tree? && !(item < t.l.e)
    ensures Halved(t0, item, n + 1, ls, t.l, RCons(rs, t.n, t.e, t.r))
  {
    var rs' := RCons(rs, t.n, t.e, t.r);
    PathNext(t0, item, n);
    forall d: nat | d < n + 1 ensures Halfway(t0, item, d, ls, rs') {
      if d < n { StillHalfway(t0, item, d, ls, rs, ls, rs'); } else { AtHalf(t0, item, d, ls, rs', t.e, RLen(rs)); }
    }
  }

  lemma {:induction false} HalvedLeft(t0: Tree, item: int, n: nat, ls: LeftSpine, t: Tree, rs: RightSpine)
    requires Halved(t0, item, n, ls, t, rs) && t.e < item && t.r.Tree? && !(t.r.e < item)
    ensures Halved(t0, item, n + 1, LCons(ls, t.l, t.n, t.e), t.r, rs)
  {
    var ls' := LCons(ls, t.l, t.n, t.e);
    PathNext(t0, item, n);
    forall d: nat | d < n + 1 ensures Halfway(t0, item, d, ls', rs) {
      if d < n { StillHalfway(t0, item, d, ls, rs, ls', rs); } else { AtHalf(t0, item, d, ls', rs, t.e, LLen(ls)); }
    }
  }

  /** Two nodes go to the right tree, the lower one above the other. */
  lemma {:induction false} HalvedTwiceRight(t0: Tree, item: int, n: nat, ls: LeftSpine, t: Tree, rs: RightSpine)
    requires Halved(t0, item, n, ls, t, rs) && t.l.Tree? && item < t.l.e && item < t.e && t.l.l.Tree?
    ensures var v := WithLeft(t); Halved(t0, item, n + 2, ls, v.l, RCons(rs, v.n, v.e, v.r))
  {
    var v := WithLeft(t);
    var rs' := RCons(rs, v.n, v.e, v.r);
    PathNext(t0, item, n);
    PathNext(t0, item, n + 1);
    forall d: nat | d < n + 2 ensures Halfway(t0, item, d, ls, rs') {
      if d < n { StillHalfway(t0, item, d, ls, rs, ls, rs'); }
      else if d == n { AtHalf(t0, item, d, ls, rs', t.e, RLen(rs) + 1); }
      else { AtHalf(t0, item, d, ls, rs', t.l.e, RLen(rs)); }
    }
    forall c: nat | c < n + 2 ensures PathKey(t0, item, c) != item {}
  }

  lemma {:induction false} HalvedTwiceLeft(t0: Tree, item: int, n: nat, ls: LeftSpine, t: Tree, rs: RightSpine)
    requires Halved(t0, item, n, ls, t, rs) && t.r.Tree? && t.r.e < item && t.e < item && t.r.r.Tree?
    ensures var v := WithRight(t); Halved(t0, item, n + 2, LCons(ls, v.l, v.n, v.e), v.r, rs)
  {
    var v := WithRight(t);
    var ls' := LCons(ls, v.l, v.n, v.e);
    PathNext(t0, item, n);
    PathNext(t0, item, n + 1);
    forall d: nat | d < n + 2 ensures Halfway(t0, item, d, ls', rs) {
      if d < n { StillHalfway(t0, item, d, ls, rs, ls', rs); }
      else if d == n { AtHalf(t0, item, d, ls', rs, t.e, LLen(ls) + 1); }
      else { AtHalf(t0, item, d, ls', rs, t.r.e, LLen(ls)); }
    }
    forall c: nat | c < n + 2 ensures PathKey(t0, item, c) != item {}
  }

  lemma {:induction false} HalvedToRight(t0: Tree, item: int, n: nat, ls: LeftSpine, s: Tree, t: Tree, rs: RightSpine)
    returns (n': nat)
    requires Halved(t0, item, n, ls, s, rs) && item < s.e && t.Tree? && t.l.Tree?
    requires t == if s.l.Tree? && item < s.l.e then WithLeft(s) else s
    ensures Halved(t0, item, n', ls, t.l, RCons(rs, t.n, t.e, t.r))
  {
    if s.l.Tree? && item < s.l.e {
      HalvedTwiceRight(t0, item, n, ls, s, rs);
      n' := n + 2;
    } else {
      HalvedRight(t0, item, n, ls, s, rs);
      n' := n + 1;
    }
  }

  lemma {:induction false} HalvedToLeft(t0: Tree, item: int, n: nat, ls: LeftSpine, s: Tree, t: Tree, rs: RightSpine)
    returns (n': nat)
    requires Halved(t0, item, n, ls, s, rs) && s.e < item && t.Tree? && t.r.Tree?
    requires t == if s.r.Tree? && s.r.e < item then WithRight(s) else s
    ensures Halved(t0, item, n', LCons(ls, t.l, t.n, t.e), t.r, rs)
  {
    if s.r.Tree? && s.r.e < item {
      HalvedTwiceLeft(t0, item, n, ls, s, rs);
      n' := n + 2;
    } else {
      HalvedLeft(t0, item, n, ls, s, rs);
      n' := n + 1;
    }
  }

  /** What is left when the search ends: the subtree where it ended, perhaps turned once. */
  ghost predicate Remains(t0: Tree, item: int, n: nat, ls: LeftSpine, t: Tree, v: Tree, rs: RightSpine) {
    Halved(t0, item, n, ls, t, rs) &&
    if item == t.e then v == t
    else if item < t.e then
      if t.l.Tree? && item < t.l.e then t.l.l.Leaf? && v == WithLeft(t) else t.l.Leaf? && v == t
    else if t.r.Tree? && t.r.e < item then t.r.r.Leaf? && v == WithRight(t) else t.r.Leaf? && v == t
  }

  /** Splaying about halves the depth of every node on the search path. */
  ghost predicate PathHalved(t0: Tree, item: int, u: Tree) {
    forall d: nat :: OnPath(t0, item, d) ==> HalfAsDeep(t0, item, d, u)
  }

  ghost predicate HalfAsDeep(t0: Tree, item: int, d: nat, u: Tree) {
    exists k: nat :: 2 * k <= d + 4 && Sits(u, PathKey(t0, item, d), k)
  }

  lemma {:induction false} AtHalfDepth(t0: Tree, item: int, d: nat, u: Tree, x: int, k: nat)
    requires x == PathKey(t0, item, d) && Sits(u, x, k) && 2 * k <= d + 4
    ensures HalfAsDeep(t0, item, d, u)
  {
  }

  lemma {:induction false} HalvesPath(t0: Tree, item: int, n: nat, ls: LeftSpine, t: Tree, v: Tree, rs: RightSpine)
    requires Remains(t0, item, n, ls, t, v, rs)
    ensures PathHalved(t0, item, Assembled(ls, v, rs))
  {
    forall d: nat | OnPath(t0, item, d) ensures HalfAsDeep(t0, item, d, Assembled(ls, v, rs)) {
      if d < n { SpineHalves(t0, item, d, ls, v, rs); } else { RestHalves(t0, item, n, d, ls, t, v, rs); }
    }
  }

  lemma {:induction false} SpineHalves(t0: Tree, item: int, d: nat, ls: LeftSpine, v: Tree, rs: RightSpine)
    requires Halfway(t0, item, d, ls, rs) && v.Tree?
    ensures HalfAsDeep(t0, item, d, Assembled(ls, v, rs))
  {
    var x := PathKey(t0, item, d);
    var k: nat :| 2 * k <= d + 2 && Hangs(ls, rs, x, k);
    if LHas(ls, x, k) { LHasSits(ls, v.l, x, k); } else { RHasSits(rs, v.r, x, k); }
    assert Sits(Assembled(ls, v, rs), x, k + 1);
  }

  lemma {:induction false} RestHalves(t0: Tree, item: int, n: nat, d: nat, ls: LeftSpine, t: Tree, v: Tree,
      rs: RightSpine)
    requires Remains(t0, item, n, ls, t, v, rs) && OnPath(t0, item, d) && n <= d
    ensures HalfAsDeep(t0, item, d, Assembled(ls, v, rs))
  {
    var u := Assembled(ls, v, rs);
    PathNext(t0, item, n);
    if d == n {
      if v == t {
        AtHalfDepth(t0, item, d, u, t.e, 0);
      } else if item < t.e {
        assert Sits(v.r, t.e, 0);
        RCloseSits(rs, v.r, t.e, 0);
        AtHalfDepth(t0, item, d, u, t.e, RLen(rs) + 1);
      } else {
        assert Sits(v.l, t.e, 0);
        LCloseSits(ls, v.l, t.e, 0);
        AtHalfDepth(t0, item, d, u, t.e, LLen(ls) + 1);
      }
    } else {
      BelowRest(t0, item, n, d, ls, t, v, rs);
      AtHalfDepth(t0, item, d, u, v.e, 0);
    }
  }

  /** Below the place where the search ended the path has at most one node, which is then the root. */
  lemma {:induction false} BelowRest(t0: Tree, item: int, n: nat, d: nat, ls: LeftSpine, t: Tree, v: Tree,
      rs: RightSpine)
    requires Remains(t0, item, n, ls, t, v, rs) && OnPath(t0, item, d) && n < d
    ensures d == n + 1 && v.e == PathKey(t0, item, d)
  {
    assert PathKey(t0, item, n) != item;
    PathNext(t0, item, n);
    if v == t {
      PathEnds(t0, item, n + 1, d);
    } else {
      PathNext(t0, item, n + 1);
      if d > n + 1 { PathEnds(t0, item, n + 2, d); }
    }
  }

  class SplayTrees {
    const nul: Ptr
    const hdr: Ptr        // the static header of Splay
    const NULL: Ptr
    var mem: Memory
    var next: Ptr         // every address in use is below it
    var newNode: Ptr      // static in Insert: a node kept from a duplicate, or null

    ghost predicate Ready()
      reads this
    {
      nul in mem && hdr in mem && nul != hdr && mem[nul].left == nul && mem[nul].right == nul &&
      NULL !in mem && NULL < next && (forall n :: n in mem ==> n < next) &&
      (newNode != NULL ==> newNode in mem && newNode != nul && newNode != hdr)
    }

    /** T is a search tree in memory, of shape t. */
    ghost predicate Valid(T: Ptr, t: Tree)
      reads this
    {
      Ready() && T == Root(t, nul) && Rep(mem, nul, t) && Disjoint(t) && Sorted(Inorder(t)) &&
      nul !in Nodes(t) && hdr !in Nodes(t) && newNode !in Nodes(t)
    }

    constructor ()
      ensures Valid(nul, Leaf) && newNode == NULL
    {
      NULL, nul, hdr, next := 0, 1, 2, 3;
      mem := map[1 := Node(0, 1, 1), 2 := Node(0, 1, 1)];
      newNode := 0;
    }

    method SingleRotateWithLeft(k2: Ptr) returns (k1: Ptr)
      requires k2 in mem && mem[k2].left in mem
      modifies this`mem
      ensures k1 == old(mem[k2].left) && mem == RotatedWithLeft(old(mem), k2)
    {
      k1 := mem[k2].left;
      mem := mem[k2 := mem[k2].(left := mem[k1].right)];
      mem := mem[k1 := mem[k1].(right := k2)];
    }

    method SingleRotateWithRight(k1: Ptr) returns (k2: Ptr)
      requires k1 in mem && mem[k1].right in mem
      modifies this`mem
      ensures k2 == old(mem[k1].right) && mem == RotatedWithRight(old(mem), k1)
    {
      k2 := mem[k1].right;
      mem := mem[k1 := mem[k1].(right := mem[k2].left)];
      mem := mem[k2 := mem[k2].(left := k1)];
    }

    ghost predicate Turning(ls: LeftSpine, t: Tree, rs: RightSpine, item: int)
      reads this
    {
      Splaying(mem, nul, hdr, ls, t, rs) && Between(ls, rs, item) && Sorted(Keys(ls, t, rs)) && t.Tree? &&
      mem[nul].element == item
    }

    /** Rotates X with its left child if item lies beyond that child too. */
    method RotateLeftIfBeyond(item: int, x: Ptr, ghost ls: LeftSpine, ghost t: Tree, ghost rs: RightSpine)
      returns (x': Ptr, ghost t': Tree)
      requires Turning(ls, t, rs, item) && item < t.e && x == t.n
      modifies this`mem
      ensures Turning(ls, t', rs, item) && item < t'.e && x' == t'.n && Nodes(t') == Nodes(t) && Size(t') == Size(t)
      ensures t' == if t.l.Tree? && item < t.l.e then WithLeft(t) else t
      ensures Keys(ls, t', rs) == Keys(ls, t, rs)
      ensures mem.Keys == old(mem.Keys) && Agree(old(mem), mem, old(mem.Keys) - Nodes(t))
    {
      x', t' := x, t;
      assert Rep(mem, nul, t.l);
      if item < mem[mem[x'].left].element {
        RotateLeftChild(mem, nul, hdr, ls, t, rs);
        Rotation(t, WithLeft(t));
        x' := SingleRotateWithLeft(x');
        t' := WithLeft(t);
      }
    }

    /** Rotates X with its right child if item lies beyond that child too. */
    method RotateRightIfBeyond(item: int, x: Ptr, ghost ls: LeftSpine, ghost t: Tree, ghost rs: RightSpine)
      returns (x': Ptr, ghost t': Tree)
      requires Turning(ls, t, rs, item) && t.e < item && x == t.n
      modifies this`mem
      ensures Turning(ls, t', rs, item) && t'.e < item && x' == t'.n && Nodes(t') == Nodes(t) && Size(t') == Size(t)
      ensures t' == if t.r.Tree? && t.r.e < item then WithRight(t) else t
      ensures Keys(ls, t', rs) == Keys(ls, t, rs)
      ensures mem.Keys == old(mem.Keys) && Agree(old(mem), mem, old(mem.Keys) - Nodes(t))
    {
      x', t' := x, t;
      assert Rep(mem, nul, t.r);
      if item > mem[mem[x'].right].element {
        RotateRightChild(mem, nul, hdr, ls, t, rs);
        Rotation(WithRight(t), t);
        x' := SingleRotateWithRight(x');
        t' := WithRight(t);
      }
    }

    /** Links X into the right tree and moves on to its left child. */
    method LinkToRight(item: int, x: Ptr, rightTreeMin: Ptr, ghost ls: LeftSpine, ghost t: Tree, ghost rs: RightSpine)
      returns (x': Ptr, ghost rs': RightSpine)
      requires Turning(ls, t, rs, item) && item < t.e && t.l.Tree? && x == t.n && rightTreeMin == RMin(rs, hdr)
      modifies this`mem
      ensures Turning(ls, t.l, rs', item) && x' == t.l.n && x == RMin(rs', hdr) && rs' == RCons(rs, t.n, t.e, t.r)
      ensures Keys(ls, t.l, rs') == Keys(ls, t, rs) && AllNodes(ls, t.l, rs') == AllNodes(ls, t, rs)
      ensures mem.Keys == old(mem.Keys) && Agree(old(mem), mem, old(mem.Keys) - AllNodes(ls, t, rs) - {hdr})
    {
      rs' := RCons(rs, t.n, t.e, t.r);
      LinkRight(mem, nul, hdr, ls, t, rs);
      LinkRightShape(nul, hdr, ls, t, rs);
      LinkRightKeys(ls, t, rs, item);
      assert t.n in Nodes(t) && (rs.RCons? ==> rs.n in RNodes(rs));
      mem := mem[rightTreeMin := mem[rightTreeMin].(left := x)];
      x' := mem[x].left;
    }

    /** Links X into the left tree and moves on to its right child. */
    method LinkToLeft(item: int, x: Ptr, leftTreeMax: Ptr, ghost ls: LeftSpine, ghost t: Tree, ghost rs: RightSpine)
      returns (x': Ptr, ghost ls': LeftSpine)
      requires Turning(ls, t, rs, item) && t.e < item && t.r.Tree? && x == t.n && leftTreeMax == LMax(ls, hdr)
      modifies this`mem
      ensures Turning(ls', t.r, rs, item) && x' == t.r.n && x == LMax(ls', hdr) && ls' == LCons(ls, t.l, t.n, t.e)
      ensures Keys(ls', t.r, rs) == Keys(ls, t, rs) && AllNodes(ls', t.r, rs) == AllNodes(ls, t, rs)
      ensures mem.Keys == old(mem.Keys) && Agree(old(mem), mem, old(mem.Keys) - AllNodes(ls, t, rs) - {hdr})
    {
      ls' := LCons(ls, t.l, t.n, t.e);
      LinkLeft(mem, nul, hdr, ls, t, rs);
      LinkLeftShape(nul, hdr, ls, t, rs);
      LinkLeftKeys(ls, t, rs, item);
      assert t.n in Nodes(t) && (ls.LCons? ==> ls.n in LNodes(ls));
      mem := mem[leftTreeMax := mem[leftTreeMax].(right := x)];
      x' := mem[x].right;
    }

    /** Descends, breaking the tree apart, until item or the gap where it belongs is reached. */
    method Split(item: int, X: Ptr, ghost t0: Tree)
      returns (x: Ptr, leftTreeMax: Ptr, rightTreeMin: Ptr, ghost ls: LeftSpine, ghost t: Tree, ghost rs: RightSpine)
      requires Turning(LNil, t0, RNil, item) && X == t0.n
      modifies this`mem
      ensures Turning(ls, t, rs, item) && AtRest(t, item) && x == t.n
      ensures leftTreeMax == LMax(ls, hdr) && rightTreeMin == RMin(rs, hdr)
      ensures Keys(ls, t, rs) == Inorder(t0) && AllNodes(ls, t, rs) == Nodes(t0)
      ensures PathHalved(t0, item, Assembled(ls, t, rs))
      ensures mem.Keys == old(mem.Keys) && Agree(old(mem), mem, old(mem.Keys) - Nodes(t0) - {hdr})
    {
      x, leftTreeMax, rightTreeMin := X, hdr, hdr;
      ghost var n: nat, s: Tree := 0, t0;
      ls, t, rs := LNil, t0, RNil;
      assert Keys(LNil, t0, RNil) == Inorder(t0);
      while item != mem[x].element
        invariant Turning(ls, t, rs, item) && x == t.n
        invariant leftTreeMax == LMax(ls, hdr) && rightTreeMin == RMin(rs, hdr)
        invariant Keys(ls, t, rs) == Inorder(t0) && AllNodes(ls, t, rs) == Nodes(t0)
        invariant Halved(t0, item, n, ls, t, rs) && s == t
        invariant mem.Keys == old(mem.Keys) && Agree(old(mem), mem, old(mem.Keys) - Nodes(t0) - {hdr})
        decreases Size(t)
      {
        if item < mem[x].element {
          x, t := RotateLeftIfBeyond(item, x, ls, t, rs);
          assert Rep(mem, nul, t.l);
          if mem[x].left == nul { break; }
          var y;
          n := HalvedToRight(t0, item, n, ls, s, t, rs);
          y, rs := LinkToRight(item, x, rightTreeMin, ls, t, rs);
          rightTreeMin, x, t := x, y, t.l;
          s := t;
        } else {
          x, t := RotateRightIfBeyond(item, x, ls, t, rs);
          assert Rep(mem, nul, t.r);
          if mem[x].right == nul { break; }
          var y;
          n := HalvedToLeft(t0, item, n, ls, s, t, rs);
          y, ls := LinkToLeft(item, x, leftTreeMax, ls, t, rs);
          leftTreeMax, x, t := x, y, t.r;
          s := t;
        }
      }
      HalvesPath(t0, item, n, ls, s, t, rs);
    }

    /** Brings item, or a neighbour of the place where it belongs, to the root. */
    method Splay(item: int, X: Ptr, ghost t0: Tree) returns (x: Ptr, ghost u: Tree)
      requires Valid(X, t0)
      modifies this`mem
      ensures Valid(x, u) && Inorder(u) == Inorder(t0) && Nodes(u) == Nodes(t0) && mem[nul].element == item
      ensures t0.Tree? ==> u.Tree? && Nearest(u.e, item, Inorder(t0)) && PathHalved(t0, item, u)
      ensures mem.Keys == old(mem.Keys) && Agree(old(mem), mem, old(mem.Keys) - Nodes(t0) - {hdr, nul})
    {
      Prepare(item, X, t0);
      if X == nul {
        // The sentinel holds item, so nothing is taken apart; reassembly copies its own links.
        mem := mem[hdr := mem[hdr].(right := mem[X].left)];
        mem := mem[hdr := mem[hdr].(left := mem[X].right)];
        mem := mem[X := mem[X].(left := mem[hdr].right, right := mem[hdr].left)];
        return X, Leaf;
      }
      x, u := Rearrange(item, X, t0);
    }

    /** Empties the header and puts item into the sentinel. */
    method Prepare(item: int, X: Ptr, ghost t0: Tree)
      requires Valid(X, t0)
      modifies this`mem
      ensures Valid(X, t0) && mem[nul].element == item && (t0.Tree? ==> Turning(LNil, t0, RNil, item))
      ensures mem.Keys == old(mem.Keys) && Agree(old(mem), mem, old(mem.Keys) - {hdr, nul})
    {
      mem := mem[hdr := mem[hdr].(left := nul, right := nul)];
      mem := mem[nul := mem[nul].(element := item)];
      RepFrame(old(mem), mem, nul, t0);
      assert Keys(LNil, t0, RNil) == Inorder(t0);
    }

    /** Takes the tree apart around item and puts it together again. */
    method Rearrange(item: int, X: Ptr, ghost t0: Tree) returns (x: Ptr, ghost u: Tree)
      requires Turning(LNil, t0, RNil, item) && X == t0.n
      modifies this`mem
      ensures u.Tree? && x == u.n && Rep(mem, nul, u) && Disjoint(u) && Inorder(u) == Inorder(t0) &&
        Nodes(u) == Nodes(t0)
      ensures mem.Keys == old(mem.Keys) && Agree(old(mem), mem, old(mem.Keys) - Nodes(t0) - {hdr})
      ensures Nearest(u.e, item, Inorder(t0)) && PathHalved(t0, item, u) && mem[nul] == old(mem[nul])
    {
      var leftTreeMax, rightTreeMin;
      ghost var ls, t, rs;
      x, leftTreeMax, rightTreeMin, ls, t, rs := Split(item, X, t0);
      RestIsNearest(ls, t, rs, item);
      u := Reassemble(x, leftTreeMax, rightTreeMin, ls, t, rs);
    }

    method Reassemble(x: Ptr, leftTreeMax: Ptr, rightTreeMin: Ptr, ghost ls: LeftSpine, ghost t: Tree,
        ghost rs: RightSpine)
      returns (ghost u: Tree)
      requires Splaying(mem, nul, hdr, ls, t, rs) && t.Tree? && x == t.n
      requires leftTreeMax == LMax(ls, hdr) && rightTreeMin == RMin(rs, hdr)
      modifies this`mem
      ensures u == Assembled(ls, t, rs) && u.Tree? && u.n == x && u.e == t.e && Rep(mem, nul, u) && Disjoint(u)
      ensures Inorder(u) == Keys(ls, t, rs) && Nodes(u) == AllNodes(ls, t, rs)
      ensures mem.Keys == old(mem.Keys) && Agree(old(mem), mem, old(mem.Keys) - AllNodes(ls, t, rs) - {hdr})
    {
      u := Assembled(ls, t, rs);
      Reassembled(mem, nul, hdr, ls, t, rs);
      AssembledKeys(ls, t, rs);
      AssembledNodes(nul, hdr, ls, t, rs);
      assert t.n in Nodes(t) && (ls.LCons? ==> ls.n in LNodes(ls)) && (rs.RCons? ==> rs.n in RNodes(rs));
      mem := mem[leftTreeMax := mem[leftTreeMax].(right := mem[x].left)];
      mem := mem[rightTreeMin := mem[rightTreeMin].(left := mem[x].right)];
      mem := mem[x := mem[x].(left := mem[hdr].right)];
      mem := mem[x := mem[x].(right := mem[hdr].left)];
    }
  
    /** Adds item. A duplicate keeps the spare node for the next call. */
    method Insert(item: int, T: Ptr, ghost t: Tree) returns (r: Ptr, ghost u: Tree)
      requires Valid(T, t)
      modifies this`mem, this`next, this`newNode
      ensures Valid(r, u) && forall e :: e in Inorder(u) <==> e in Inorder(t) || e == item
      ensures u.Tree? && u.e == item && (newNode != NULL <==> item in Inorder(t))
      ensures item in Inorder(t) ==> Inorder(u) == Inorder(t)
    {
      Spare(item, T, t);
      if T == nul {
        mem := mem[newNode := mem[newNode].(left := nul, right := nul)];
        r, u := newNode, Tree(Leaf, newNode, item, Leaf);
      } else {
        var x;
        ghost var v;
        x, v := Splay(item, T, t);
        if item < mem[x].element {
          u := PutAboveSuccessor(item, x, v);
        } else if mem[x].element < item {
          u := PutAbovePredecessor(item, x, v);
        } else {
          return x, v;
        }
        r := newNode;
      }
      RepInMemory(mem, nul, u);
      newNode := NULL;
    }

    /** Makes the spare node the root above x, whose key follows item. */
    method PutAboveSuccessor(item: int, x: Ptr, ghost v: Tree) returns (ghost u: Tree)
      requires Valid(x, v) && v.Tree? && newNode != NULL && mem[newNode].element == item
      requires Nearest(v.e, item, Inorder(v)) && item < v.e
      modifies this`mem
      ensures Ready() && u.Tree? && u.n == newNode && u.e == item && Rep(mem, nul, u) && Disjoint(u) &&
        Sorted(Inorder(u))
      ensures Nodes(u) == Nodes(v) + {newNode} && item !in Inorder(v)
      ensures forall e :: e in Inorder(u) <==> e in Inorder(v) || e == item
    {
      u := Tree(v.l, newNode, item, Tree(Leaf, v.n, v.e, v.r));
      NewRootLeft(v, item, newNode);
      NewRootLeftMemory(mem, nul, v, newNode);
      ghost var m := mem;
      mem := mem[newNode := mem[newNode].(left := mem[x].left)];
      mem := mem[newNode := mem[newNode].(right := x)];
      mem := mem[x := mem[x].(left := nul)];
      assert mem == m[newNode := Node(item, m[x].left, x)][x := m[x].(left := nul)];
    }

    method PutAbovePredecessor(item: int, x: Ptr, ghost v: Tree) returns (ghost u: Tree)
      requires Valid(x, v) && v.Tree? && newNode != NULL && mem[newNode].element == item
      requires Nearest(v.e, item, Inorder(v)) && v.e < item
      modifies this`mem
      ensures Ready() && u.Tree? && u.n == newNode && u.e == item && Rep(mem, nul, u) && Disjoint(u) &&
        Sorted(Inorder(u))
      ensures Nodes(u) == Nodes(v) + {newNode} && item !in Inorder(v)
      ensures forall e :: e in Inorder(u) <==> e in Inorder(v) || e == item
    {
      u := Tree(Tree(v.l, v.n, v.e, Leaf), newNode, item, v.r);
      NewRootRight(v, item, newNode);
      NewRootRightMemory(mem, nul, v, newNode);
      ghost var m := mem;
      mem := mem[newNode := mem[newNode].(right := mem[x].right)];
      mem := mem[newNode := mem[newNode].(left := x)];
      mem := mem[x := mem[x].(right := nul)];
      assert mem == m[newNode := Node(item, x, m[x].right)][x := m[x].(right := nul)];
    }

    /** Makes sure that a spare node exists and holds item. */
    method Spare(item: int, T: Ptr, ghost t: Tree)
      requires Valid(T, t)
      modifies this`mem, this`next, this`newNode
      ensures Valid(T, t) && newNode != NULL && mem[newNode].element == item
    {
      if newNode == NULL {
        newNode := next;
        next := next + 1;
        RepInMemory(mem, nul, t);
        var garbage: Node :| true;
        mem := mem[newNode := garbage];
      }
      mem := mem[newNode := mem[newNode].(element := item)];
      RepFrame(old(mem), mem, nul, t);
    }

    /** Takes item out, if it is there, and frees its node. */
    method Remove(item: int, T: Ptr, ghost t: Tree) returns (r: Ptr, ghost u: Tree)
      requires Valid(T, t)
      modifies this`mem
      ensures Valid(r, u) && forall e :: e in Inorder(u) <==> e in Inorder(t) && e != item
    {
      r, u := T, t;
      if T != nul {
        var x;
        ghost var v;
        x, v := Splay(item, T, t);
        if item != mem[x].element {
          return x, v;
        }
        r, u := CutRoot(x, v);
      }
    }

    /** Joins the subtrees of the root x and frees it. */
    method CutRoot(x: Ptr, ghost v: Tree) returns (r: Ptr, ghost u: Tree)
      requires Valid(x, v) && v.Tree?
      modifies this`mem
      ensures Valid(r, u) && forall e :: e in Inorder(u) <==> e in Inorder(v) && e != v.e
    {
      SortedAround(Inorder(v.l), v.e, Inorder(v.r));
      ghost var m := mem;
      if mem[x].left == nul {
        assert Rep(mem, nul, v.l);
        r, u := mem[x].right, v.r;
        RepFrame(mem, mem - {x}, nul, v.r);
      } else {
        ghost var l;
        r, l := Splay(mem[x].element, mem[x].left, v.l);
        u := Tree(l.l, l.n, l.e, v.r);
        JoinedUnderMax(v, l);
        RepFrame(m, mem, nul, v.r);
        JoinedMemory(mem, nul, l, v.r, x);
        mem := mem[r := mem[r].(right := mem[x].right)];
      }
      mem := mem - {x};
    }
  }

  lemma {:induction false} RepInMemory(m: Memory, nul: Ptr, t: Tree)
    requires Rep(m, nul, t)
    ensures Nodes(t) <= m.Keys
  {
    if t.Tree? {
      RepInMemory(m, nul, t.l);
      RepInMemory(m, nul, t.r);
    }
  }

  /** Putting item above a root that is its successor. */
  lemma {:induction false} NewRootLeft(v: Tree, item: int, n: Ptr)
    requires v.Tree? && Sorted(Inorder(v)) && Nearest(v.e, item, Inorder(v)) && item < v.e
    ensures var k := Inorder(Tree(v.l, n, item, Tree(Leaf, v.n, v.e, v.r)));
            Sorted(k) && item !in Inorder(v) && forall e :: e in k <==> e in Inorder(v) || e == item
  {
    var a, b := Inorder(v.l), Inorder(v.r);
    var w := [] + [v.e] + b;
    assert Inorder(Tree(Leaf, v.n, v.e, v.r)) == w;
    NearestSplits(a, v.e, b, item);
    SortedAround(a, v.e, b);
    SortedAround([], v.e, b);
    SortedAround(a, item, w);
  }

  lemma {:induction false} NewRootRight(v: Tree, item: int, n: Ptr)
    requires v.Tree? && Sorted(Inorder(v)) && Nearest(v.e, item, Inorder(v)) && v.e < item
    ensures var k := Inorder(Tree(Tree(v.l, v.n, v.e, Leaf), n, item, v.r));
            Sorted(k) && item !in Inorder(v) && forall e :: e in k <==> e in Inorder(v) || e == item
  {
    var a, b := Inorder(v.l), Inorder(v.r);
    var w := a + [v.e] + [];
    assert Inorder(Tree(v.l, v.n, v.e, Leaf)) == w;
    NearestSplits(a, v.e, b, item);
    SortedAround(a, v.e, b);
    SortedAround(a, v.e, []);
    SortedAround(w, item, b);
  }

  lemma {:induction false} NewRootLeftMemory(m: Memory, nul: Ptr, v: Tree, n: Ptr)
    requires v.Tree? && Rep(m, nul, v) && Disjoint(v) && n in m && n !in Nodes(v) && n != nul
    ensures var m' := m[n := Node(m[n].element, m[v.n].left, v.n)][v.n := m[v.n].(left := nul)];
            var u := Tree(v.l, n, m[n].element, Tree(Leaf, v.n, v.e, v.r));
            Rep(m', nul, u) && Disjoint(u) && Nodes(u) == Nodes(v) + {n}
  {
    var m' := m[n := Node(m[n].element, m[v.n].left, v.n)][v.n := m[v.n].(left := nul)];
    RepFrame(m, m', nul, v.l);
    RepFrame(m, m', nul, v.r);
    assert Rep(m', nul, Tree(Leaf, v.n, v.e, v.r));
  }

  lemma {:induction false} NewRootRightMemory(m: Memory, nul: Ptr, v: Tree, n: Ptr)
    requires v.Tree? && Rep(m, nul, v) && Disjoint(v) && n in m && n !in Nodes(v) && n != nul
    ensures var m' := m[n := Node(m[n].element, v.n, m[v.n].right)][v.n := m[v.n].(right := nul)];
            var u := Tree(Tree(v.l, v.n, v.e, Leaf), n, m[n].element, v.r);
            Rep(m', nul, u) && Disjoint(u) && Nodes(u) == Nodes(v) + {n}
  {
    var m' := m[n := Node(m[n].element, v.n, m[v.n].right)][v.n := m[v.n].(right := nul)];
    RepFrame(m, m', nul, v.l);
    RepFrame(m, m', nul, v.r);
    assert Rep(m', nul, Tree(v.l, v.n, v.e, Leaf));
  }

  /** After splaying the left subtree for the deleted key, its root is its maximum and has no right child. */
  lemma {:induction false} JoinedUnderMax(v: Tree, l: Tree)
    requires v.Tree? && Sorted(Inorder(v)) && l.Tree? && Inorder(l) == Inorder(v.l) && Nearest(l.e, v.e, Inorder(l))
    ensures l.r.Leaf?
    ensures var k := Inorder(Tree(l.l, l.n, l.e, v.r)); Sorted(k) && forall e :: e in k <==> e in Inorder(v) && e != v.e
  {
    var a, b, c := Inorder(l.l), Inorder(l.r), Inorder(v.r);
    SortedAround(Inorder(v.l), v.e, c);
    NearestIsLast(a, l.e, b, v.e);
    SortedAround(a, l.e, b);
    SortedAround(a, l.e, c);
    assert Inorder(v.l) == a + [l.e];
  }

  lemma {:induction false} JoinedMemory(m: Memory, nul: Ptr, l: Tree, r: Tree, x: Ptr)
    requires l.Tree? && l.r.Leaf? && Rep(m, nul, l) && Rep(m, nul, r) && Disjoint(l) && Disjoint(r) &&
      Nodes(l) !! Nodes(r)
    requires x in m && m[x].right == Root(r, nul) && x !in Nodes(l) + Nodes(r) && x != nul
    ensures var m' := m[l.n := m[l.n].(right := m[x].right)] - {x};
            var u := Tree(l.l, l.n, l.e, r);
            Rep(m', nul, u) && Disjoint(u) && Nodes(u) == Nodes(l) + Nodes(r)
  {
    var m' := m[l.n := m[l.n].(right := m[x].right)] - {x};
    RepFrame(m, m', nul, l.l);
    RepFrame(m, m', nul, r);
  }
}
