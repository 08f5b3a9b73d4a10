/** Top-down red-black insertion, DSAAC/redblack.c. */
module RedBlack {
  import opened Basics
  import opened Ordering

  const NEG_INFINITY := -10000

  datatype Color = Red | Black

  datatype Node = Node(element: int, left: Ptr, right: Ptr, color: Color)

  type Memory = map<Ptr, Node>

  // ----- Shapes: what a subtree, and the part of the tree above it, look like -----

  datatype Tree = Leaf | Tree(l: Tree, n: Ptr, e: int, c: Color, r: Tree)

  /** The ancestors of a position, innermost first, ending at the header. */
  datatype Path =
    | Top(header: Ptr)
    | GoLeft(up: Path, n: Ptr, e: int, c: Color, r: Tree)
    | GoRight(up: Path, l: Tree, n: Ptr, e: int, c: Color)

  ghost function Nodes(t: Tree): set<Ptr> {
    if t.Leaf? then {} else Nodes(t.l) + {t.n} + Nodes(t.r)
  }

  ghost function PathNodes(p: Path): set<Ptr> {
    match p
    case Top(h) => {h}
    case GoLeft(up, n, _, _, r) => PathNodes(up) + {n} + Nodes(r)
    case GoRight(up, l, n, _, _) => PathNodes(up) + {n} + Nodes(l)
  }

  ghost predicate Disjoint(t: Tree) {
    t.Tree? ==> Disjoint(t.l) && Disjoint(t.r) && Nodes(t.l) !! Nodes(t.r) && t.n !in Nodes(t.l) + Nodes(t.r)
  }

  ghost predicate PathDisjoint(p: Path) {
    match p
    case Top(_) => true
    case GoLeft(up, n, _, _, r) =>
      PathDisjoint(up) && Disjoint(r) && PathNodes(up) !! Nodes(r) && n !in PathNodes(up) + Nodes(r)
    case GoRight(up, l, n, _, _) =>
      PathDisjoint(up) && Disjoint(l) && PathNodes(up) !! Nodes(l) && n !in PathNodes(up) + Nodes(l)
  }

  function Root(t: Tree, nul: Ptr): Ptr {
    if t.Leaf? then nul else t.n
  }

  /** The memory holds exactly this subtree. */
  ghost predicate Rep(m: Memory, nul: Ptr, t: Tree) {
    t.Tree? ==>
      t.n != nul && t.n in m && m[t.n] == Node(t.e, Root(t.l, nul), Root(t.r, nul), t.c) &&
      Rep(m, nul, t.l) && Rep(m, nul, t.r)
  }

  /** The memory holds exactly these ancestors, with child hanging below the innermost. */
  ghost predicate PathRep(m: Memory, nul: Ptr, p: Path, child: Ptr) {
    match p
    case Top(h) => h != nul && h in m && m[h] == Node(NEG_INFINITY, nul, child, Black)
    case GoLeft(up, n, e, c, r) =>
      n != nul && n in m && m[n] == Node(e, child, Root(r, nul), c) && Rep(m, nul, r) && PathRep(m, nul, up, n)
    case GoRight(up, l, n, e, c) =>
      n != nul && n in m && m[n] == Node(e, Root(l, nul), child, c) && Rep(m, nul, l) && PathRep(m, nul, up, n)
  }

  lemma {:induction false} RepFrame(m: Memory, m': Memory, nul: Ptr, t: Tree)
    requires Rep(m, nul, t) && Agree(m, m', Nodes(t))
    ensures Rep(m', nul, t)
  {
    if t.Tree? {
      RepFrame(m, m', nul, t.l);
      RepFrame(m, m', nul, t.r);
    }
  }

  lemma {:induction false} PathFrame(m: Memory, m': Memory, nul: Ptr, p: Path, child: Ptr)
    requires PathRep(m, nul, p, child) && Agree(m, m', PathNodes(p))
    ensures PathRep(m', nul, p, child)
  {
    match p
    case Top(_) =>
    case GoLeft(up, n, _, _, r) => RepFrame(m, m', nul, r); PathFrame(m, m', nul, up, n);
    case GoRight(up, l, n, _, _) => RepFrame(m, m', nul, l); PathFrame(m, m', nul, up, n);
  }

  // ----- Keys -----

  ghost function Inorder(t: Tree): seq<int> {
    if t.Leaf? then [] else Inorder(t.l) + [t.e] + Inorder(t.r)
  }

  ghost function Before(p: Path): seq<int> {
    match p
    case Top(_) => []
    case GoLeft(up, _, _, _, _) => Before(up)
    case GoRight(up, l, _, e, _) => Before(up) + Inorder(l) + [e]
  }

  ghost function After(p: Path): seq<int> {
    match p
    case Top(_) => []
    case GoLeft(up, _, e, _, r) => [e] + Inorder(r) + After(up)
    case GoRight(up, _, _, _, _) => After(up)
  }

  /** All keys of the tree that has t at the position p. */
  ghost function Keys(p: Path, t: Tree): seq<int> {
    Before(p) + Inorder(t) + After(p)
  }

  /** The position p is where the search for item leads. */
  ghost predicate Leads(p: Path, item: int) {
    AllBelow(Before(p), item) && AllAbove(After(p), item)
  }

  // ----- Colours and black heights -----

  predicate IsRed(t: Tree) {
    t.Tree? && t.c == Red
  }

  predicate TopRed(p: Path) {
    !p.Top? && p.c == Red
  }

  function Rank(c: Color): nat {
    if c == Black then 1 else 0
  }

  /** No red node has a red child, and every way down meets h black nodes. */
  ghost predicate Good(t: Tree, h: nat) {
    match t
    case Leaf => h == 0
    case Tree(l, _, _, c, r) =>
      (c == Red ==> !IsRed(l) && !IsRed(r)) && h >= Rank(c) && Good(l, h - Rank(c)) && Good(r, h - Rank(c))
  }

  /** Putting a subtree of black height h with a black root at p gives a red-black tree. */
  ghost predicate PathGood(p: Path, h: nat) {
    match p
    case Top(_) => true
    case GoLeft(up, _, _, c, r) =>
      Good(r, h) && (c == Red ==> !IsRed(r) && !TopRed(up) && !up.Top?) && PathGood(up, h + Rank(c))
    case GoRight(up, l, _, _, c) =>
      Good(l, h) && (c == Red ==> !IsRed(l) && !TopRed(up) && !up.Top?) && PathGood(up, h + Rank(c))
  }

  /** t at p is part of a red-black tree with a black root. */
  ghost predicate ZipGood(p: Path, t: Tree, h: nat) {
    Good(t, h) && PathGood(p, h) && (IsRed(t) ==> !TopRed(p) && !p.Top?)
  }

  // ----- The colour flip and the rotations, on shapes -----

  function Painted(t: Tree, c: Color): Tree {
    if t.Leaf? then t else t.(c := c)
  }

  /** The colour flip at t. */
  function Flip(t: Tree): Tree
    requires t.Tree?
  {
    Tree(Painted(t.l, Black), t.n, t.e, Red, Painted(t.r, Black))
  }

  /** What HandleReorient makes of the subtree t at p. */
  function Reorient(p: Path, t: Tree): (q: (Path, Tree))
    requires t.Tree? && (TopRed(p) ==> !p.up.Top?)
  {
    var x := Flip(t);
    if !TopRed(p) then (p, if p.Top? then Painted(x, Black) else x)
    else match p
      case GoLeft(GoLeft(up, gn, ge, _, gr), n, e, _, r) =>
        (up, Tree(x, n, e, Black, Tree(r, gn, ge, Red, gr)))
      case GoRight(GoRight(up, gl, gn, ge, _), l, n, e, _) =>
        (up, Tree(Tree(gl, gn, ge, Red, l), n, e, Black, x))
      case GoRight(GoLeft(up, gn, ge, _, gr), l, n, e, _) =>
        (up, Tree(Tree(l, n, e, Red, x.l), x.n, x.e, Black, Tree(x.r, gn, ge, Red, gr)))
      case GoLeft(GoRight(up, gl, gn, ge, _), n, e, _, r) =>
        (up, Tree(Tree(gl, gn, ge, Red, x.l), x.n, x.e, Black, Tree(x.r, n, e, Red, r)))
  }

  lemma FlipKeys(t: Tree)
    requires t.Tree?
    ensures Inorder(Flip(t)) == Inorder(t)
  {
    assert Inorder(Painted(t.l, Black)) == Inorder(t.l) && Inorder(Painted(t.r, Black)) == Inorder(t.r);
  }

  /** The subtree one step up from t at p. */
  function Up(p: Path, t: Tree): Tree
    requires !p.Top?
  {
    if p.GoLeft? then Tree(t, p.n, p.e, p.c, p.r) else Tree(p.l, p.n, p.e, p.c, t)
  }

  lemma {:induction false} UpKeys(p: Path, t: Tree)
    requires !p.Top?
    ensures Keys(p.up, Up(p, t)) == Keys(p, t)
  {
    var b, i, a := Before(p.up), Inorder(t), After(p.up);
    if p.GoLeft? {
      var r := Inorder(p.r);
      assert b + (i + [p.e] + r) + a == b + i + ([p.e] + r + a);
    } else {
      var l := Inorder(p.l);
      assert b + (l + [p.e] + i) + a == (b + l + [p.e]) + i + a;
    }
  }

  /** l rotated to the right, as far as keys and nodes go. */
  ghost predicate Turned(l: Tree, r: Tree) {
    l.Tree? && l.l.Tree? && r.Tree? && r.r.Tree? && l.l.l == r.l && l.l.r == r.r.l && l.r == r.r.r &&
    l.l.n == r.n && l.l.e == r.e && l.n == r.r.n && l.e == r.r.e
  }

  /** A single rotation, in either direction and with any colours, keeps keys and nodes. */
  lemma {:induction false} Rotation(l: Tree, r: Tree)
    requires Turned(l, r)
    ensures Inorder(l) == Inorder(r) && Nodes(l) == Nodes(r) && Disjoint(l) == Disjoint(r)
  {
    var a, b, d := Inorder(r.l), Inorder(r.r.l), Inorder(r.r.r);
    assert Inorder(l.l) == a + [r.e] + b;
    assert Inorder(r.r) == b + [l.e] + d;
    assert a + [r.e] + b + [l.e] + d == a + [r.e] + (b + [l.e] + d);
    RotationNodes(l, r);
  }

  lemma {:induction false} RotationNodes(l: Tree, r: Tree)
    requires Turned(l, r)
    ensures Nodes(l) == Nodes(r) && Disjoint(l) == Disjoint(r)
  {
    assert Nodes(l.l) == Nodes(r.l) + {r.n} + Nodes(r.r.l);
    assert Nodes(r.r) == Nodes(r.r.l) + {l.n} + Nodes(r.r.r);
    if Disjoint(l) { assert Disjoint(l.l); assert Disjoint(r.r); }
    if Disjoint(r) { assert Disjoint(r.r); assert Disjoint(l.l); }
  }

  /** Equal subtrees below the same node, as far as keys and nodes go. */
  lemma {:induction false} Congruent(t: Tree, u: Tree)
    requires t.Tree? && u.Tree? && t.n == u.n && t.e == u.e
    requires Inorder(t.l) == Inorder(u.l) && Nodes(t.l) == Nodes(u.l) && Disjoint(t.l) == Disjoint(u.l)
    requires Inorder(t.r) == Inorder(u.r) && Nodes(t.r) == Nodes(u.r) && Disjoint(t.r) == Disjoint(u.r)
    ensures Inorder(t) == Inorder(u) && Nodes(t) == Nodes(u) && Disjoint(t) == Disjoint(u)
  {
  }

  lemma {:induction false} Rotated(p: Path, t: Tree)
    requires t.Tree? && TopRed(p) && !p.up.Top?
    ensures var t', u := Reorient(p, t).1, Up(p.up, Up(p, Flip(t)));
            Inorder(t') == Inorder(u) && Nodes(t') == Nodes(u) && Disjoint(t') == Disjoint(u)
  {
    var t', x, g := Reorient(p, t).1, Flip(t), p.up;
    var y := Up(p, x);
    var u := Up(g, y);
    if p.GoLeft? && g.GoLeft? {
      Rotation(u, t');
    } else if p.GoRight? && g.GoRight? {
      Rotation(t', u);
    } else if p.GoRight? {
      var z := Tree(Tree(p.l, p.n, p.e, Red, x.l), x.n, x.e, Red, x.r);
      var v := Tree(z, g.n, g.e, g.c, g.r);
      Rotation(z, y);
      Congruent(u, v);
      Rotation(v, t');
    } else {
      var z := Tree(x.l, x.n, x.e, Red, Tree(x.r, p.n, p.e, Red, p.r));
      var v := Tree(g.l, g.n, g.e, g.c, z);
      Rotation(y, z);
      Congruent(u, v);
      Rotation(t', v);
    }
  }

  /** A colour flip and a rotation leave the sequence of keys alone. */
  lemma ReorientKeys(p: Path, t: Tree)
    requires t.Tree? && (TopRed(p) ==> !p.up.Top?)
    ensures var (p', t') := Reorient(p, t); Keys(p', t') == Keys(p, t)
  {
    FlipKeys(t);
    var x := Flip(t);
    if TopRed(p) {
      UpKeys(p, x);
      UpKeys(p.up, Up(p, x));
      Rotated(p, t);
    } else {
      assert Inorder(Painted(x, Black)) == Inorder(x);
    }
  }

  lemma ReorientLeads(p: Path, t: Tree, item: int)
    requires t.Tree? && (TopRed(p) ==> !p.up.Top?) && Leads(p, item)
    ensures Leads(Reorient(p, t).0, item)
  {
    if TopRed(p) {
      LeadsUp(p, item);
      LeadsUp(p.up, item);
    }
  }

  lemma LeadsUp(p: Path, item: int)
    requires Leads(p, item) && !p.Top?
    ensures Leads(p.up, item) && (if p.GoLeft? then item < p.e else p.e < item)
  {
    match p
    case GoLeft(up, _, e, _, r) =>
      var a := After(p);
      assert Before(p) == Before(up);
      assert a[0] == e;
      assert forall i :: 0 <= i < |After(up)| ==> After(up)[i] == a[i + 1 + |Inorder(r)|];
    case GoRight(up, l, _, e, _) =>
      var b := Before(p);
      assert After(p) == After(up);
      assert b[|b| - 1] == e;
      assert forall i :: 0 <= i < |Before(up)| ==> Before(up)[i] == b[i];
  }

  lemma PaintedGood(t: Tree, h: nat)
    requires Good(t, h)
    ensures Good(Painted(t, Black), if IsRed(t) then h + 1 else h)
  {
  }

  /** The child on the other side of the innermost ancestor is red. */
  predicate SiblingRed(p: Path) {
    !p.Top? && IsRed(if p.GoLeft? then p.r else p.l)
  }

  /** Black heights and colours: the flip makes t red, and the rotation repairs a red parent,
      provided the parent's sibling is not red too. */
  lemma ReorientGood(p: Path, t: Tree, h: nat) returns (h': nat)
    requires t.Tree? && Good(Flip(t), h) && PathGood(p, h) && (TopRed(p) ==> !SiblingRed(p.up))
    ensures TopRed(p) ==> !p.up.Top?
    ensures var (p', t') := Reorient(p, t); ZipGood(p', t', h')
  {
    var x := Flip(t);
    assert Good(x.l, h) && Good(x.r, h);
    h' := if p.Top? || TopRed(p) then h + 1 else h;
    if p.Top? {
      PaintedGood(x, h);
    } else if TopRed(p) {
      var g := p.up;
      assert g.c == Black && PathGood(g, h) && PathGood(g.up, h + 1);
      var t' := Reorient(p, t).1;
      assert Good(t'.l, h) && Good(t'.r, h);
    }
  }

  /** All nodes of the whole tree, header included, are distinct. */
  ghost predicate ZipDisjoint(p: Path, t: Tree) {
    PathDisjoint(p) && Disjoint(t) && PathNodes(p) !! Nodes(t)
  }

  ghost function ZipNodes(p: Path, t: Tree): set<Ptr> {
    PathNodes(p) + Nodes(t)
  }

  lemma {:induction false} UpNodes(p: Path, t: Tree)
    requires !p.Top?
    ensures ZipNodes(p.up, Up(p, t)) == ZipNodes(p, t)
    ensures ZipDisjoint(p.up, Up(p, t)) <==> ZipDisjoint(p, t)
  {
  }

  // ----- Rotations on the heap -----

  /** The subtree of t on the side of item. */
  function Side(t: Tree, item: int): Tree
    requires t.Tree?
  {
    if item < t.e then t.l else t.r
  }

  function WithLeft(t: Tree): Tree
    requires t.Tree? && t.l.Tree?
  {
    Tree(t.l.l, t.l.n, t.l.e, t.l.c, Tree(t.l.r, t.n, t.e, t.c, t.r))
  }

  function WithRight(t: Tree): Tree
    requires t.Tree? && t.r.Tree?
  {
    Tree(Tree(t.l, t.n, t.e, t.c, t.r.l), t.r.n, t.r.e, t.r.c, t.r.r)
  }

  /** The shape after the root of t is rotated with its child on the side of item. */
  function RotateToward(t: Tree, item: int): Tree
    requires t.Tree? && Side(t, item).Tree?
  {
    if item < t.e then WithLeft(t) else WithRight(t)
  }

  lemma {:induction false} PaintedNodes(t: Tree, c: Color)
    ensures Nodes(Painted(t, c)) == Nodes(t) && Disjoint(Painted(t, c)) == Disjoint(t)
    ensures Inorder(Painted(t, c)) == Inorder(t)
  {
  }

  /** The whole tree that has t at position p. */
  function Plug(p: Path, t: Tree): Tree {
    if p.Top? then t else Plug(p.up, Up(p, t))
  }

  // ----- The tree in memory -----

  /** The k-th ancestor above a position; beyond the root it is the header. */
  function Ancestor(p: Path, k: nat): Ptr {
    match p
    case Top(h) => h
    case GoLeft(up, n, _, _, _) => if k == 0 then n else Ancestor(up, k - 1)
    case GoRight(up, _, n, _, _) => if k == 0 then n else Ancestor(up, k - 1)
  }

  function Header(p: Path): Ptr {
    if p.Top? then p.header else Header(p.up)
  }

  /** The memory holds the tree that has t at position p. */
  ghost predicate Holds(m: Memory, nul: Ptr, p: Path, t: Tree) {
    ZipDisjoint(p, t) && nul in m && nul !in ZipNodes(p, t) &&
    m[nul].left == nul && m[nul].right == nul && m[nul].color == Black &&
    Rep(m, nul, t) && PathRep(m, nul, p, Root(t, nul))
  }

  lemma {:induction false} HoldsUp(m: Memory, nul: Ptr, p: Path, t: Tree)
    requires !p.Top?
    ensures Holds(m, nul, p, t) <==> Holds(m, nul, p.up, Up(p, t))
  {
    UpNodes(p, t);
  }

  lemma {:induction false} HoldsPlug(m: Memory, nul: Ptr, p: Path, t: Tree)
    ensures Holds(m, nul, p, t) <==> Holds(m, nul, Top(Header(p)), Plug(p, t))
  {
    if !p.Top? {
      HoldsUp(m, nul, p, t);
      HoldsPlug(m, nul, p.up, Up(p, t));
    }
  }

  /** Storing a colour in the root of t. */
  lemma {:induction false} HoldsPainted(m: Memory, nul: Ptr, p: Path, t: Tree, c: Color)
    requires Holds(m, nul, p, t) && (t.Leaf? ==> c == Black)
    ensures Root(t, nul) in m
    ensures var n := Root(t, nul); Holds(m[n := m[n].(color := c)], nul, p, Painted(t, c))
  {
    PaintedNodes(t, c);
    var n := Root(t, nul);
    var m' := m[n := m[n].(color := c)];
    if t.Tree? {
      RepFrame(m, m', nul, t.l);
      RepFrame(m, m', nul, t.r);
      PathFrame(m, m', nul, p, n);
    } else {
      assert m' == m;
    }
  }

  /** The memory after a rotation with the left child. */
  function RotatedWithLeft(m: Memory, k2: Ptr): Memory
    requires k2 in m && m[k2].left in m
  {
    var k1 := m[k2].left;
    var m1 := m[k2 := m[k2].(left := m[k1].right)];
    m1[k1 := m1[k1].(right := k2)]
  }

  function RotatedWithRight(m: Memory, k1: Ptr): Memory
    requires k1 in m && m[k1].right in m
  {
    var k2 := m[k1].right;
    var m1 := m[k1 := m[k1].(right := m[k2].left)];
    m1[k2 := m1[k2].(left := k1)]
  }

  lemma {:induction false} RepWithLeft(m: Memory, nul: Ptr, t: Tree)
    requires t.Tree? && t.l.Tree? && Rep(m, nul, t) && Disjoint(t)
    ensures Rep(m, nul, t.l) && Rep(RotatedWithLeft(m, t.n), nul, WithLeft(t))
    ensures forall n :: n in m && n != t.n && n != t.l.n ==> RotatedWithLeft(m, t.n)[n] == m[n]
  {
    var m' := RotatedWithLeft(m, t.n);
    assert Rep(m, nul, t.l) && Disjoint(t.l);
    RepFrame(m, m', nul, t.l.l);
    RepFrame(m, m', nul, t.l.r);
    RepFrame(m, m', nul, t.r);
    assert Rep(m', nul, WithLeft(t).r);
  }

  lemma {:induction false} RepWithRight(m: Memory, nul: Ptr, t: Tree)
    requires t.Tree? && t.r.Tree? && Rep(m, nul, t) && Disjoint(t)
    ensures Rep(m, nul, t.r) && Rep(RotatedWithRight(m, t.n), nul, WithRight(t))
    ensures forall n :: n in m && n != t.n && n != t.r.n ==> RotatedWithRight(m, t.n)[n] == m[n]
  {
    var m' := RotatedWithRight(m, t.n);
    assert Rep(m, nul, t.r) && Disjoint(t.r);
    RepFrame(m, m', nul, t.r.l);
    RepFrame(m, m', nul, t.r.r);
    RepFrame(m, m', nul, t.l);
    assert Rep(m', nul, WithRight(t).l);
  }

  /** Memory after the innermost ancestor of p is given another child. */
  function Relinked(m: Memory, p: Path, child: Ptr): Memory
    requires Ancestor(p, 0) in m
  {
    var n := Ancestor(p, 0);
    m[n := if p.GoLeft? then m[n].(left := child) else m[n].(right := child)]
  }

  /** Replacing the subtree t at p by u. */
  lemma {:induction false} HoldsRelinked(m: Memory, m1: Memory, nul: Ptr, p: Path, t: Tree, u: Tree)
    requires Holds(m, nul, p, t) && Rep(m1, nul, u) && Disjoint(u) && PathNodes(p) !! Nodes(u) && nul !in Nodes(u)
    requires Agree(m, m1, PathNodes(p)) && nul in m1 && m1[nul] == m[nul]
    ensures Ancestor(p, 0) in m1 && Holds(Relinked(m1, p, Root(u, nul)), nul, p, u)
  {
    var n := Ancestor(p, 0);
    assert n in PathNodes(p);
    PathFrame(m, m1, nul, p, Root(t, nul));
    var m2 := Relinked(m1, p, Root(u, nul));
    RepFrame(m1, m2, nul, u);
    match p
    case Top(_) =>
    case GoLeft(up, _, _, _, r) => RepFrame(m1, m2, nul, r); PathFrame(m1, m2, nul, up, n);
    case GoRight(up, l, _, _, _) => RepFrame(m1, m2, nul, l); PathFrame(m1, m2, nul, up, n);
  }

  // ----- Where the descent stands -----

  predicate TwoRed(t: Tree) {
    t.Tree? && IsRed(t.l) && IsRed(t.r)
  }

  /** The next node below t toward item is real and will not be flipped. */
  predicate CalmToward(t: Tree, item: int) {
    t.Tree? && item != t.e ==> Side(t, item).Tree? && !TwoRed(Side(t, item))
  }

  /** Start: X is the header. Walking: P and GP are the two nearest ancestors. JustRotated: X was just
      rotated up, and P equals X. Below: one step after a rotation, when GP is still stale. */
  datatype Phase = Start | Walking | JustRotated | Below

  ghost predicate Stands(ph: Phase, p: Path, t: Tree, item: int, nul: Ptr, x: Ptr, par: Ptr, gp: Ptr, ggp: Ptr) {
    match ph
    case Start => p.Top? && x == par == gp == p.header
    case Walking =>
      x == Root(t, nul) && par == Ancestor(p, 0) && gp == Ancestor(p, 1) && !TwoRed(t) &&
      (IsRed(t) ==> !SiblingRed(p) || CalmToward(t, item)) &&
      (t.Leaf? && TopRed(p) ==> ggp == Ancestor(p, 2) && !SiblingRed(p.up))
    case JustRotated =>
      t.Tree? && x == par == t.n && !IsRed(t) &&
      (item != t.e ==> IsRed(Side(t, item)) && CalmToward(Side(t, item), item))
    case Below =>
      t.Tree? && x == t.n && par == Ancestor(p, 0) && IsRed(t) && CalmToward(t, item)
  }

  function Size(t: Tree): nat {
    if t.Leaf? then 0 else 1 + Size(t.l) + Size(t.r)
  }

  /** Bounds the remaining steps, although a rotation moves X up again. */
  function Remaining(ph: Phase, t: Tree, item: int): nat {
    match ph
    case Start => 3 * Size(t) + 1
    case Walking => 3 * Size(t)
    case JustRotated =>
      if t.Leaf? || item == t.e then 0
      else var c := Side(t, item);
        if c.Leaf? || item == c.e then 1 else 3 * Size(Side(c, item)) + 2
    case Below => if t.Leaf? || item == t.e then 0 else 3 * Size(Side(t, item)) + 1
  }

  function Down(p: Path, t: Tree, item: int): (Path, Tree)
    requires t.Tree?
  {
    if item < t.e then (GoLeft(p, t.n, t.e, t.c, t.r), t.l) else (GoRight(p, t.l, t.n, t.e, t.c), t.r)
  }

  lemma {:induction false} DownLeads(p: Path, t: Tree, item: int)
    requires t.Tree? && item != t.e && Leads(p, item) && Sorted(Keys(p, t))
    ensures var (p', t') := Down(p, t, item); Leads(p', item) && Keys(p', t') == Keys(p, t)
  {
    var (p', t') := Down(p, t, item);
    UpKeys(p', t');
    if item < t.e {
      StepLeft(Before(p), Inorder(t.l), t.e, Inorder(t.r), After(p), item);
    } else {
      StepRight(Before(p), Inorder(t.l), t.e, Inorder(t.r), After(p), item);
    }
  }

  lemma {:induction false} DownGood(p: Path, t: Tree, item: int, h: nat) returns (h': nat)
    requires t.Tree? && ZipGood(p, t, h)
    ensures var (p', t') := Down(p, t, item); ZipGood(p', t', h') && (TopRed(p') ==> !p'.up.Top?)
  {
    h' := h - Rank(t.c);
  }

  lemma {:induction false} DownHolds(m: Memory, nul: Ptr, p: Path, t: Tree, item: int)
    requires t.Tree? && Holds(m, nul, p, t)
    ensures var (p', t') := Down(p, t, item); Holds(m, nul, p', t')
    ensures t.n in m && m[t.n].element == t.e
    ensures Root(Down(p, t, item).1, nul) == if item < t.e then m[t.n].left else m[t.n].right
  {
    var (p', t') := Down(p, t, item);
    HoldsUp(m, nul, p', t');
  }

  /** A flip with a red parent happens only with fresh ancestors, and then the two steps after the
      rotation are calm. */
  lemma {:induction false} AfterRotation(p: Path, t: Tree, item: int, h: nat)
    requires TwoRed(t) && TopRed(p) && !p.up.Top? && Leads(p, item) && Good(t, h)
    ensures var t' := Reorient(p, t).1;
            !IsRed(t') && (item != t'.e ==> IsRed(Side(t', item)) && CalmToward(Side(t', item), item)) &&
            Remaining(JustRotated, t', item) < 3 * Size(t)
  {
    LeadsUp(p, item);
    LeadsUp(p.up, item);
    assert Good(t.l, h - 1) && Good(t.r, h - 1);
    assert Size(Painted(t.l, Black)) == Size(t.l) && Size(Painted(t.r, Black)) == Size(t.r);
  }

  lemma {:induction false} AfterFlip(t: Tree, item: int, h: nat)
    requires TwoRed(t) && Good(t, h)
    ensures !TwoRed(Flip(t)) && CalmToward(Flip(t), item) && Size(Flip(t)) == Size(t) && Good(Flip(t), h)
  {
    assert Good(t.l, h - 1) && Good(t.r, h - 1);
    assert Size(Painted(t.l, Black)) == Size(t.l) && Size(Painted(t.r, Black)) == Size(t.r);
    PaintedGood(t.l, h - 1);
    PaintedGood(t.r, h - 1);
  }

  // ----- From the position back to the whole tree -----

  lemma {:induction false} PlugKeys(p: Path, t: Tree)
    ensures Inorder(Plug(p, t)) == Keys(p, t)
  {
    if !p.Top? {
      UpKeys(p, t);
      PlugKeys(p.up, Up(p, t));
    }
  }

  lemma {:induction false} PlugGood(p: Path, t: Tree, h: nat) returns (h': nat)
    requires ZipGood(p, t, h)
    ensures Good(Plug(p, t), h') && !IsRed(Plug(p, t))
  {
    if p.Top? {
      h' := h;
    } else {
      h' := PlugGood(p.up, Up(p, t), h + Rank(p.c));
    }
  }

  /** The colour flip in memory. */
  function FlippedMemory(m: Memory, x: Ptr): Memory
    requires x in m && m[x].left in m && m[x].right in m
  {
    var m1 := m[x := m[x].(color := Red)];
    var l := m1[x].left;
    var m2 := m1[l := m1[l].(color := Black)];
    var r := m2[x].right;
    m2[r := m2[r].(color := Black)]
  }

  lemma {:induction false} FlippedHolds(m: Memory, nul: Ptr, p: Path, t: Tree)
    requires t.Tree? && Holds(m, nul, p, t)
    ensures t.n in m && m[t.n].left in m && m[t.n].right in m
    ensures Holds(FlippedMemory(m, t.n), nul, p, Flip(t)) && FlippedMemory(m, t.n)[nul] == m[nul]
  {
    assert Rep(m, nul, t.l) && Rep(m, nul, t.r);
    HoldsPainted(m, nul, p, t, Red);
    var m1 := m[t.n := m[t.n].(color := Red)];
    var pl := GoLeft(p, t.n, t.e, Red, t.r);
    HoldsUp(m1, nul, pl, t.l);
    HoldsPainted(m1, nul, pl, t.l, Black);
    var l := Root(t.l, nul);
    var m2 := m1[l := m1[l].(color := Black)];
    var l' := Painted(t.l, Black);
    HoldsUp(m2, nul, pl, l');
    var pr := GoRight(p, l', t.n, t.e, Red);
    HoldsUp(m2, nul, pr, t.r);
    HoldsPainted(m2, nul, pr, t.r, Black);
    var r := Root(t.r, nul);
    HoldsUp(m2[r := m2[r].(color := Black)], nul, pr, Painted(t.r, Black));
  }

  function NextPhase(ph: Phase): Phase {
    if ph.JustRotated? then Below else Walking
  }

  /** The position after one step down; the header has the whole tree on its right. */
  function Next(ph: Phase, p: Path, t: Tree, item: int): (Path, Tree)
    requires !ph.Start? ==> t.Tree?
  {
    if ph.Start? then (p, t) else Down(p, t, item)
  }

  /** A step that does not meet two red children leaves the pointers as the next phase wants them. */
  lemma {:induction false} StandsNext(ph: Phase, p: Path, t: Tree, item: int, h: nat, nul: Ptr,
                                      x: Ptr, par: Ptr, gp: Ptr, ggp: Ptr)
    requires Stands(ph, p, t, item, nul, x, par, gp, ggp) && ZipGood(p, t, h)
    requires !ph.Start? ==> t.Tree? && item != t.e
    requires !TwoRed(Next(ph, p, t, item).1)
    ensures var (p', t') := Next(ph, p, t, item);
            Stands(NextPhase(ph), p', t', item, nul, Root(t', nul), x, par, gp) &&
            Remaining(NextPhase(ph), t', item) < Remaining(ph, t, item)
  {
  }

  /** A step that meets two red children happens only while the ancestors are fresh, and a red
      parent then has no red sibling: the stale GP and GGP left by a rotation are never used. */
  lemma {:induction false} FreshWhenFlipping(ph: Phase, p: Path, t: Tree, item: int, h: nat, nul: Ptr,
                                             x: Ptr, par: Ptr, gp: Ptr, ggp: Ptr)
    requires Stands(ph, p, t, item, nul, x, par, gp, ggp) && ZipGood(p, t, h)
    requires !ph.Start? ==> t.Tree? && item != t.e
    requires TwoRed(Next(ph, p, t, item).1)
    ensures ph.Start? || ph.Walking?
    ensures var (p', t') := Next(ph, p, t, item);
            x == Ancestor(p', 0) && 3 * Size(t') < Remaining(ph, t, item) &&
            (TopRed(p') ==> !p'.up.Top? && !SiblingRed(p'.up) && par == Ancestor(p', 1) && gp == Ancestor(p', 2))
    ensures par == Ancestor(Next(ph, p, t, item).0, 1)
  {
    if t.Tree? { assert Good(t.l, h - Rank(t.c)) && Good(t.r, h - Rank(t.c)); }
  }

  lemma {:induction false} StandsReoriented(p: Path, t: Tree, item: int, h: nat, nul: Ptr, par: Ptr, gp: Ptr, ggp: Ptr)
    requires TwoRed(t) && Good(t, h) && Leads(p, item) && (TopRed(p) ==> !p.up.Top?)
    requires par == Ancestor(p, 0) && gp == Ancestor(p, 1)
    ensures var (p', t') := Reorient(p, t);
            var ph := if TopRed(p) then JustRotated else Walking;
            Stands(ph, p', t', item, nul, t'.n, if TopRed(p) then t'.n else par, gp, ggp) &&
            Remaining(ph, t', item) <= 3 * Size(t)
  {
    if TopRed(p) { AfterRotation(p, t, item, h); } else { AfterFlip(t, item, h); }
  }

  /** Everything about the position that does not concern the four pointers. */
  ghost predicate Searching(m: Memory, nul: Ptr, header: Ptr, p: Path, t: Tree, item: int, h: nat) {
    Holds(m, nul, p, t) && Header(p) == header && Leads(p, item) && Sorted(Keys(p, t)) && ZipGood(p, t, h) &&
    m[nul].element == item > NEG_INFINITY
  }

  lemma {:induction false} SearchingNext(m: Memory, nul: Ptr, header: Ptr, ph: Phase, p: Path, t: Tree, item: int,
      h: nat, x: Ptr, par: Ptr, gp: Ptr, ggp: Ptr) returns (h': nat)
    requires Searching(m, nul, header, p, t, item, h) && Stands(ph, p, t, item, nul, x, par, gp, ggp)
    requires x in m ==> m[x].element != item
    ensures x in m && (!ph.Start? ==> t.Tree? && item != t.e)
    ensures var (p', t') := Next(ph, p, t, item);
            Searching(m, nul, header, p', t', item, h') && Keys(p', t') == Keys(p, t) &&
            Root(t', nul) == if item < m[x].element then m[x].left else m[x].right
  {
    if ph.Start? {
      h' := h;
    } else {
      DownLeads(p, t, item);
      h' := DownGood(p, t, item, h);
      DownHolds(m, nul, p, t, item);
    }
  }

  /** One step down, as far as the shapes go. */
  lemma {:induction false} Stepped(m: Memory, nul: Ptr, header: Ptr, ph: Phase, p: Path, t: Tree, item: int, h: nat,
                                   x: Ptr, par: Ptr, gp: Ptr, ggp: Ptr) returns (p': Path, t': Tree, h': nat)
    requires Searching(m, nul, header, p, t, item, h) && Stands(ph, p, t, item, nul, x, par, gp, ggp)
    requires x in m ==> m[x].element != item
    ensures x in m && Searching(m, nul, header, p', t', item, h') && Keys(p', t') == Keys(p, t)
    ensures Root(t', nul) == if item < m[x].element then m[x].left else m[x].right
    ensures !TwoRed(t') ==> Stands(NextPhase(ph), p', t', item, nul, Root(t', nul), x, par, gp) &&
                            Remaining(NextPhase(ph), t', item) < Remaining(ph, t, item)
    ensures TwoRed(t') ==> 3 * Size(t') < Remaining(ph, t, item) && x == Ancestor(p', 0) && par == Ancestor(p', 1)
    ensures TwoRed(t') && TopRed(p') ==> !p'.up.Top? && !SiblingRed(p'.up) && gp == Ancestor(p', 2)
  {
    h' := SearchingNext(m, nul, header, ph, p, t, item, h, x, par, gp, ggp);
    p', t' := Next(ph, p, t, item).0, Next(ph, p, t, item).1;
    if TwoRed(t') {
      FreshWhenFlipping(ph, p, t, item, h, nul, x, par, gp, ggp);
    } else {
      StandsNext(ph, p, t, item, h, nul, x, par, gp, ggp);
    }
  }

  lemma {:induction false} SearchingReoriented(m: Memory, nul: Ptr, header: Ptr, p: Path, t: Tree, item: int, h: nat,
                                               m': Memory) returns (h': nat)
    requires Searching(m, nul, header, p, t, item, h) && t.Tree? && Good(Flip(t), h)
    requires TopRed(p) ==> !p.up.Top? && !SiblingRed(p.up)
    requires nul in m' && m'[nul] == m[nul] && Holds(m', nul, Reorient(p, t).0, Reorient(p, t).1)
    ensures var (p', t') := Reorient(p, t); Searching(m', nul, header, p', t', item, h') && Keys(p', t') == Keys(p, t)
  {
    ReorientKeys(p, t);
    ReorientLeads(p, t, item);
    h' := ReorientGood(p, t, h);
    if TopRed(p) { assert Header(p) == Header(p.up) == Header(p.up.up); }
  }

  class RedBlackTree {
    const nul: Ptr
    const T: Ptr
    var mem: Memory
    var next: Ptr     // every address below it may be in use
    var X: Ptr
    var P: Ptr
    var GP: Ptr
    var GGP: Ptr
    ghost var tree: Tree

    ghost predicate Valid()
      reads this
    {
      Holds(mem, nul, Top(T), tree) && Sorted(Inorder(tree)) && !IsRed(tree) && (exists h :: Good(tree, h)) &&
      (forall n :: n in mem ==> n < next) && (forall e :: e in Inorder(tree) ==> e > NEG_INFINITY)
    }

    ghost function Elements(): set<int>
      reads this
    {
      set e | e in Inorder(tree)
    }

    constructor ()
      ensures Valid() && tree == Leaf
    {
      nul, T, next := 0, 1, 2;
      mem := map[0 := Node(12345, 0, 0, Black), 1 := Node(NEG_INFINITY, 0, 0, Black)];
      X, P, GP, GGP := 1, 1, 1, 1;
      tree := Leaf;
      new;
      assert Good(tree, 0);
    }

    /** This can be called only if k2 has a left child. */
    method SingleRotateWithLeft(k2: Ptr, ghost t: Tree) returns (k1: Ptr)
      requires t.Tree? && t.l.Tree? && k2 == t.n && Rep(mem, nul, t) && Disjoint(t)
      modifies this`mem
      ensures Rep(mem, nul, WithLeft(t)) && k1 == t.l.n && Inorder(WithLeft(t)) == Inorder(t)
      ensures mem.Keys == old(mem.Keys) && forall n :: n in mem && n != t.n && n != t.l.n ==> mem[n] == old(mem[n])
      ensures mem == RotatedWithLeft(old(mem), k2)
    {
      RepWithLeft(mem, nul, t);
      Rotation(t, WithLeft(t));
      k1 := mem[k2].left;
      mem := mem[k2 := mem[k2].(left := mem[k1].right)];
      mem := mem[k1 := mem[k1].(right := k2)];
    }

    /** This can be called only if k1 has a right child. */
    method SingleRotateWithRight(k1: Ptr, ghost t: Tree) returns (k2: Ptr)
      requires t.Tree? && t.r.Tree? && k1 == t.n && Rep(mem, nul, t) && Disjoint(t)
      modifies this`mem
      ensures Rep(mem, nul, WithRight(t)) && k2 == t.r.n && Inorder(WithRight(t)) == Inorder(t)
      ensures mem.Keys == old(mem.Keys) && forall n :: n in mem && n != t.n && n != t.r.n ==> mem[n] == old(mem[n])
      ensures mem == RotatedWithRight(old(mem), k1)
    {
      RepWithRight(mem, nul, t);
      Rotation(WithRight(t), t);
      k2 := mem[k1].right;
      mem := mem[k1 := mem[k1].(right := mem[k2].left)];
      mem := mem[k2 := mem[k2].(left := k1)];
    }

    /** Rotates the child of parent on the side of item with its own child on the side of item;
        the child is t, at the position p below parent. */
    method Rotate(item: int, parent: Ptr, ghost p: Path, ghost t: Tree) returns (top: Ptr)
      requires Holds(mem, nul, p, t) && parent == Ancestor(p, 0) && Leads(p, item) && item > NEG_INFINITY
      requires t.Tree? && Side(t, item).Tree?
      modifies this`mem
      ensures Holds(mem, nul, p, RotateToward(t, item)) && top == RotateToward(t, item).n
      ensures mem[nul] == old(mem[nul]) && mem.Keys == old(mem.Keys)
    {
      if !p.Top? { LeadsUp(p, item); }
      HoldsRotated(mem, nul, p, t, item);
      if item < mem[parent].element {
        var child := mem[parent].left;
        if item < mem[child].element {
          top := SingleRotateWithLeft(child, t);
        } else {
          top := SingleRotateWithRight(child, t);
        }
        mem := mem[parent := mem[parent].(left := top)];
      } else {
        var child := mem[parent].right;
        if item < mem[child].element {
          top := SingleRotateWithLeft(child, t);
        } else {
          top := SingleRotateWithRight(child, t);
        }
        mem := mem[parent := mem[parent].(right := top)];
      }
    }

    /** Paints GP red and starts a double rotation where the path zig-zags. */
    method StartDouble(item: int, ghost p: Path, ghost t: Tree)
      requires t.Tree? && Holds(mem, nul, p, Flip(t)) && Leads(p, item) && item > NEG_INFINITY
      requires TopRed(p) && !p.up.Top? && P == Ancestor(p, 0) && GP == Ancestor(p, 1)
      modifies this`P, this`mem
      ensures p.GoLeft? <==> item < p.e
      ensures Holds(mem, nul, p.up.up, BelowGGP(p, t, item)) && P == Reorient(p, t).1.n
      ensures mem[nul] == old(mem[nul]) && mem.Keys == old(mem.Keys)
    {
      ghost var q, y := p.up.(c := Red), Up(p, Flip(t));
      AboveRotation(mem, nul, p, Flip(t), item);
      mem := mem[GP := mem[GP].(color := Red)];
      if (item < mem[GP].element) != (item < mem[P].element) {
        P := Rotate(item, GP, q, y);
        y := RotateToward(y, item);
      }
      HoldsUp(mem, nul, q, y);
    }

    /** The rotations below a red parent. */
    method RotateUp(item: int, ghost p: Path, ghost t: Tree)
      requires t.Tree? && Holds(mem, nul, p, Flip(t)) && Leads(p, item) && item > NEG_INFINITY
      requires TopRed(p) && !p.up.Top? && P == Ancestor(p, 0) && GP == Ancestor(p, 1) && GGP == Ancestor(p, 2)
      modifies this`X, this`P, this`mem
      ensures Holds(mem, nul, p.up.up, Reorient(p, t).1) && X == P == Reorient(p, t).1.n
      ensures mem[nul] == old(mem[nul]) && mem.Keys == old(mem.Keys)
    {
      LeadsUp(p, item);
      LeadsUp(p.up, item);
      RotationsMakeReorient(p, t, item);
      StartDouble(item, p, t);
      FinishRotate(item, p.up.up, BelowGGP(p, t, item));
    }

    /** Rotates below GGP and paints the new top black. */
    method FinishRotate(item: int, ghost p: Path, ghost t: Tree)
      requires Holds(mem, nul, p, t) && GGP == Ancestor(p, 0) && Leads(p, item) && item > NEG_INFINITY
      requires t.Tree? && Side(t, item).Tree?
      modifies this`X, this`mem
      ensures Holds(mem, nul, p, Painted(RotateToward(t, item), Black)) && X == RotateToward(t, item).n
      ensures mem[nul] == old(mem[nul]) && mem.Keys == old(mem.Keys)
    {
      X := Rotate(item, GGP, p, t);
      HoldsPainted(mem, nul, p, RotateToward(t, item), Black);
      mem := mem[X := mem[X].(color := Black)];
    }

    /** The colour flip at X. */
    method FlipColors(ghost p: Path, ghost t: Tree)
      requires t.Tree? && Holds(mem, nul, p, t) && X == t.n
      modifies this`mem
      ensures Holds(mem, nul, p, Flip(t)) && mem[nul] == old(mem[nul]) && mem.Keys == old(mem.Keys)
    {
      FlippedHolds(mem, nul, p, t);
      mem := mem[X := mem[X].(color := Red)];
      mem := mem[mem[X].left := mem[mem[X].left].(color := Black)];
      mem := mem[mem[X].right := mem[mem[X].right].(color := Black)];
    }

    /** Flips colours at X and, if its parent is red, rotates; p and t say where X is. */
    method HandleReorient(item: int, ghost p: Path, ghost t: Tree, ghost h: nat)
      requires t.Tree? && Holds(mem, nul, p, t) && Header(p) == T && Leads(p, item) && item > NEG_INFINITY
      requires Good(Flip(t), h) && PathGood(p, h) && (TopRed(p) ==> !SiblingRed(p.up))
      requires X == t.n && P == Ancestor(p, 0)
      requires TopRed(p) ==> !p.up.Top? && GP == Ancestor(p, 1) && GGP == Ancestor(p, 2)
      modifies this`X, this`P, this`mem
      ensures Holds(mem, nul, Reorient(p, t).0, Reorient(p, t).1)
      ensures mem[nul] == old(mem[nul]) && mem.Keys == old(mem.Keys)
      ensures if TopRed(p) then X == P == Reorient(p, t).1.n else X == old(X) && P == old(P)
    {
      FlipColors(p, t);
      ghost var h' := ReorientGood(p, t, h);
      ghost var p', t' := p, Flip(t);
      if mem[P].color == Red {
        RotateUp(item, p, t);
        p', t' := p.up.up, Reorient(p, t).1;
      }
      PaintRoot(p', t', h');
    }

    method PaintRoot(ghost p: Path, ghost t: Tree, ghost h: nat)
      requires t.Tree? && Holds(mem, nul, p, t) && Header(p) == T && (!p.Top? ==> PathGood(p, h))
      modifies this`mem
      ensures Holds(mem, nul, p, if p.Top? then Painted(t, Black) else t)
      ensures mem[nul] == old(mem[nul]) && mem.Keys == old(mem.Keys)
    {
      RootPainted(mem, nul, p, t, h);
      mem := mem[mem[T].right := mem[mem[T].right].(color := Black)];
    }

    /** One turn of the descent. */
    method Descend(item: int, ghost ph: Phase, ghost p: Path, ghost t: Tree, ghost h: nat)
      returns (ghost ph': Phase, ghost p': Path, ghost t': Tree, ghost h': nat)
      requires Searching(mem, nul, T, p, t, item, h) && Stands(ph, p, t, item, nul, X, P, GP, GGP)
      requires X in mem ==> mem[X].element != item
      modifies this`X, this`P, this`GP, this`GGP, this`mem
      ensures Searching(mem, nul, T, p', t', item, h') && Stands(ph', p', t', item, nul, X, P, GP, GGP)
      ensures Keys(p', t') == Keys(p, t) && Remaining(ph', t', item) < Remaining(ph, t, item)
      ensures mem.Keys == old(mem.Keys) && !ph'.Start? && X in mem
    {
      ph' := NextPhase(ph);
      p', t', h' := StepDown(item, ph, p, t, h);
      ChildColors(mem, nul, p', t');
      if mem[mem[X].left].color == Red && mem[mem[X].right].color == Red {
        ph', p', t', h' := Flipping(item, p', t', h');
      }
    }

    /** Shifts the ancestors and moves X to the side of item. */
    method StepDown(item: int, ghost ph: Phase, ghost p: Path, ghost t: Tree, ghost h: nat)
      returns (ghost p': Path, ghost t': Tree, ghost h': nat)
      requires Searching(mem, nul, T, p, t, item, h) && Stands(ph, p, t, item, nul, X, P, GP, GGP)
      requires X in mem ==> mem[X].element != item
      modifies this`X, this`P, this`GP, this`GGP
      ensures Searching(mem, nul, T, p', t', item, h') && Keys(p', t') == Keys(p, t) && X == Root(t', nul)
      ensures !TwoRed(t') ==> Stands(NextPhase(ph), p', t', item, nul, X, P, GP, GGP) &&
                              Remaining(NextPhase(ph), t', item) < Remaining(ph, t, item)
      ensures TwoRed(t') ==> 3 * Size(t') < Remaining(ph, t, item) && P == Ancestor(p', 0) && GP == Ancestor(p', 1)
      ensures TwoRed(t') && TopRed(p') ==> !p'.up.Top? && !SiblingRed(p'.up) && GGP == Ancestor(p', 2)
    {
      p', t', h' := Stepped(mem, nul, T, ph, p, t, item, h, X, P, GP, GGP);
      GGP, GP, P := GP, P, X;
      if item < mem[X].element {
        X := mem[X].left;
      } else {
        X := mem[X].right;
      }
    }

    method Flipping(item: int, ghost p: Path, ghost t: Tree, ghost h: nat)
      returns (ghost ph': Phase, ghost p': Path, ghost t': Tree, ghost h': nat)
      requires Searching(mem, nul, T, p, t, item, h) && TwoRed(t) && X == t.n
      requires P == Ancestor(p, 0) && GP == Ancestor(p, 1)
      requires TopRed(p) ==> !p.up.Top? && !SiblingRed(p.up) && GGP == Ancestor(p, 2)
      modifies this`X, this`P, this`mem
      ensures Searching(mem, nul, T, p', t', item, h') && Stands(ph', p', t', item, nul, X, P, GP, GGP)
      ensures Keys(p', t') == Keys(p, t) && Remaining(ph', t', item) <= 3 * Size(t)
      ensures mem.Keys == old(mem.Keys) && !ph'.Start? && X in mem
    {
      ghost var m := mem;
      AfterFlip(t, item, h);
      StandsReoriented(p, t, item, h, nul, P, GP, GGP);
      HandleReorient(item, p, t, h);
      p', t' := Reorient(p, t).0, Reorient(p, t).1;
      ph' := if TopRed(p) then JustRotated else Walking;
      h' := SearchingReoriented(m, nul, T, p, t, item, h, mem);
    }

    /** The node below n that holds x, or the sentinel; t is the subtree at n. */
    method Find(x: int, n: Ptr, ghost t: Tree) returns (r: Ptr)
      requires nul in mem && Rep(mem, nul, t) && n == Root(t, nul) && Sorted(Inorder(t))
      ensures r == nul <==> x !in Inorder(t)
      ensures r != nul ==> r in Nodes(t) && r in mem && mem[r].element == x
      decreases t
    {
      if n == nul { return nul; }
      SortedSides(t);
      if x < mem[n].element {
        r := Find(x, mem[n].left, t.l);
      } else if x > mem[n].element {
        r := Find(x, mem[n].right, t.r);
      } else {
        return n;
      }
    }

    /** Find as callers use it, from the header, which answers for its own key. */
    method FindFromHeader(x: int) returns (r: Ptr)
      requires Valid()
      ensures r == nul <==> x !in Elements() && x != NEG_INFINITY
      ensures r != nul ==> r in mem && mem[r].element == x
    {
      ghost var t := Tree(Leaf, T, NEG_INFINITY, Black, tree);
      assert Inorder(t) == [NEG_INFINITY] + Inorder(tree);
      assert forall i :: 0 <= i < |Inorder(tree)| ==> Inorder(tree)[i] in Inorder(tree);
      r := Find(x, T, t);
    }

    /** Takes the tree around the position as the new tree. */
    ghost method Settle(p: Path, t: Tree, h: nat)
      requires Holds(mem, nul, p, t) && Header(p) == T && Sorted(Keys(p, t)) && ZipGood(p, t, h)
      requires (forall n :: n in mem ==> n < next) && (forall e :: e in Keys(p, t) ==> e > NEG_INFINITY)
      modifies this`tree
      ensures Valid() && Inorder(tree) == Keys(p, t)
    {
      tree := Plug(p, t);
      PlugKeys(p, t);
      var h' := PlugGood(p, t, h);
      HoldsPlug(mem, nul, p, t);
    }

    /** Hangs a new node below P, where the search for item ended. */
    method Attach(item: int, ghost p: Path) returns (ghost t: Tree)
      requires Holds(mem, nul, p, Leaf) && Leads(p, item) && item > NEG_INFINITY && P == Ancestor(p, 0)
      requires forall n :: n in mem ==> n < next
      modifies this`X, this`next, this`mem
      ensures t.Tree? && t == Tree(Leaf, X, item, t.c, Leaf) && Holds(mem, nul, p, t)
      ensures mem[nul] == old(mem[nul])
      ensures forall n :: n in mem ==> n < next
    {
      ghost var m := mem;
      X := next;
      next := next + 1;
      var c: Color :| true;   // fresh memory holds any colour
      mem := mem[X := Node(item, nul, nul, c)];
      t := Tree(Leaf, X, item, c, Leaf);
      PathInMemory(m, nul, p, nul);
      HoldsRelinked(m, mem, nul, p, Leaf, t);
      if !p.Top? { LeadsUp(p, item); }
      if item < mem[P].element {
        mem := mem[P := mem[P].(left := X)];
      } else {
        mem := mem[P := mem[P].(right := X)];
      }
    }

    /** Walks down to item or to the missing child where it belongs. */
    method Search(item: int) returns (ghost p: Path, ghost t: Tree, ghost h: nat)
      requires Valid() && item > NEG_INFINITY
      modifies this`X, this`P, this`GP, this`GGP, this`mem
      ensures Searching(mem, nul, T, p, t, item, h) && mem.Keys == old(mem.Keys)
      ensures Keys(p, t) == Inorder(tree) && X == Root(t, nul) && (t.Tree? ==> t.e == item)
      ensures t.Leaf? ==> Stands(Walking, p, t, item, nul, X, P, GP, GGP)
    {
      ghost var ph := Start;
      p, t := Top(T), tree;
      h :| Good(tree, h);
      X, P, GP := T, T, T;
      SentinelWritten(mem, nul, p, t, item);
      mem := mem[nul := mem[nul].(element := item)];
      while mem[X].element != item
        invariant Searching(mem, nul, T, p, t, item, h) && Stands(ph, p, t, item, nul, X, P, GP, GGP)
        invariant X in mem && Keys(p, t) == Inorder(tree) && mem.Keys == old(mem.Keys)
        decreases Remaining(ph, t, item)
      {
        ph, p, t, h := Descend(item, ph, p, t, h);
      }
    }

    /** Adds item; gives back the sentinel for a duplicate and the header otherwise. */
    method Insert(item: int) returns (r: Ptr)
      requires Valid() && item > NEG_INFINITY
      modifies this
      ensures Valid() && Elements() == old(Elements()) + {item}
      ensures r == if item in old(Elements()) then nul else T
    {
      ghost var p, t, h := Search(item);
      if X != nul {
        FoundHere(p, t);
        Settle(p, t, h);
        return nul;
      }
      AddHere(item, p, h);
      return T;
    }

    /** Adds item at the missing child below P. */
    method AddHere(item: int, ghost p: Path, ghost h: nat)
      requires Searching(mem, nul, T, p, Leaf, item, h) && Stands(Walking, p, Leaf, item, nul, nul, P, GP, GGP)
      requires (forall n :: n in mem ==> n < next) && (forall e :: e in Keys(p, Leaf) ==> e > NEG_INFINITY)
      modifies this
      ensures Valid() && item !in Keys(p, Leaf)
      ensures forall e :: e in Inorder(tree) <==> e in Keys(p, Leaf) || e == item
    {
      ghost var u := Attach(item, p);
      NewHere(p, u, item);
      Recolor(item, p, u);
    }

    /** Colours the new node red, rotating if its parent is red. */
    method Recolor(item: int, ghost p: Path, ghost u: Tree)
      requires Holds(mem, nul, p, u) && Header(p) == T && Leads(p, item) && item > NEG_INFINITY
      requires u.Tree? && u == Tree(Leaf, X, item, u.c, Leaf) && Sorted(Keys(p, u)) && PathGood(p, 0)
      requires Stands(Walking, p, Leaf, item, nul, nul, P, GP, GGP)
      requires (forall n :: n in mem ==> n < next) && (forall e :: e in Keys(p, u) ==> e > NEG_INFINITY)
      modifies this`X, this`P, this`mem, this`tree
      ensures Valid() && Inorder(tree) == Keys(p, u)
    {
      assert Good(Flip(u), 0);
      ReorientKeys(p, u);
      ghost var h' := ReorientGood(p, u, 0);
      HandleReorient(item, p, u, 0);
      if TopRed(p) { assert Header(p) == Header(p.up) == Header(p.up.up); }
      Settle(Reorient(p, u).0, Reorient(p, u).1, h');
    }
  }

  lemma {:induction false} SortedSides(t: Tree)
    requires t.Tree? && Sorted(Inorder(t))
    ensures Sorted(Inorder(t.l)) && Sorted(Inorder(t.r))
    ensures forall e :: e in Inorder(t) <==> e in Inorder(t.l) || e == t.e || e in Inorder(t.r)
    ensures (forall e :: e in Inorder(t.l) ==> e < t.e) && (forall e :: e in Inorder(t.r) ==> t.e < e)
  {
    SortedAround(Inorder(t.l), t.e, Inorder(t.r));
  }

  lemma {:induction false} RepInMemory(m: Memory, nul: Ptr, t: Tree)
    requires Rep(m, nul, t)
    ensures Nodes(t) <= m.Keys
  {
    if t.Tree? {
      RepInMemory(m, nul, t.l);
      RepInMemory(m, nul, t.r);
    }
  }

  lemma {:induction false} PathInMemory(m: Memory, nul: Ptr, p: Path, child: Ptr)
    requires PathRep(m, nul, p, child)
    ensures PathNodes(p) <= m.Keys
  {
    match p
    case Top(_) =>
    case GoLeft(up, n, _, _, r) => RepInMemory(m, nul, r); PathInMemory(m, nul, up, n);
    case GoRight(up, l, n, _, _) => RepInMemory(m, nul, l); PathInMemory(m, nul, up, n);
  }

  lemma {:induction false} SentinelWritten(m: Memory, nul: Ptr, p: Path, t: Tree, item: int)
    requires Holds(m, nul, p, t)
    ensures Holds(m[nul := m[nul].(element := item)], nul, p, t)
  {
    var m' := m[nul := m[nul].(element := item)];
    RepFrame(m, m', nul, t);
    PathFrame(m, m', nul, p, Root(t, nul));
  }

  lemma {:induction false} FoundHere(p: Path, t: Tree)
    requires t.Tree?
    ensures t.e in Keys(p, t)
  {
    assert Inorder(t)[|Inorder(t.l)|] == t.e;
    assert Keys(p, t)[|Before(p)| + |Inorder(t.l)|] == t.e;
  }

  /** The search ended at a missing child: item is new, and belongs exactly here. */
  lemma {:induction false} NewHere(p: Path, u: Tree, item: int)
    requires u.Tree? && u.l.Leaf? && u.r.Leaf? && u.e == item && Leads(p, item) && Sorted(Keys(p, Leaf))
    ensures item !in Keys(p, Leaf) && Sorted(Keys(p, u))
    ensures forall e :: e in Keys(p, u) <==> e in Keys(p, Leaf) || e == item
  {
    var b, a := Before(p), After(p);
    assert Keys(p, Leaf) == b + a;
    SortedHalves(b, a);
    SortedAround(b, item, a);
    assert Keys(p, u) == b + [item] + a;
  }

  lemma {:induction false} ChildColors(m: Memory, nul: Ptr, p: Path, t: Tree)
    requires Holds(m, nul, p, t)
    ensures Root(t, nul) in m && m[Root(t, nul)].left in m && m[Root(t, nul)].right in m
    ensures var n := m[Root(t, nul)]; TwoRed(t) <==> m[n.left].color == Red && m[n.right].color == Red
  {
    if t.Tree? { assert Rep(m, nul, t.l) && Rep(m, nul, t.r); }
  }

  /** The second rotation acts below GGP, after a first one below GP for a zig-zag. */
  function BelowGGP(p: Path, t: Tree, item: int): Tree
    requires t.Tree? && TopRed(p) && !p.up.Top? && (p.GoLeft? <==> item < p.e)
  {
    var y := Up(p, Flip(t));
    Up(p.up.(c := Red), if p.GoLeft? == p.up.GoLeft? then y else RotateToward(y, item))
  }

  lemma {:induction false} RotationsMakeReorient(p: Path, t: Tree, item: int)
    requires t.Tree? && TopRed(p) && !p.up.Top?
    requires (p.GoLeft? <==> item < p.e) && (p.up.GoLeft? <==> item < p.up.e)
    ensures var u := BelowGGP(p, t, item);
            Side(u, item).Tree? && Painted(RotateToward(u, item), Black) == Reorient(p, t).1
  {
  }

  /** Before the rotations: the grandparent is painted red, and everything is seen from there. */
  lemma {:induction false} AboveRotation(m: Memory, nul: Ptr, p: Path, x: Tree, item: int)
    requires x.Tree? && Holds(m, nul, p, x) && Leads(p, item) && TopRed(p) && !p.up.Top?
    ensures p.n in m && p.up.n in m && m[p.n].element == p.e && m[p.up.n].element == p.up.e
    ensures Holds(m[p.up.n := m[p.up.n].(color := Red)], nul, p.up.(c := Red), Up(p, x))
    ensures Leads(p.up.(c := Red), item) && Leads(p.up.up, item)
    ensures (p.GoLeft? <==> item < p.e) && (p.up.GoLeft? <==> item < p.up.e)
  {
    var g, y := p.up, Up(p, x);
    HoldsUp(m, nul, p, x);
    HoldsUp(m, nul, g, y);
    HoldsPainted(m, nul, g.up, Up(g, y), Red);
    LeadsUp(p, item);
    LeadsUp(g, item);
    var q := g.(c := Red);
    HoldsUp(m[g.n := m[g.n].(color := Red)], nul, q, y);
    assert Before(q) == Before(g) && After(q) == After(g);
  }

  /** Painting the root black changes nothing but the colour of a subtree that is the root. */
  lemma {:induction false} RootPainted(m: Memory, nul: Ptr, p: Path, t: Tree, h: nat)
    requires t.Tree? && Holds(m, nul, p, t) && (!p.Top? ==> PathGood(p, h))
    ensures Header(p) in m && m[Header(p)].right in m && m[Header(p)].right != nul
    ensures var n := m[Header(p)].right;
            Holds(m[n := m[n].(color := Black)], nul, p, if p.Top? then Painted(t, Black) else t)
  {
    RootBlackAlready(p, t, h);
    HoldsPlug(m, nul, p, t);
    var top, whole := Top(Header(p)), Plug(p, t);
    HoldsPainted(m, nul, top, whole, Black);
    var n := Root(whole, nul);
    HoldsPlug(m[n := m[n].(color := Black)], nul, p, if p.Top? then Painted(t, Black) else t);
  }

  lemma {:induction false} RootBlackAlready(p: Path, t: Tree, h: nat)
    requires !p.Top? ==> PathGood(p, h)
    ensures !p.Top? ==> Plug(p, t).Tree? && Plug(p, t).c == Black
  {
    if !p.Top? { RootBlackAlready(p.up, Up(p, t), h + Rank(p.c)); }
  }

  lemma {:induction false} HoldsRotated(m: Memory, nul: Ptr, p: Path, t: Tree, item: int)
    requires Holds(m, nul, p, t) && t.Tree? && Side(t, item).Tree?
    ensures Rep(m, nul, Side(t, item)) && Ancestor(p, 0) in m
    ensures var m' := if item < t.e then RotatedWithLeft(m, t.n) else RotatedWithRight(m, t.n);
            var u := RotateToward(t, item);
            Ancestor(p, 0) in m' && Holds(Relinked(m', p, u.n), nul, p, u) &&
            Relinked(m', p, u.n)[nul] == m[nul] && Relinked(m', p, u.n).Keys == m.Keys
  {
    var u := RotateToward(t, item);
    assert Rep(m, nul, Side(t, item));
    var m' := if item < t.e then RotatedWithLeft(m, t.n) else RotatedWithRight(m, t.n);
    if item < t.e {
      Rotation(t, u);
      RepWithLeft(m, nul, t);
    } else {
      Rotation(u, t);
      RepWithRight(m, nul, t);
    }
    assert t.n in Nodes(t) && Side(t, item).n in Nodes(Side(t, item)) && Side(t, item).n in Nodes(t);
    HoldsRelinked(m, m', nul, p, t, u);
    assert Ancestor(p, 0) in PathNodes(p);
  }
}
