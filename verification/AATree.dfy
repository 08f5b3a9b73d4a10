/** AA-trees with sentinel and static deletion pointers, DSAAC/aatree.c. */
module AATree {
  import opened Basics

  datatype Node = Node(element: int, left: Ptr, right: Ptr, level: int)

  type Memory = map<Ptr, Node>

  // ----- Shapes -----

  datatype Tree = Leaf | Tree(l: Tree, n: Ptr, e: int, lv: int, r: Tree)

  function Lev(t: Tree): int {
    if t.Leaf? then 0 else t.lv
  }

  ghost function Elems(t: Tree): set<int> {
    if t.Leaf? then {} else Elems(t.l) + {t.e} + Elems(t.r)
  }

  ghost function Nodes(t: Tree): set<Ptr> {
    if t.Leaf? then {} else Nodes(t.l) + {t.n} + Nodes(t.r)
  }

  /** Search order, and every node occurs once. */
  ghost predicate Ordered(t: Tree) {
    t.Tree? ==>
      Ordered(t.l) && Ordered(t.r) &&
      (forall x :: x in Elems(t.l) ==> x < t.e) && (forall x :: x in Elems(t.r) ==> t.e < x)
  }

  ghost predicate Disjoint(t: Tree) {
    t.Tree? ==>
      Disjoint(t.l) && Disjoint(t.r) && Nodes(t.l) !! Nodes(t.r) && t.n !in Nodes(t.l) + Nodes(t.r)
  }

  /** The right child is on a lower level. */
  predicate NoRightLink(t: Tree) {
    t.Tree? ==> Lev(t.r) < t.lv
  }

  /** The level rules: a left child is one level down; a right child is one level down or on the
      same level, and then its own right child is lower. */
  ghost predicate AA(t: Tree) {
    t.Tree? ==>
      AA(t.l) && AA(t.r) && Lev(t.l) == t.lv - 1 &&
      (Lev(t.r) == t.lv - 1 || (Lev(t.r) == t.lv && NoRightLink(t.r)))
  }

  lemma {:induction false} LevNonnegative(t: Tree)
    requires AA(t)
    ensures Lev(t) >= 0 && (t.Tree? ==> t.lv >= 1)
  {
    if t.Tree? { LevNonnegative(t.l); }
  }

  // ----- Skew and Split on shapes -----

  function WithLeft(t: Tree): Tree
    requires t.Tree? && t.l.Tree?
  {
    Tree(t.l.l, t.l.n, t.l.e, t.l.lv, Tree(t.l.r, t.n, t.e, t.lv, t.r))
  }

  function WithRight(t: Tree): Tree
    requires t.Tree? && t.r.Tree?
  {
    Tree(Tree(t.l, t.n, t.e, t.lv, t.r.l), t.r.n, t.r.e, t.r.lv, t.r.r)
  }

  function Skewed(t: Tree): Tree {
    if t.Tree? && t.l.Tree? && t.l.lv == t.lv then WithLeft(t) else t
  }

  function Splitted(t: Tree): Tree {
    if t.Tree? && t.r.Tree? && t.r.r.Tree? && t.r.r.lv == t.lv then
      var u := WithRight(t); u.(lv := u.lv + 1)
    else t
  }

  /** Same elements in the same order, same nodes. */
  ghost predicate Alike(t: Tree, u: Tree) {
    Elems(t) == Elems(u) && Nodes(t) == Nodes(u) && (Ordered(t) ==> Ordered(u)) && (Disjoint(t) ==> Disjoint(u))
  }

  /** l rotated to the right, as far as elements and nodes go. */
  ghost predicate Rotation(l: Tree, r: Tree) {
    l.Tree? && l.l.Tree? && r.Tree? && r.r.Tree? && l.l.l == r.l && l.l.r == r.r.l && l.r == r.r.r &&
    l.l.n == r.n && l.l.e == r.e && l.n == r.r.n && l.e == r.r.e
  }

  lemma {:induction false} AlikeRotation(l: Tree, r: Tree)
    requires Rotation(l, r)
    ensures Alike(l, r) && Alike(r, l)
  {
    RotationElems(l, r);
    RotationNodes(l, r);
  }

  lemma {:induction false} RotationElems(l: Tree, r: Tree)
    requires Rotation(l, r)
    ensures Elems(l) == Elems(r) && (Ordered(l) <==> Ordered(r))
  {
    assert Elems(l.l) == Elems(r.l) + {r.e} + Elems(r.r.l) && Elems(r.r) == Elems(r.r.l) + {l.e} + Elems(r.r.r);
    if Ordered(l) { assert Ordered(l.l) && l.l.e in Elems(l.l); assert Ordered(r.r); }
    if Ordered(r) { assert Ordered(r.r) && r.r.e in Elems(r.r); assert Ordered(l.l); }
  }

  lemma {:induction false} RotationNodes(l: Tree, r: Tree)
    requires Rotation(l, r)
    ensures Nodes(l) == Nodes(r) && (Disjoint(l) <==> Disjoint(r))
  {
    assert Nodes(l.l) == Nodes(r.l) + {r.n} + Nodes(r.r.l) && Nodes(r.r) == Nodes(r.r.l) + {l.n} + Nodes(r.r.r);
    if Disjoint(l) { assert Disjoint(l.l); assert Disjoint(r.r); }
    if Disjoint(r) { assert Disjoint(r.r); assert Disjoint(l.l); }
  }

  lemma {:induction false} SkewedAlike(t: Tree)
    ensures Alike(t, Skewed(t))
  {
    if Skewed(t) != t { AlikeRotation(t, Skewed(t)); }
  }

  lemma {:induction false} SplittedAlike(t: Tree)
    ensures Alike(t, Splitted(t))
  {
    if Splitted(t) != t { AlikeRotation(Splitted(t), t); }
  }

  // ----- Insertion -----

  /** The tree with item added below, not yet rebalanced at its root. */
  function Grown(t: Tree, item: int, x: Ptr): Tree
    decreases t, 0
  {
    if t.Leaf? then Tree(Leaf, x, item, 1, Leaf)
    else if item < t.e then t.(l := Inserted(t.l, item, x))
    else if item > t.e then t.(r := Inserted(t.r, item, x))
    else t
  }

  function Inserted(t: Tree, item: int, x: Ptr): Tree
    decreases t, 1
  {
    Splitted(Skewed(Grown(t, item, x)))
  }

  /** The left child rose to the level of v: skew, and split if the right child is there too. */
  lemma {:induction false} RepairLeft(v: Tree)
    requires v.Tree? && AA(v.l) && AA(v.r) && v.lv >= 1 && Lev(v.l) == v.lv && NoRightLink(v.l)
    requires Lev(v.r) == v.lv - 1 || (Lev(v.r) == v.lv && NoRightLink(v.r))
    ensures var u := Splitted(Skewed(v));
            AA(u) && u.Tree? && (if Lev(v.r) == v.lv then u.lv == v.lv + 1 && NoRightLink(u) else u.lv == v.lv)
  {
    LevNonnegative(v.l);
    LevNonnegative(v.r);
    var w := Skewed(v);
    assert w == WithLeft(v) && AA(v.l.r) && AA(v.l.l);
    LevNonnegative(v.l.l);
    if Lev(v.r) == v.lv {
      assert AA(Splitted(w).l);
    } else {
      assert AA(w.r);
    }
  }

  /** The right child now has a right link of its own on the same level: split. */
  lemma {:induction false} RepairRight(v: Tree)
    requires v.Tree? && AA(v.l) && AA(v.r) && v.lv >= 1 && Lev(v.l) == v.lv - 1 && Lev(v.r) == v.lv
    ensures var u := Splitted(Skewed(v));
            AA(u) && u.Tree? && (if NoRightLink(v.r) then u.lv == v.lv else u.lv == v.lv + 1 && NoRightLink(u))
  {
    LevNonnegative(v.l);
    LevNonnegative(v.r);
    assert Skewed(v) == v;
    if !NoRightLink(v.r) {
      assert AA(v.r.l) && AA(v.r.r);
      LevNonnegative(v.r.r);
      assert AA(Splitted(v).l);
    }
  }

  /** Insertion keeps the level rules; the level grows by at most one, and only where a right link was. */
  lemma {:induction false} InsertedLevels(t: Tree, item: int, x: Ptr)
    requires AA(t)
    ensures var u := Inserted(t, item, x);
            AA(u) && u.Tree? && Lev(t) <= Lev(u) <= Lev(t) + 1 &&
            (Lev(u) > Lev(t) ==> NoRightLink(u)) && (t.Tree? && NoRightLink(t) ==> Lev(u) == Lev(t))
  {
    LevNonnegative(t);
    if t.Tree? {
      var v := Grown(t, item, x);
      LevNonnegative(t.l);
      LevNonnegative(t.r);
      if item < t.e {
        InsertedLevels(t.l, item, x);
        if Lev(v.l) == v.lv { RepairLeft(v); }
      } else if item > t.e {
        InsertedLevels(t.r, item, x);
        if Lev(v.r) == v.lv { RepairRight(v); }
      }
    }
  }

  lemma {:induction false} GrownElems(t: Tree, item: int, x: Ptr)
    requires Ordered(t) && Disjoint(t) && x !in Nodes(t)
    ensures var u := Grown(t, item, x);
            Ordered(u) && Disjoint(u) && Elems(u) == Elems(t) + {item} &&
            Nodes(u) == if item in Elems(t) then Nodes(t) else Nodes(t) + {x}
    decreases t, 0
  {
    if t.Tree? && item < t.e {
      InsertedElems(t.l, item, x);
      GrewLeft(t, Inserted(t.l, item, x), item, x);
    } else if t.Tree? && item > t.e {
      InsertedElems(t.r, item, x);
      GrewRight(t, Inserted(t.r, item, x), item, x);
    }
  }

  lemma {:induction false} GrewLeft(t: Tree, l: Tree, item: int, x: Ptr)
    requires t.Tree? && Ordered(t) && Disjoint(t) && x !in Nodes(t) && item < t.e
    requires Ordered(l) && Disjoint(l) && Elems(l) == Elems(t.l) + {item}
    requires Nodes(l) == if item in Elems(t.l) then Nodes(t.l) else Nodes(t.l) + {x}
    ensures var u := t.(l := l);
            Ordered(u) && Disjoint(u) && Elems(u) == Elems(t) + {item} &&
            Nodes(u) == if item in Elems(t) then Nodes(t) else Nodes(t) + {x}
  {
    assert item in Elems(t) <==> item in Elems(t.l);
  }

  lemma {:induction false} GrewRight(t: Tree, r: Tree, item: int, x: Ptr)
    requires t.Tree? && Ordered(t) && Disjoint(t) && x !in Nodes(t) && item > t.e
    requires Ordered(r) && Disjoint(r) && Elems(r) == Elems(t.r) + {item}
    requires Nodes(r) == if item in Elems(t.r) then Nodes(t.r) else Nodes(t.r) + {x}
    ensures var u := t.(r := r);
            Ordered(u) && Disjoint(u) && Elems(u) == Elems(t) + {item} &&
            Nodes(u) == if item in Elems(t) then Nodes(t) else Nodes(t) + {x}
  {
    assert item in Elems(t) <==> item in Elems(t.r);
  }

  lemma {:induction false} InsertedElems(t: Tree, item: int, x: Ptr)
    requires Ordered(t) && Disjoint(t) && x !in Nodes(t)
    ensures var u := Inserted(t, item, x);
            Ordered(u) && Disjoint(u) && Elems(u) == Elems(t) + {item} &&
            Nodes(u) == if item in Elems(t) then Nodes(t) else Nodes(t) + {x}
    decreases t, 1
  {
    GrownElems(t, item, x);
    SkewedAlike(Grown(t, item, x));
    SplittedAlike(Skewed(Grown(t, item, x)));
  }

  // ----- Repair after deletion -----

  predicate Sunken(t: Tree) {
    t.Tree? && (Lev(t.l) < t.lv - 1 || Lev(t.r) < t.lv - 1)
  }

  /** One level down, with a right child that stood as high. */
  function Lowered(t: Tree): Tree
    requires t.Tree?
  {
    var k := t.lv - 1;
    t.(lv := k, r := if t.r.Tree? && t.r.lv > k then t.r.(lv := k) else t.r)
  }

  function SkewRight(t: Tree): Tree {
    if t.Leaf? then t else t.(r := Skewed(t.r))
  }

  function SkewRightRight(t: Tree): Tree {
    if t.Leaf? || t.r.Leaf? then t else t.(r := SkewRight(t.r))
  }

  /** Three skews, then the first split. */
  function Skewed3(t: Tree): Tree {
    SkewRightRight(SkewRight(Skewed(t)))
  }

  function SplitRight(t: Tree): Tree {
    if t.Leaf? then t else t.(r := Splitted(t.r))
  }

  function Repaired(t: Tree): Tree {
    if Sunken(t) then SplitRight(Splitted(Skewed3(Lowered(t)))) else t
  }

  /** What the repair promises at a node of level k; link says whether the node had a right link. */
  ghost predicate RepairedWell(u: Tree, k: int, link: bool) {
    AA(u) && u.Tree? && k - 1 <= u.lv <= k && (u.lv == k && !link ==> NoRightLink(u))
  }

  /** The second split is applied to a real node, never to the sentinel. */
  ghost predicate SplitsRealNode(t: Tree)
    requires t.Tree?
  {
    var u := Splitted(Skewed3(Lowered(t))); u.Tree? && u.r.Tree?
  }

  lemma {:induction false} RepairAfterRight(t: Tree)
    requires t.Tree? && AA(t.l) && AA(t.r) && Lev(t.l) == t.lv - 1 && Lev(t.r) == t.lv - 2
    ensures RepairedWell(Repaired(t), t.lv, false) && SplitsRealNode(t)
  {
    LevNonnegative(t.l);
    LevNonnegative(t.r);
    var k, a := t.lv - 1, t.l;
    LevNonnegative(a.r);
    assert Skewed(t.r) == t.r by { if t.r.Tree? { LevNonnegative(t.r.l); } }
    var low := t.(lv := k);
    if Lev(a.r) == k {
      var b := a.r;
      assert AA(b);
      var x, y := Tree(a.l, a.n, a.e, k, b.l), Tree(b.r, t.n, t.e, k, t.r);
      assert Skewed3(low) == Tree(a.l, a.n, a.e, k, Tree(b.l, b.n, b.e, k, y));
      assert AA(x) && AA(y);
      assert Splitted(Skewed3(low)) == Tree(x, b.n, b.e, k + 1, y);
      assert Splitted(y) == y by { if t.r.Tree? { LevNonnegative(t.r.r); } }
    } else {
      var y := Tree(a.r, t.n, t.e, k, t.r);
      assert AA(y);
      assert Skewed3(low) == Tree(a.l, a.n, a.e, k, y);
    }
  }

  /** The left child sank and the right child is one level down. */
  lemma {:induction false} RepairAfterLeftLow(t: Tree)
    requires t.Tree? && AA(t.l) && AA(t.r) && Lev(t.l) == t.lv - 2 && Lev(t.r) == t.lv - 1
    ensures RepairedWell(Repaired(t), t.lv, false) && SplitsRealNode(t)
  {
    LevNonnegative(t.l);
    LevNonnegative(t.r);
    var k, r := t.lv - 1, t.r;
    var low := t.(lv := k);
    LevNonnegative(r.r);
    assert Skewed(r.r) == r.r by { if r.r.Tree? { LevNonnegative(r.r.l); } }
    assert Skewed3(low) == low;
    if Lev(r.r) == k {
      var x := Tree(t.l, t.n, t.e, k, r.l);
      assert AA(r.r) && AA(x);
      assert Splitted(low) == Tree(x, r.n, r.e, k + 1, r.r);
      assert Splitted(r.r) == r.r by { LevNonnegative(r.r.r); }
    } else {
      assert Splitted(low) == low;
      assert Splitted(r) == r by { if r.r.Tree? { LevNonnegative(r.r.r); } }
    }
  }

  /** A chain of nodes on level k to the right: splitting once lifts its second node. */
  lemma {:induction false} SplitChain(t: Tree, k: int)
    requires k >= 1 && t.Tree? && t.lv == k && AA(t.l) && Lev(t.l) == k - 1 && AA(t.r) && Lev(t.r) == k
    ensures var u := Splitted(t);
            AA(u) && u.Tree? && (if NoRightLink(t.r) then u == t else u.lv == k + 1 && NoRightLink(u))
  {
    LevNonnegative(t.r);
    LevNonnegative(t.r.r);
    if !NoRightLink(t.r) {
      assert AA(t.r.l) && AA(t.r.r);
      assert AA(Tree(t.l, t.n, t.e, t.lv, t.r.l));
    }
  }

  /** The left child sank and the right child stood on the same level: it is lowered too. */
  lemma {:induction false} RepairAfterLeftLink(t: Tree)
    requires t.Tree? && AA(t.l) && AA(t.r) && Lev(t.l) == t.lv - 2 && Lev(t.r) == t.lv && NoRightLink(t.r)
    ensures RepairedWell(Repaired(t), t.lv, true) && SplitsRealNode(t)
  {
    LevNonnegative(t.l);
    LevNonnegative(t.r);
    var k, r, a, c := t.lv - 1, t.r, t.r.l, t.r.r;
    assert AA(a) && AA(c);
    LevNonnegative(a.r);
    var low := Lowered(t);
    var x := Tree(t.l, t.n, t.e, k, a.l);
    assert AA(x);
    if Lev(a.r) == k {
      var b := a.r;
      assert AA(b);
      var y := Tree(b.r, r.n, r.e, k, c);
      var z := Tree(b.l, b.n, b.e, k, y);
      assert Skewed3(low) == Tree(t.l, t.n, t.e, k, Tree(a.l, a.n, a.e, k, z));
      assert Splitted(Skewed3(low)) == Tree(x, a.n, a.e, k + 1, z);
      assert Splitted(z) == Tree(Tree(b.l, b.n, b.e, k, b.r), r.n, r.e, k + 1, c);
      assert AA(Splitted(z).l);
      assert AA(Splitted(z));
    } else {
      var y := Tree(a.r, r.n, r.e, k, c);
      assert Skewed(y) == y by { if a.r.Tree? { LevNonnegative(a.r.l); } }
      assert Skewed3(low) == Tree(t.l, t.n, t.e, k, Tree(a.l, a.n, a.e, k, y));
      assert Splitted(Skewed3(low)) == Tree(x, a.n, a.e, k + 1, y);
      SplitChain(y, k);
      assert NoRightLink(c) ==> AA(y);
    }
  }

  /** Repair restores the level rules at a node o whose left or right subtree lost at most one level. */
  lemma {:induction false} RepairedLevels(o: Tree, t: Tree)
    requires o.Tree? && AA(o) && t.Tree? && t.lv == o.lv && AA(t.l) && AA(t.r)
    requires (t.r == o.r && Lev(o.l) - 1 <= Lev(t.l) <= Lev(o.l)) ||
             (t.l == o.l && Lev(o.r) - 1 <= Lev(t.r) <= Lev(o.r) &&
              (Lev(t.r) == Lev(o.r) && NoRightLink(o.r) ==> NoRightLink(t.r)))
    ensures RepairedWell(Repaired(t), o.lv, !NoRightLink(o))
    ensures Sunken(t) ==> SplitsRealNode(t)
  {
    LevNonnegative(o);
    if Lev(t.l) == t.lv - 2 {
      if Lev(t.r) == t.lv { RepairAfterLeftLink(t); } else { RepairAfterLeftLow(t); }
    } else if Lev(t.r) == t.lv - 2 {
      RepairAfterRight(t);
    }
  }

  lemma {:induction false} SameBelow(t: Tree, u: Tree)
    requires t.Tree? && u.Tree? && t.n == u.n && t.e == u.e && t.l == u.l && Alike(t.r, u.r)
    ensures Alike(t, u)
  {
  }

  lemma {:induction false} AlikeTransitive(t: Tree, u: Tree, v: Tree)
    requires Alike(t, u) && Alike(u, v)
    ensures Alike(t, v)
  {
  }

  lemma {:induction false} RelevelAlike(t: Tree, lv: int)
    requires t.Tree?
    ensures Alike(t, t.(lv := lv))
  {
  }

  lemma {:induction false} LoweredAlike(t: Tree)
    requires t.Tree?
    ensures Alike(t, Lowered(t))
  {
    var u := t.(lv := t.lv - 1);
    RelevelAlike(t, t.lv - 1);
    if t.r.Tree? && t.r.lv > t.lv - 1 {
      RelevelAlike(t.r, t.lv - 1);
      SameBelow(u, Lowered(t));
      AlikeTransitive(t, u, Lowered(t));
    }
  }

  lemma {:induction false} SkewRightAlike(t: Tree)
    ensures Alike(t, SkewRight(t))
  {
    if t.Tree? {
      SkewedAlike(t.r);
      SameBelow(t, SkewRight(t));
    }
  }

  /** Repair rearranges nodes and changes levels, nothing else. */
  lemma {:induction false} RepairedAlike(t: Tree)
    ensures Alike(t, Repaired(t))
  {
    if Sunken(t) {
      var t1 := Lowered(t);
      var t2 := Skewed(t1);
      var t3 := SkewRight(t2);
      var t4 := SkewRightRight(t3);
      var t5 := Splitted(t4);
      LoweredAlike(t);
      SkewedAlike(t1);
      SkewRightAlike(t2);
      if t3.Tree? && t3.r.Tree? { SkewRightAlike(t3.r); SameBelow(t3, t4); }
      SplittedAlike(t4);
      if t5.Tree? { SplittedAlike(t5.r); SameBelow(t5, SplitRight(t5)); }
      AlikeTransitive(t, t1, t2);
      AlikeTransitive(t, t2, t3);
      AlikeTransitive(t, t3, t4);
      AlikeTransitive(t, t4, t5);
      AlikeTransitive(t, t5, SplitRight(t5));
    }
  }

  // ----- Removal on shapes -----

  function Min(t: Tree): int
    requires t.Tree?
  {
    if t.l.Leaf? then t.e else Min(t.l)
  }

  /** The tree without its smallest element. */
  function RemovedMin(t: Tree): Tree
    requires t.Tree?
  {
    if t.l.Leaf? then t.r else Repaired(t.(l := RemovedMin(t.l)))
  }

  /** The tree without item: an inner element is replaced by its successor. */
  function Removed(t: Tree, item: int): Tree {
    if t.Leaf? then t
    else if item < t.e then (if t.l.Leaf? then t else Repaired(t.(l := Removed(t.l, item))))
    else if item > t.e then (if t.r.Leaf? then t else Repaired(t.(r := Removed(t.r, item))))
    else if t.r.Leaf? then t.r
    else Repaired(t.(e := Min(t.r), r := RemovedMin(t.r)))
  }

  /** The level rules survive, and the level drops by at most one. */
  ghost predicate LevelKept(t: Tree, u: Tree) {
    AA(u) && Lev(t) - 1 <= Lev(u) <= Lev(t) && (Lev(u) == Lev(t) && NoRightLink(t) ==> NoRightLink(u))
  }

  lemma {:induction false} RemovedMinLevels(t: Tree)
    requires t.Tree? && AA(t)
    ensures LevelKept(t, RemovedMin(t))
    ensures t.l.Tree? && Sunken(t.(l := RemovedMin(t.l))) ==> SplitsRealNode(t.(l := RemovedMin(t.l)))
  {
    LevNonnegative(t);
    if t.l.Tree? {
      RemovedMinLevels(t.l);
      RepairedLevels(t, t.(l := RemovedMin(t.l)));
    }
  }

  lemma {:induction false} RemovedLevels(t: Tree, item: int)
    requires AA(t)
    ensures LevelKept(t, Removed(t, item))
  {
    LevNonnegative(t);
    if t.Tree? {
      LevNonnegative(t.l);
      LevNonnegative(t.r);
      RemovedLevels(t.l, item);
      RemovedLevels(t.r, item);
      if item < t.e {
        RepairedLevels(t, t.(l := Removed(t.l, item)));
      } else if item > t.e {
        RepairedLevels(t, t.(r := Removed(t.r, item)));
      } else if t.r.Tree? {
        RemovedMinLevels(t.r);
        RepairedLevels(t, t.(e := Min(t.r), r := RemovedMin(t.r)));
      }
    }
  }

  lemma {:induction false} MinIsLeast(t: Tree)
    requires t.Tree? && Ordered(t)
    ensures Min(t) in Elems(t) && forall x :: x in Elems(t) ==> Min(t) <= x
  {
    if t.l.Tree? { MinIsLeast(t.l); }
  }

  /** u holds the elements of t except x, in nodes of t. */
  ghost predicate Without(t: Tree, u: Tree, x: int) {
    Ordered(u) && Disjoint(u) && Elems(u) == Elems(t) - {x} && Nodes(u) <= Nodes(t)
  }

  lemma {:induction false} WithoutLeft(t: Tree, l: Tree, x: int)
    requires t.Tree? && Ordered(t) && Disjoint(t) && Without(t.l, l, x) && x < t.e
    ensures Without(t, Repaired(t.(l := l)), x)
  {
    var v := t.(l := l);
    assert Nodes(v) == Nodes(l) + {t.n} + Nodes(t.r) && Nodes(t) == Nodes(t.l) + {t.n} + Nodes(t.r);
    assert Without(t, v, x);
    RepairedAlike(v);
  }

  lemma {:induction false} WithoutRight(t: Tree, r: Tree, x: int)
    requires t.Tree? && Ordered(t) && Disjoint(t) && Without(t.r, r, x) && x > t.e
    ensures Without(t, Repaired(t.(r := r)), x)
  {
    var v := t.(r := r);
    assert Nodes(v) == Nodes(t.l) + {t.n} + Nodes(r) && Nodes(t) == Nodes(t.l) + {t.n} + Nodes(t.r);
    assert Without(t, v, x);
    RepairedAlike(v);
  }

  lemma {:induction false} WithoutRoot(t: Tree, r: Tree, m: int)
    requires t.Tree? && Ordered(t) && Disjoint(t) && Without(t.r, r, m)
    requires m in Elems(t.r) && forall x :: x in Elems(t.r) ==> m <= x
    ensures Without(t, Repaired(t.(e := m, r := r)), t.e)
  {
    var v := t.(e := m, r := r);
    assert Nodes(v) == Nodes(t.l) + {t.n} + Nodes(r) && Nodes(t) == Nodes(t.l) + {t.n} + Nodes(t.r);
    assert Elems(v) == Elems(t.l) + {m} + Elems(r) && Elems(t) == Elems(t.l) + {t.e} + Elems(t.r);
    assert Ordered(v) by {
      assert forall x :: x in Elems(t.l) ==> x < t.e < m;
      assert forall x :: x in Elems(r) ==> x in Elems(t.r) && x != m;
    }
    assert Disjoint(v);
    assert Without(t, v, t.e);
    RepairedAlike(v);
  }

  lemma {:induction false} RemovedMinElems(t: Tree)
    requires t.Tree? && Ordered(t) && Disjoint(t)
    ensures Without(t, RemovedMin(t), Min(t))
  {
    if t.l.Tree? {
      MinIsLeast(t.l);
      RemovedMinElems(t.l);
      WithoutLeft(t, RemovedMin(t.l), Min(t));
    }
  }

  /** Removal takes out exactly item. */
  lemma {:induction false} RemovedElems(t: Tree, item: int)
    requires Ordered(t) && Disjoint(t) && AA(t)
    ensures Without(t, Removed(t, item), item)
  {
    if t.Tree? {
      LevNonnegative(t);
      LevNonnegative(t.l);
      if item < t.e {
        RemovedElems(t.l, item);
        WithoutLeft(t, Removed(t.l, item), item);
      } else if item > t.e {
        RemovedElems(t.r, item);
        WithoutRight(t, Removed(t.r, item), item);
      } else if t.r.Tree? {
        MinIsLeast(t.r);
        RemovedMinElems(t.r);
        WithoutRoot(t, RemovedMin(t.r), Min(t.r));
      }
    }
  }

  /** An absent item leaves the tree as it is. */
  lemma {:induction false} RemovedAbsent(t: Tree, item: int)
    requires AA(t) && item !in Elems(t)
    ensures Removed(t, item) == t
  {
    if t.Tree? {
      LevNonnegative(t);
      RemovedAbsent(t.l, item);
      RemovedAbsent(t.r, item);
      assert t.(l := t.l) == t && t.(r := t.r) == t;
    }
  }

  // ----- Trees in memory -----

  function Root(t: Tree, nul: Ptr): Ptr {
    if t.Leaf? then nul else t.n
  }

  /** The memory holds exactly this tree. */
  ghost predicate Rep(m: Memory, nul: Ptr, t: Tree) {
    t.Tree? ==>
      t.n != nul && t.n in m && m[t.n] == Node(t.e, Root(t.l, nul), Root(t.r, nul), t.lv) &&
      Rep(m, nul, t.l) && Rep(m, nul, t.r)
  }

  /** The sentinel stands for every missing child; its level is 0. */
  ghost predicate Sentinel(m: Memory, nul: Ptr) {
    nul in m && m[nul].left == nul && m[nul].right == nul && m[nul].level == 0
  }

  /** Nodes outside s are still there, unchanged. */
  ghost predicate Framed(m: Memory, m': Memory, s: set<Ptr>) {
    forall n :: n in m && n !in s ==> n in m' && m'[n] == m[n]
  }

  lemma {:induction false} RepFrame(m: Memory, m': Memory, nul: Ptr, t: Tree)
    requires Rep(m, nul, t) && Agree(m, m', Nodes(t))
    ensures Rep(m', nul, t)
  {
    if t.Tree? {
      RepFrame(m, m', nul, t.l);
      RepFrame(m, m', nul, t.r);
    }
  }

  lemma {:induction false} RepNodes(m: Memory, nul: Ptr, t: Tree)
    requires Rep(m, nul, t)
    ensures Nodes(t) <= m.Keys && nul !in Nodes(t)
  {
    if t.Tree? {
      RepNodes(m, nul, t.l);
      RepNodes(m, nul, t.r);
    }
  }

  /** Every level in the tree is above the sentinel's. */
  ghost predicate Raised(t: Tree) {
    t.Tree? ==> t.lv >= 1 && Raised(t.l) && Raised(t.r)
  }

  lemma {:induction false} AARaised(t: Tree)
    requires AA(t)
    ensures Raised(t)
  {
    LevNonnegative(t);
    if t.Tree? {
      AARaised(t.l);
      AARaised(t.r);
    }
  }

  /** A sound tree in memory. */
  ghost predicate Sound(m: Memory, nul: Ptr, t: Tree) {
    Sentinel(m, nul) && Rep(m, nul, t) && Disjoint(t)
  }

  function RotatedWithLeft(m: Memory, k2: Ptr): Memory
    requires k2 in m && m[k2].left in m
  {
    var k1 := m[k2].left;
    var m1 := m[k2 := m[k2].(left := m[k1].right)];
    m1[k1 := m1[k1].(right := k2)]
  }

  function RotatedWithRight(m: Memory, k1: Ptr): Memory
    requires k1 in m && m[k1].right in m
  {
    var k2 := m[k1].right;
    var m1 := m[k1 := m[k1].(right := m[k2].left)];
    m1[k2 := m1[k2].(left := k1)]
  }

  lemma {:induction false} RepWithLeft(m: Memory, nul: Ptr, t: Tree)
    requires t.Tree? && t.l.Tree? && Sound(m, nul, t)
    ensures t.n in m && m[t.n].left in m && Sound(RotatedWithLeft(m, t.n), nul, WithLeft(t))
    ensures Framed(m, RotatedWithLeft(m, t.n), Nodes(t))
  {
    assert Rep(m, nul, t.l) && Disjoint(t.l);
    var m' := RotatedWithLeft(m, t.n);
    AlikeRotation(t, WithLeft(t));
    RepFrame(m, m', nul, t.l.l);
    RepFrame(m, m', nul, t.l.r);
    RepFrame(m, m', nul, t.r);
    assert Rep(m', nul, WithLeft(t).r);
    assert t.l.n in Nodes(t.l);
  }

  lemma {:induction false} RepWithRight(m: Memory, nul: Ptr, t: Tree)
    requires t.Tree? && t.r.Tree? && Sound(m, nul, t)
    ensures t.n in m && m[t.n].right in m && Sound(RotatedWithRight(m, t.n), nul, WithRight(t))
    ensures Framed(m, RotatedWithRight(m, t.n), Nodes(t))
  {
    assert Rep(m, nul, t.r) && Disjoint(t.r);
    var m' := RotatedWithRight(m, t.n);
    AlikeRotation(WithRight(t), t);
    RepFrame(m, m', nul, t.r.l);
    RepFrame(m, m', nul, t.r.r);
    RepFrame(m, m', nul, t.l);
    assert Rep(m', nul, WithRight(t).l);
    assert t.r.n in Nodes(t.r);
  }

  /** Storing a level in the root. */
  lemma {:induction false} RepRelevel(m: Memory, nul: Ptr, t: Tree, lv: int)
    requires t.Tree? && Sound(m, nul, t)
    ensures var m' := m[t.n := m[t.n].(level := lv)]; Sound(m', nul, t.(lv := lv)) && Framed(m, m', Nodes(t))
  {
    var m' := m[t.n := m[t.n].(level := lv)];
    RepFrame(m, m', nul, t.l);
    RepFrame(m, m', nul, t.r);
    RelevelAlike(t, lv);
  }

  /** Hanging a new subtree on the right of the root of t. */
  lemma {:induction false} RepSetRight(m: Memory, m1: Memory, nul: Ptr, t: Tree, r: Tree)
    requires t.Tree? && Sound(m, nul, t) && Agree(m, m1, Nodes(t.l) + {t.n, nul}) && Rep(m1, nul, r) && Disjoint(r)
    requires t.n !in Nodes(r) && nul !in Nodes(r) && Nodes(t.l) !! Nodes(r)
    ensures t.n in m1
    ensures var m2 := m1[t.n := m1[t.n].(right := Root(r, nul))];
            Sound(m2, nul, t.(r := r)) && (Framed(m, m1, Nodes(t.r)) ==> Framed(m, m2, Nodes(t)))
  {
    var m2 := m1[t.n := m1[t.n].(right := Root(r, nul))];
    RepNodes(m, nul, t);
    RepFrame(m, m1, nul, t.l);
    RepFrame(m1, m2, nul, t.l);
    RepFrame(m1, m2, nul, r);
  }

  lemma {:induction false} RepSetLeft(m: Memory, m1: Memory, nul: Ptr, t: Tree, l: Tree)
    requires t.Tree? && Sound(m, nul, t) && Agree(m, m1, Nodes(t.r) + {t.n, nul}) && Rep(m1, nul, l) && Disjoint(l)
    requires t.n !in Nodes(l) && nul !in Nodes(l) && Nodes(t.r) !! Nodes(l)
    ensures t.n in m1
    ensures var m2 := m1[t.n := m1[t.n].(left := Root(l, nul))];
            Sound(m2, nul, t.(l := l)) && (Framed(m, m1, Nodes(t.l)) ==> Framed(m, m2, Nodes(t)))
  {
    var m2 := m1[t.n := m1[t.n].(left := Root(l, nul))];
    RepNodes(m, nul, t);
    RepFrame(m, m1, nul, t.r);
    RepFrame(m1, m2, nul, t.r);
    RepFrame(m1, m2, nul, l);
  }

  lemma {:induction false} GrownLeft(m: Memory, m1: Memory, nul: Ptr, t: Tree, item: int, x: Ptr)
    requires t.Tree? && item < t.e && Sound(m, nul, t) && Ordered(t) && x !in m
    requires var u := Inserted(t.l, item, x); Framed(m, m1, Nodes(t.l)) && Rep(m1, nul, u) && Disjoint(u)
    ensures t.n in m1
    ensures var m2 := m1[t.n := m1[t.n].(left := Root(Inserted(t.l, item, x), nul))];
            Sound(m2, nul, Grown(t, item, x)) && Framed(m, m2, Nodes(t))
  {
    RepNodes(m, nul, t);
    InsertedElems(t.l, item, x);
    RepSetLeft(m, m1, nul, t, Inserted(t.l, item, x));
  }

  lemma {:induction false} GrownRight(m: Memory, m1: Memory, nul: Ptr, t: Tree, item: int, x: Ptr)
    requires t.Tree? && item > t.e && Sound(m, nul, t) && Ordered(t) && x !in m
    requires var u := Inserted(t.r, item, x); Framed(m, m1, Nodes(t.r)) && Rep(m1, nul, u) && Disjoint(u)
    ensures t.n in m1
    ensures var m2 := m1[t.n := m1[t.n].(right := Root(Inserted(t.r, item, x), nul))];
            Sound(m2, nul, Grown(t, item, x)) && Framed(m, m2, Nodes(t))
  {
    RepNodes(m, nul, t);
    InsertedElems(t.r, item, x);
    RepSetRight(m, m1, nul, t, Inserted(t.r, item, x));
  }

  // ----- The effect of Remove on the memory -----

  ghost predicate Below(item: int, t: Tree) {
    forall x :: x in Elems(t) ==> item < x
  }

  /** The shape Remove leaves of the subtree t. If the element to delete was found above, the subtree
      gives up its minimum, which moves up there. */
  ghost function After(t: Tree, item: int, found: bool): Tree {
    if t.Leaf? then t else if found then RemovedMin(t) else Removed(t, item)
  }

  lemma {:induction false} AfterKeeps(t: Tree, item: int, found: bool)
    requires Ordered(t) && Disjoint(t) && AA(t)
    ensures var u := After(t, item, found);
            LevelKept(t, u) && Ordered(u) && Disjoint(u) && Nodes(u) <= Nodes(t) && Raised(u)
  {
    if t.Tree? && found {
      RemovedMinLevels(t);
      RemovedMinElems(t);
    } else {
      RemovedLevels(t, item);
      RemovedElems(t, item);
    }
    AARaised(After(t, item, found));
  }

  /** Where DeletePtr may point when Remove enters t: at the element itself if it was found above;
      otherwise, if t holds nothing up to item, at nothing that holds item. */
  ghost predicate Aimed(m: Memory, nul: Ptr, NULL: Ptr, d: Ptr, t: Tree, item: int, found: bool) {
    if found then d in m && d != nul && d !in Nodes(t) && m[d].element == item && Below(item, t)
    else Below(item, t) ==> d == nul || d == NULL || (d in m && m[d].element != item)
  }

  /** Only t changed, except for the element at d when its replacement came from t. */
  ghost predicate Effect(m: Memory, m': Memory, nul: Ptr, t: Tree, item: int, found: bool, d: Ptr)
    requires t.Tree?
  {
    Sound(m', nul, After(t, item, found)) && m'.Keys <= m.Keys &&
    forall n :: n in m && n !in Nodes(t) ==>
      n in m' && m'[n] == if found && n == d then m[n].(element := Min(t)) else m[n]
  }

  /** The node that is cut out at the bottom of the search. */
  lemma {:induction false} EffectHere(m: Memory, nul: Ptr, t: Tree, item: int, found: bool, d: Ptr, e: Ptr)
    requires t.Tree? && Sound(m, nul, t) && Ordered(t) && AA(t) && nul !in Nodes(t)
    requires (found && t.l.Leaf? && d == e && d in m && d !in Nodes(t)) ||
             (!found && item == t.e && t.r.Leaf? && e == t.n)
    ensures e in m && t.n in m
    ensures var m' := m[e := m[e].(element := m[t.n].element)] - {t.n};
            Effect(m, m', nul, t, item, found, d) && After(t, item, found) == t.r && m[t.n].right == Root(t.r, nul)
  {
    var m' := m[e := m[e].(element := m[t.n].element)] - {t.n};
    LevNonnegative(t.l);
    RepFrame(m, m', nul, t.r);
  }

  /** Outside t, memory changed only by the element that moved up to d. */
  ghost predicate Outside(m: Memory, m': Memory, t: Tree, found: bool, d: Ptr, e: int) {
    m'.Keys <= m.Keys &&
    forall n :: n in m && n !in Nodes(t) ==> n in m' && m'[n] == if found && n == d then m[n].(element := e) else m[n]
  }

  /** v, now in memory, only needs the repair at its root to become what Remove leaves of t. */
  ghost predicate Unrepaired(m': Memory, nul: Ptr, t: Tree, v: Tree, item: int, found: bool) {
    t.Tree? && v.Tree? && v.n == t.n && Sound(m', nul, v) && Raised(v) && Nodes(v) <= Nodes(t) &&
    (Sunken(v) ==> v.lv >= 2 && SplitsRealNode(v)) && After(t, item, found) == Repaired(v)
  }

  /** The left subtree was changed and its new root hung below t.n. */
  lemma {:induction false} EffectLeft(m: Memory, m1: Memory, nul: Ptr, t: Tree, item: int, found: bool, d: Ptr)
    requires t.Tree? && Sound(m, nul, t) && Ordered(t) && AA(t) && nul !in Nodes(t) && t.l.Tree?
    requires item < t.e && (found ==> d !in Nodes(t) && d != nul) && Effect(m, m1, nul, t.l, item, found, d)
    ensures t.n in m1
    ensures var v := t.(l := After(t.l, item, found));
            var m2 := m1[t.n := m1[t.n].(left := Root(v.l, nul))];
            Unrepaired(m2, nul, t, v, item, found) && Outside(m, m2, t, found, d, Min(t))
  {
    var v := t.(l := After(t.l, item, found));
    AfterKeeps(t.l, item, found);
    AARaised(t);
    RepSetLeft(m, m1, nul, t, v.l);
    RepairedLevels(t, v);
    LevNonnegative(v.l);
    LevNonnegative(v.r);
  }

  /** t with what Remove leaves of its right subtree, and with the minimum of that if it deletes t.e. */
  ghost function WithRightAfter(t: Tree, item: int): Tree
    requires t.Tree? && t.r.Tree?
  {
    t.(e := if item == t.e then Min(t.r) else t.e, r := After(t.r, item, item == t.e))
  }

  lemma {:induction false} RightLevels(t: Tree, item: int)
    requires t.Tree? && t.r.Tree? && Ordered(t) && Disjoint(t) && AA(t) && item >= t.e
    ensures var v := WithRightAfter(t, item);
            Raised(v) && Nodes(v) <= Nodes(t) && (Sunken(v) ==> v.lv >= 2 && SplitsRealNode(v)) &&
            After(t, item, false) == Repaired(v) && Disjoint(v.r) && Nodes(v.r) <= Nodes(t.r)
  {
    var v := WithRightAfter(t, item);
    AfterKeeps(t.r, item, item == t.e);
    AARaised(t);
    RepairedLevels(t, v);
    LevNonnegative(v.l);
    LevNonnegative(v.r);
  }

  lemma {:induction false} EffectRight(m: Memory, m1: Memory, nul: Ptr, t: Tree, item: int)
    requires t.Tree? && Sound(m, nul, t) && Ordered(t) && AA(t) && nul !in Nodes(t) && t.r.Tree?
    requires item >= t.e && Effect(m, m1, nul, t.r, item, item == t.e, t.n)
    ensures t.n in m1
    ensures var v := WithRightAfter(t, item);
            var m2 := m1[t.n := m1[t.n].(right := Root(v.r, nul))];
            Unrepaired(m2, nul, t, v, item, false) && Outside(m, m2, t, false, nul, 0)
  {
    var v := WithRightAfter(t, item);
    RightLevels(t, item);
    var m0 := m[t.n := m[t.n].(element := v.e)];
    RepFrame(m, m0, nul, t.l);
    RepFrame(m, m0, nul, t.r);
    RepSetRight(m0, m1, nul, t.(e := v.e), v.r);
  }

  lemma {:induction false} EffectRepaired(m: Memory, m2: Memory, m3: Memory, nul: Ptr, t: Tree, v: Tree, item: int,
                                          found: bool, d: Ptr, e: int)
    requires Unrepaired(m2, nul, t, v, item, found) && Outside(m, m2, t, found, d, e) && (found ==> e == Min(t))
    requires Sound(m3, nul, Repaired(v)) && Framed(m2, m3, Nodes(v)) && m3.Keys == m2.Keys
    ensures Effect(m, m3, nul, t, item, found, d)
  {
  }

  lemma {:induction false} BelowLeft(t: Tree, item: int)
    requires t.Tree? && Ordered(t)
    ensures item < t.e ==> (Below(item, t) <==> Below(item, t.l))
    ensures item >= t.e ==> !Below(item, t)
    ensures item == t.e ==> Below(item, t.r)
    ensures item < t.e ==> (item in Elems(t) <==> item in Elems(t.l))
    ensures item > t.e ==> (item in Elems(t) <==> item in Elems(t.r))
    ensures t.e in Elems(t)
  {
    assert Elems(t) == Elems(t.l) + {t.e} + Elems(t.r);
    assert t.e in Elems(t);
  }

  class AATrees {
    const nul: Ptr
    const NULL: Ptr        // the C null pointer, which no node has
    var mem: Memory
    var next: Ptr          // every address in use is below it
    var deletePtr: Ptr     // static in Remove, and null before its first use
    var lastPtr: Ptr

    ghost predicate Ready()
      reads this
    {
      Sentinel(mem, nul) && NULL !in mem && NULL < next && forall n :: n in mem ==> n < next
    }

    /** T is a valid AA-tree in memory, of shape t. */
    ghost predicate Valid(T: Ptr, t: Tree)
      reads this
    {
      Ready() && T == Root(t, nul) && Rep(mem, nul, t) && Disjoint(t) && Ordered(t) && AA(t)
    }

    constructor ()
      ensures Valid(nul, Leaf) && deletePtr == NULL
    {
      NULL, nul, next := 0, 1, 2;
      mem := map[1 := Node(0, 1, 1, 0)];
      deletePtr, lastPtr := 0, 0;
    }

    method SingleRotateWithLeft(k2: Ptr) returns (k1: Ptr)
      requires k2 in mem && mem[k2].left in mem
      modifies this`mem
      ensures k1 == old(mem[k2].left) && mem == RotatedWithLeft(old(mem), k2)
    {
      k1 := mem[k2].left;
      mem := mem[k2 := mem[k2].(left := mem[k1].right)];
      mem := mem[k1 := mem[k1].(right := k2)];
    }

    method SingleRotateWithRight(k1: Ptr) returns (k2: Ptr)
      requires k1 in mem && mem[k1].right in mem
      modifies this`mem
      ensures k2 == old(mem[k1].right) && mem == RotatedWithRight(old(mem), k1)
    {
      k2 := mem[k1].right;
      mem := mem[k1 := mem[k1].(right := mem[k2].left)];
      mem := mem[k2 := mem[k2].(left := k1)];
    }

    /** Rotates a left child up that stands on the level of T; harmless on the sentinel. */
    method Skew(T: Ptr, ghost t: Tree) returns (r: Ptr)
      requires Sound(mem, nul, t) && Raised(t) && T == Root(t, nul)
      modifies this`mem
      ensures Sound(mem, nul, Skewed(t)) && Raised(Skewed(t)) && r == Root(Skewed(t), nul)
      ensures Framed(old(mem), mem, Nodes(t)) && mem.Keys == old(mem.Keys) && mem[nul] == old(mem[nul])
    {
      r := T;
      RepNodes(mem, nul, t);
      if t.Tree? { assert Rep(mem, nul, t.l); }
      if mem[mem[T].left].level == mem[T].level {
        if t.Tree? {
          RepWithLeft(mem, nul, t);
          assert Raised(t.l) && Raised(WithLeft(t).r);
        }
        r := SingleRotateWithLeft(T);
        if t.Leaf? { assert mem == old(mem); }
      }
    }

    /** Rotates the right child up if the rightmost grandchild stands on the level of T, and lifts it.
        On the sentinel this would raise its level, so T must be a real node. */
    method Split(T: Ptr, ghost t: Tree) returns (r: Ptr)
      requires Sound(mem, nul, t) && Raised(t) && t.Tree? && T == t.n
      modifies this`mem
      ensures Sound(mem, nul, Splitted(t)) && Raised(Splitted(t)) && r == Root(Splitted(t), nul)
      ensures Framed(old(mem), mem, Nodes(t)) && mem.Keys == old(mem.Keys) && mem[nul] == old(mem[nul])
    {
      r := T;
      RepNodes(mem, nul, t);
      assert Rep(mem, nul, t.r);
      if t.r.Tree? { assert Rep(mem, nul, t.r.r); }
      if mem[mem[mem[T].right].right].level == mem[T].level {
        RepWithRight(mem, nul, t);
        assert Raised(t.r) && Raised(WithRight(t).l);
        r := SingleRotateWithRight(T);
        RepRelevel(mem, nul, WithRight(t), WithRight(t).lv + 1);
        SplittedAlike(t);
        mem := mem[r := mem[r].(level := mem[r].level + 1)];
      }
    }

    /** Adds item below T without rebalancing T itself. */
    method Grow(item: int, T: Ptr, ghost t: Tree) returns (r: Ptr)
      requires Valid(T, t)
      modifies this`mem, this`next
      ensures var u := Grown(t, item, old(next)); Sound(mem, nul, u) && r == Root(u, nul)
      ensures Ready() && Framed(old(mem), mem, Nodes(t)) && mem[nul] == old(mem[nul])
      decreases t, 0
    {
      r := T;
      ghost var m, x := mem, next;
      RepNodes(mem, nul, t);
      if T == nul {
        r := next;
        next := next + 1;
        mem := mem[r := Node(item, nul, nul, 1)];
      } else if item < mem[T].element {
        var c := Insert(item, mem[T].left, t.l);
        GrownLeft(m, mem, nul, t, item, x);
        mem := mem[T := mem[T].(left := c)];
      } else if item > mem[T].element {
        var c := Insert(item, mem[T].right, t.r);
        GrownRight(m, mem, nul, t, item, x);
        mem := mem[T := mem[T].(right := c)];
      }
    }

    /** Adds item to the tree T. */
    method Insert(item: int, T: Ptr, ghost t: Tree) returns (r: Ptr)
      requires Valid(T, t)
      modifies this`mem, this`next
      ensures var u := Inserted(t, item, old(next)); Valid(r, u) && Elems(u) == Elems(t) + {item}
      ensures Framed(old(mem), mem, Nodes(t)) && mem[nul] == old(mem[nul])
      ensures Stale(t) ==> Stale(Inserted(t, item, old(next)))
      decreases t, 1
    {
      ghost var u := Grown(t, item, next);
      RepNodes(mem, nul, t);
      InsertedLevels(t, item, next);
      InsertedElems(t, item, next);
      GrownRaised(t, item, next);
      GrownElems(t, item, next);
      r := Grow(item, T, t);
      r := Rebalance(r, u);
    }

    method Rebalance(T: Ptr, ghost t: Tree) returns (r: Ptr)
      requires Sound(mem, nul, t) && Raised(t) && t.Tree? && T == t.n
      modifies this`mem
      ensures var u := Splitted(Skewed(t)); Sound(mem, nul, u) && r == Root(u, nul)
      ensures Framed(old(mem), mem, Nodes(t)) && mem.Keys == old(mem.Keys) && mem[nul] == old(mem[nul])
    {
      SkewedAlike(t);
      r := Skew(T, t);
      r := Split(r, Skewed(t));
    }

    /** The rebalancing step: one level down, three skews, two splits. */
    method Repair(T: Ptr, ghost t: Tree) returns (r: Ptr)
      requires Sound(mem, nul, t) && Raised(t) && t.Tree? && T == t.n
      requires Sunken(t) ==> t.lv >= 2 && SplitsRealNode(t)
      modifies this`mem
      ensures Sound(mem, nul, Repaired(t)) && r == Root(Repaired(t), nul)
      ensures Framed(old(mem), mem, Nodes(t)) && mem.Keys == old(mem.Keys) && mem[nul] == old(mem[nul])
    {
      r := T;
      assert Rep(mem, nul, t.l) && Rep(mem, nul, t.r);
      if mem[mem[r].left].level < mem[r].level - 1 || mem[mem[r].right].level < mem[r].level - 1 {
        ghost var t1 := Lowered(t);
        Lower(r, t);
        LoweredAlike(t);
        assert Raised(t1);
        r := Skew(r, t1);
        ghost var t2 := Skewed(t1);
        SkewedAlike(t1);
        SkewRightChild(r, t2);
        ghost var t3 := SkewRight(t2);
        SkewRightAlike(t2);
        SkewGrandchild(r, t3);
        ghost var t4 := SkewRightRight(t3);
        SkewRightRightAlike(t3);
        r := Split(r, t4);
        SplittedAlike(t4);
        SplitRightChild(r, Splitted(t4));
      }
    }

    /** Takes T, and a right child that would stand above it, one level down. */
    method Lower(T: Ptr, ghost t: Tree)
      requires Sound(mem, nul, t) && t.Tree? && T == t.n && t.lv >= 1
      modifies this`mem
      ensures Sound(mem, nul, Lowered(t))
      ensures Framed(old(mem), mem, Nodes(t)) && mem.Keys == old(mem.Keys) && mem[nul] == old(mem[nul])
    {
      RepNodes(mem, nul, t);
      RepRelevel(mem, nul, t, t.lv - 1);
      mem := mem[T := mem[T].(level := mem[T].level - 1)];
      ghost var m, u := mem, t.(lv := t.lv - 1);
      assert Rep(mem, nul, u.r) && Disjoint(u.r);
      if mem[mem[T].right].level > mem[T].level {
        var c := mem[T].right;
        RepRelevel(mem, nul, u.r, u.lv);
        RelevelAlike(u.r, u.lv);
        mem := mem[c := mem[c].(level := mem[T].level)];
        RepSetRight(m, mem, nul, u, u.r.(lv := u.lv));
        assert mem == mem[T := mem[T].(right := c)];
      }
    }

    method SkewRightChild(T: Ptr, ghost t: Tree)
      requires Sound(mem, nul, t) && Raised(t) && t.Tree? && T == t.n
      modifies this`mem
      ensures Sound(mem, nul, SkewRight(t)) && Raised(SkewRight(t))
      ensures Framed(old(mem), mem, Nodes(t)) && mem.Keys == old(mem.Keys) && mem[nul] == old(mem[nul])
    {
      ghost var m := mem;
      RepNodes(mem, nul, t);
      SkewedAlike(t.r);
      var c := Skew(mem[T].right, t.r);
      RepSetRight(m, mem, nul, t, Skewed(t.r));
      mem := mem[T := mem[T].(right := c)];
    }

    method SkewGrandchild(T: Ptr, ghost t: Tree)
      requires Sound(mem, nul, t) && Raised(t) && t.Tree? && T == t.n
      modifies this`mem
      ensures Sound(mem, nul, SkewRightRight(t)) && Raised(SkewRightRight(t))
      ensures Framed(old(mem), mem, Nodes(t)) && mem.Keys == old(mem.Keys) && mem[nul] == old(mem[nul])
    {
      ghost var m := mem;
      RepNodes(mem, nul, t);
      var q := mem[T].right;
      assert Rep(mem, nul, t.r) && Disjoint(t.r);
      var c := Skew(mem[q].right, if t.r.Leaf? then Leaf else t.r.r);
      ghost var m1 := mem;
      mem := mem[q := mem[q].(right := c)];
      if t.r.Leaf? {
        assert mem == m;
      } else {
        SkewedAlike(t.r.r);
        RepNodes(m, nul, t.r);
        RepSetRight(m, m1, nul, t.r, Skewed(t.r.r));
        SkewRightAlike(t.r);
        RepSetRight(m, mem, nul, t, SkewRight(t.r));
        assert mem == mem[T := mem[T].(right := q)];
      }
    }

    method SplitRightChild(T: Ptr, ghost t: Tree)
      requires Sound(mem, nul, t) && Raised(t) && t.Tree? && t.r.Tree? && T == t.n
      modifies this`mem
      ensures Sound(mem, nul, SplitRight(t))
      ensures Framed(old(mem), mem, Nodes(t)) && mem.Keys == old(mem.Keys) && mem[nul] == old(mem[nul])
    {
      ghost var m := mem;
      RepNodes(mem, nul, t);
      SplittedAlike(t.r);
      var c := Split(mem[T].right, t.r);
      RepSetRight(m, mem, nul, t, Splitted(t.r));
      mem := mem[T := mem[T].(right := c)];
    }

    /** At the bottom of the search: if DeletePtr holds item, the element of T moves there and T is
        unlinked and freed. Reading through a null DeletePtr crashes. */
    method CutOut(item: int, T: Ptr, ghost t: Tree, ghost found: bool, ghost d: Ptr) returns (r: Ptr, crashed: bool)
      requires Ready() && T == Root(t, nul) && t.Tree? && Sound(mem, nul, t) && Ordered(t) && AA(t)
      requires lastPtr == T && Aimed(mem, nul, NULL, d, t, item, found)
      requires if item < t.e then t.l.Leaf? && deletePtr == d else t.r.Leaf? && deletePtr == T
      modifies this`mem, this`deletePtr
      ensures crashed <==> !found && d == NULL && Below(item, t)
      ensures !crashed ==>
        Ready() && r == Root(After(t, item, found), nul) && Effect(old(mem), mem, nul, t, item, found, d)
      ensures if !crashed && (found || item in Elems(t)) then deletePtr == nul else deletePtr == old(deletePtr)
    {
      r, crashed := T, false;
      RepNodes(mem, nul, t);
      LevNonnegative(t.l);
      BelowLeft(t, item);
      if deletePtr != nul {
        if deletePtr == NULL { crashed := true; return; }
        if item == mem[deletePtr].element {
          EffectHere(mem, nul, t, item, found, d, deletePtr);
          mem := mem[deletePtr := mem[deletePtr].(element := mem[T].element)];
          deletePtr := nul;
          r := mem[T].right;
          mem := mem - {lastPtr};
        }
      }
    }

    method RemoveLeft(item: int, T: Ptr, ghost t: Tree, ghost found: bool) returns (crashed: bool, ghost v: Tree)
      requires Valid(T, t) && Aimed(mem, nul, NULL, deletePtr, t, item, found)
      requires t.Tree? && item < t.e && lastPtr == T
      modifies this`mem, this`deletePtr, this`lastPtr
      ensures crashed <==> t.l.Tree? && !found && old(deletePtr) == NULL && Below(item, t)
      ensures t.l.Leaf? ==> mem == old(mem) && deletePtr == old(deletePtr) && lastPtr == T
      ensures !crashed && t.l.Tree? ==>
        Ready() && lastPtr in Nodes(t) && lastPtr != T && Unrepaired(mem, nul, t, v, item, found) &&
        Outside(old(mem), mem, t, found, old(deletePtr), Min(t))
      ensures !crashed && t.l.Tree? ==>
        if found || item in Elems(t) then deletePtr == nul else deletePtr == old(deletePtr) || deletePtr in Nodes(t)
      decreases t, 0
    {
      ghost var m, d := mem, deletePtr;
      RepNodes(mem, nul, t);
      BelowLeft(t, item);
      v := t.(l := After(t.l, item, found));
      var c;
      c, crashed := Remove(item, mem[T].left, t.l, found);
      if crashed { return; }
      if t.l.Tree? { EffectLeft(m, mem, nul, t, item, found, d); }
      mem := mem[T := mem[T].(left := c)];
    }

    method RemoveRight(item: int, T: Ptr, ghost t: Tree) returns (ghost v: Tree)
      requires Valid(T, t) && t.Tree? && item >= t.e && lastPtr == T && deletePtr == T
      modifies this`mem, this`deletePtr, this`lastPtr
      ensures t.r.Leaf? ==> mem == old(mem) && deletePtr == T && lastPtr == T
      ensures t.r.Tree? ==>
        Ready() && lastPtr in Nodes(t) && lastPtr != T && Unrepaired(mem, nul, t, v, item, false) &&
        Outside(old(mem), mem, t, false, nul, 0)
      ensures t.r.Tree? ==> if item in Elems(t) then deletePtr == nul else deletePtr in Nodes(t)
      decreases t, 0
    {
      ghost var m := mem;
      RepNodes(mem, nul, t);
      BelowLeft(t, item);
      v := if t.r.Leaf? then t else WithRightAfter(t, item);
      var c, crashed := Remove(item, mem[T].right, t.r, item == t.e);
      if t.r.Tree? { EffectRight(m, mem, nul, t, item); }
      mem := mem[T := mem[T].(right := c)];
    }

    /** Searches down for item; found says that the last node not above it holds it. */
    method Remove(item: int, T: Ptr, ghost t: Tree, ghost found: bool) returns (r: Ptr, crashed: bool)
      requires Valid(T, t) && Aimed(mem, nul, NULL, deletePtr, t, item, found)
      modifies this`mem, this`deletePtr, this`lastPtr
      ensures crashed <==> t.Tree? && !found && old(deletePtr) == NULL && Below(item, t)
      ensures !crashed ==> Ready() && r == Root(After(t, item, found), nul)
      ensures !crashed && t.Tree? ==> Effect(old(mem), mem, nul, t, item, found, old(deletePtr)) && lastPtr in Nodes(t)
      ensures t.Leaf? ==> mem == old(mem) && deletePtr == old(deletePtr) && lastPtr == old(lastPtr)
      ensures !crashed && t.Tree? ==>
        if found || item in Elems(t) then deletePtr == nul else deletePtr == old(deletePtr) || deletePtr in Nodes(t)
      decreases t, 1
    {
      r, crashed := T, false;
      if T != nul {
        ghost var m, d, v := mem, deletePtr, t;
        BelowLeft(t, item);
        lastPtr := T;
        if item < mem[T].element {
          crashed, v := RemoveLeft(item, T, t, found);
          if crashed { return; }
        } else {
          deletePtr := T;
          v := RemoveRight(item, T, t);
        }
        if T == lastPtr {
          r, crashed := CutOut(item, T, t, found, d);
        } else {
          ghost var m2 := mem;
          r := Repair(T, v);
          EffectRepaired(m, m2, mem, nul, t, v, item, found, d, if found then Min(t) else 0);
        }
      }
    }

    /** The DeletePtr left behind by earlier calls: null before the first, the sentinel after a
        deletion, a node of the tree after a miss. */
    ghost predicate Stale(t: Tree)
      reads this
    {
      deletePtr == NULL || deletePtr == nul || deletePtr in Nodes(t)
    }

    /** Remove as callers use it. It takes out exactly item; it reads through a null pointer exactly when
        DeletePtr was never set and item lies below every element. */
    method RemoveItem(item: int, T: Ptr, ghost t: Tree) returns (r: Ptr, crashed: bool)
      requires Valid(T, t) && Stale(t)
      modifies this`mem, this`deletePtr, this`lastPtr
      ensures crashed <==> t.Tree? && old(deletePtr) == NULL && Below(item, t)
      ensures !crashed ==> var u := Removed(t, item); Valid(r, u) && Stale(u) && Elems(u) == Elems(t) - {item}
    {
      AfterKeeps(t, item, false);
      RemovedElems(t, item);
      RepNodes(mem, nul, t);
      if item !in Elems(t) { RemovedAbsent(t, item); }
      assert Aimed(mem, nul, NULL, deletePtr, t, item, false) by {
        if deletePtr in Nodes(t) { NodeHoldsElement(mem, nul, t, deletePtr); }
      }
      r, crashed := Remove(item, T, t, false);
    }

    /** The node below T that holds x, or the sentinel. */
    method Find(x: int, T: Ptr, ghost t: Tree) returns (r: Ptr)
      requires Sentinel(mem, nul) && Rep(mem, nul, t) && Ordered(t) && T == Root(t, nul)
      ensures r == nul <==> x !in Elems(t)
      ensures r != nul ==> r in Nodes(t) && r in mem && mem[r].element == x
      decreases t
    {
      if T == nul { return nul; }
      BelowLeft(t, x);
      if x < mem[T].element {
        r := Find(x, mem[T].left, t.l);
      } else if x > mem[T].element {
        r := Find(x, mem[T].right, t.r);
      } else {
        return T;
      }
    }
  }

  lemma {:induction false} NodeHoldsElement(m: Memory, nul: Ptr, t: Tree, n: Ptr)
    requires Rep(m, nul, t) && n in Nodes(t)
    ensures n in m && m[n].element in Elems(t)
  {
    if n in Nodes(t.l) {
      NodeHoldsElement(m, nul, t.l, n);
    } else if n in Nodes(t.r) {
      NodeHoldsElement(m, nul, t.r, n);
    }
  }

  lemma {:induction false} SkewRightRightAlike(t: Tree)
    ensures Alike(t, SkewRightRight(t))
  {
    if t.Tree? && t.r.Tree? {
      SkewRightAlike(t.r);
      SameBelow(t, SkewRightRight(t));
    }
  }

  lemma {:induction false} GrownRaised(t: Tree, item: int, x: Ptr)
    requires AA(t)
    ensures Raised(Grown(t, item, x)) && Grown(t, item, x).Tree?
  {
    AARaised(t);
    if t.Tree? {
      InsertedLevels(t.l, item, x);
      InsertedLevels(t.r, item, x);
      AARaised(Inserted(t.l, item, x));
      AARaised(Inserted(t.r, item, x));
    }
  }

  /** A run of two calls that reaches the null pointer exactly when the item to remove lies below the one inserted. */
  method FirstRemoval(item: int, other: int) returns (crashed: bool)
    ensures crashed <==> other < item
  {
    var a := new AATrees();
    ghost var t := Inserted(Leaf, item, a.next);
    var T := a.Insert(item, a.nul, Leaf);
    assert item in Elems(t);
    var r;
    r, crashed := a.RemoveItem(other, T, t);
  }
}
