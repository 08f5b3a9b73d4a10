/** Boundary-tag allocation with first fit and coalescing, gao/ch8/algo8-1.c. */
module BoundaryTag {
  import opened Lists

  const MAX := 1000
  const E := 10

  /** Addresses count words from the low boundary word. */
  const NULL := -1

  /** The field a is llink in a header and uplink in a footer. */
  datatype Word = Word(a: int, tag: int, size: int, rlink: int)

  datatype Block = Block(size: int, free: bool)

  type Blocks = map<int, Block>

  // ----- Tiling -----

  ghost function End(bs: Blocks, s: int): int
    requires s in bs
  {
    s + bs[s].size
  }

  /** Blocks of at least two words, one after the other from word 1 to word MAX. */
  ghost predicate Tiles(bs: Blocks) {
    1 in bs &&
    (forall s {:trigger End(bs, s)} :: s in bs ==>
      1 <= s && bs[s].size >= 2 && (End(bs, s) == MAX + 1 || (End(bs, s) <= MAX && End(bs, s) in bs))) &&
    (forall s, t :: s in bs && t in bs && s < t ==> End(bs, s) <= t)
  }

  ghost predicate NoFreePair(bs: Blocks) {
    forall s {:trigger End(bs, s)} :: s in bs && bs[s].free && End(bs, s) in bs ==> !bs[End(bs, s)].free
  }

  /** Every word of the arena belongs to exactly one block. */
  lemma {:induction false} WordInBlock(bs: Blocks, s: int, i: int) returns (t: int)
    requires Tiles(bs) && s in bs && s <= i <= MAX
    ensures t in bs && t <= i < End(bs, t)
    ensures forall u :: u in bs && u <= i < End(bs, u) ==> u == t
    decreases MAX - s
  {
    if i < End(bs, s) {
      t := s;
    } else {
      t := WordInBlock(bs, End(bs, s), i);
    }
  }

  /** The block that ends where p starts. */
  lemma {:induction false} Before(bs: Blocks, p: int) returns (s: int)
    requires Tiles(bs) && p in bs && p != 1
    ensures s in bs && End(bs, s) == p
  {
    assert End(bs, p) <= MAX + 1;
    s := WordInBlock(bs, 1, p - 1);
    assert s < p ==> End(bs, s) <= p;
  }

  /** When everything is free there is one block. */
  lemma {:induction false} AllFree(bs: Blocks)
    requires Tiles(bs) && NoFreePair(bs) && forall s :: s in bs ==> bs[s].free
    ensures bs == map[1 := Block(MAX, true)]
  {
    assert End(bs, 1) !in bs;
    assert End(bs, 1) == MAX + 1;
    forall s | s in bs ensures s == 1 {
      assert End(bs, s) <= MAX + 1;
    }
  }

  // ----- Tags -----

  function TagOf(free: bool): int {
    if free then 0 else 1
  }

  /** Header and footer of a block agree with it. */
  ghost predicate Labelled(w: seq<Word>, s: int, b: Block) {
    0 <= s && b.size >= 2 && s + b.size <= |w| &&
    w[s].tag == TagOf(b.free) && w[s].size == b.size && w[s + b.size - 1].tag == TagOf(b.free) &&
    (b.free ==> w[s + b.size - 1].a == s)
  }

  ghost predicate Tagged(w: seq<Word>, bs: Blocks) {
    |w| == MAX + 2 && w[0].tag == 1 && w[MAX + 1].tag == 1 && forall s :: s in bs ==> Labelled(w, s, bs[s])
  }

  // ----- The circular list -----

  function Succ(ring: seq<int>, k: nat): int
    requires k < |ring|
  {
    if k + 1 == |ring| then ring[0] else ring[k + 1]
  }

  /** The links follow the list both ways. */
  ghost predicate Linked(w: seq<Word>, ring: seq<int>) {
    forall k :: 0 <= k < |ring| ==> LinkAt(w, ring, k)
  }

  ghost predicate LinkAt(w: seq<Word>, ring: seq<int>, k: nat)
    requires k < |ring|
  {
    0 <= ring[k] < |w| && 0 <= Succ(ring, k) < |w| && w[ring[k]].rlink == Succ(ring, k) && w[Succ(ring, k)].a == ring[k]
  }

  /** The list holds exactly the free blocks. */
  ghost predicate ListsFree(bs: Blocks, ring: seq<int>) {
    Distinct(ring) && forall s :: s in ring <==> s in bs && bs[s].free
  }

  function Rotated(ring: seq<int>, k: nat): seq<int>
    requires k <= |ring|
  {
    ring[k..] + ring[..k]
  }

  /** The list with p in the place of t. */
  ghost function Replaced(ring: seq<int>, t: int, p: int): seq<int> {
    seq(|ring|, i requires 0 <= i < |ring| => if ring[i] == t then p else ring[i])
  }

  lemma {:induction false} Rotate(w: seq<Word>, bs: Blocks, ring: seq<int>, k: nat)
    requires Linked(w, ring) && ListsFree(bs, ring) && k < |ring|
    ensures Linked(w, Rotated(ring, k)) && ListsFree(bs, Rotated(ring, k)) && Rotated(ring, k)[0] == ring[k]
  {
    var r, n := Rotated(ring, k), |ring|;
    forall i | 0 <= i < n ensures LinkAt(w, r, i) {
      var j := if i + k < n then i + k else i + k - n;
      assert LinkAt(w, ring, j) && r[i] == ring[j] && Succ(r, i) == Succ(ring, j);
    }
    assert ring == ring[..k] + ring[k..];
    forall i, j | 0 <= i < j < |r| ensures r[i] != r[j] {
      var x, y := if i + k < n then i + k else i + k - n, if j + k < n then j + k else j + k - n;
      assert r[i] == ring[x] && r[j] == ring[y] && x != y;
    }
  }

  /** Every state of the allocator between two calls. */
  ghost predicate Good(w: seq<Word>, pav: int, bs: Blocks, ring: seq<int>) {
    Tiles(bs) && NoFreePair(bs) && Tagged(w, bs) && ListsFree(bs, ring) && Linked(w, ring) &&
    pav == if ring == [] then NULL else ring[0]
  }

  // ----- Blocks stay apart -----

  /** The first and last words of two blocks are four different words. */
  lemma {:induction false} Apart(bs: Blocks, s: int, t: int)
    requires Tiles(bs) && s in bs && t in bs && s != t
    ensures s != t && s != End(bs, t) - 1 && End(bs, s) - 1 != t && End(bs, s) != End(bs, t)
  {
    if s < t { assert End(bs, s) <= t; } else { assert End(bs, t) <= s; }
  }

  lemma {:induction false} WithinArena(bs: Blocks, s: int)
    requires Tiles(bs) && s in bs
    ensures 1 <= s < End(bs, s) - 1 <= MAX
  {
    assert End(bs, s) <= MAX + 1;
  }

  /** A word keeps what tags say about blocks; the back link may change only in headers. */
  ghost predicate Kept(w: seq<Word>, v: seq<Word>, bs: Blocks, i: int)
    requires 0 <= i < |w| == |v|
  {
    v[i].tag == w[i].tag && v[i].size == w[i].size && (v[i].a == w[i].a || i in bs)
  }

  ghost predicate KeptOutside(w: seq<Word>, v: seq<Word>, bs: Blocks, lo: int, hi: int) {
    |v| == |w| && forall i :: 0 <= i < |w| && !(lo <= i < hi) ==> Kept(w, v, bs, i)
  }

  /** Words lo to hi - 1 are labelled anew, the blocks outside are as before. */
  lemma {:induction false} TaggedAgain(w: seq<Word>, v: seq<Word>, bs: Blocks, cs: Blocks, lo: int, hi: int)
    requires Tiles(bs) && Tagged(w, bs) && 1 <= lo <= hi <= MAX + 1 && KeptOutside(w, v, bs, lo, hi)
    requires forall s :: s in cs ==>
      Labelled(v, s, cs[s]) || (s in bs && cs[s] == bs[s] && (End(bs, s) <= lo || hi <= s))
    ensures Tagged(v, cs)
  {
    assert Kept(w, v, bs, 0) && Kept(w, v, bs, MAX + 1);
    forall s | s in cs ensures Labelled(v, s, cs[s]) {
      if !Labelled(v, s, cs[s]) {
        StillLabelled(w, v, bs, lo, hi, s);
      }
    }
  }

  lemma {:induction false} StillLabelled(w: seq<Word>, v: seq<Word>, bs: Blocks, lo: int, hi: int, s: int)
    requires Tiles(bs) && Tagged(w, bs) && KeptOutside(w, v, bs, lo, hi) && s in bs && (End(bs, s) <= lo || hi <= s)
    ensures Labelled(v, s, bs[s])
  {
    WithinArena(bs, s);
    var f := End(bs, s) - 1;
    assert Labelled(w, s, bs[s]) && Kept(w, v, bs, s) && Kept(w, v, bs, f);
    if f in bs { Apart(bs, s, f); }
  }

  // ----- Steps of the tiling -----

  /** A block becomes occupied or free. */
  lemma {:induction false} TilesRelabel(bs: Blocks, p: int, free: bool)
    requires Tiles(bs) && p in bs
    ensures Tiles(bs[p := bs[p].(free := free)])
  {
    var cs := bs[p := bs[p].(free := free)];
    assert forall s :: s in cs ==> End(cs, s) == End(bs, s);
  }

  /** The last n words of a block become a block. */
  lemma {:induction false} TilesSplit(bs: Blocks, p: int, n: int, f: bool, g: bool)
    requires Tiles(bs) && p in bs && 2 <= n <= bs[p].size - 2
    ensures Tiles(bs[p := Block(bs[p].size - n, f)][End(bs, p) - n := Block(n, g)])
    ensures End(bs, p) - n !in bs
  {
    var q := End(bs, p) - n;
    var cs := bs[p := Block(bs[p].size - n, f)][q := Block(n, g)];
    assert End(cs, p) == q && End(cs, q) == End(bs, p);
    forall s, t | s in cs && t in cs && s < t ensures End(cs, s) <= t {
      var s', t' := if s == q then p else s, if t == q then p else t;
      if s' < t' { assert End(bs, s') <= t'; }
    }
    forall s | s in cs ensures 1 <= s && cs[s].size >= 2 &&
      (End(cs, s) == MAX + 1 || (End(cs, s) <= MAX && End(cs, s) in cs)) {
      assert End(bs, if s == q then p else s) <= MAX + 1;
    }
  }

  ghost function Fused(bs: Blocks, s: int, t: int): Blocks
    requires s in bs && t in bs
  {
    (bs - {t})[s := Block(bs[s].size + bs[t].size, true)]
  }

  /** Two neighbours become one block. */
  lemma {:induction false} TilesFuse(bs: Blocks, s: int, t: int)
    requires Tiles(bs) && s in bs && t in bs && End(bs, s) == t
    ensures Tiles(Fused(bs, s, t)) && s in Fused(bs, s, t) && End(Fused(bs, s, t), s) == End(bs, t)
  {
    var cs := Fused(bs, s, t);
    assert s < t < End(bs, t);
    forall u, v | u in cs && v in cs && u < v ensures End(cs, u) <= v {
      assert End(bs, u) <= v;
      if u == s { assert t < v || v < t; }
    }
    forall u | u in cs ensures 1 <= u && cs[u].size >= 2 &&
      (End(cs, u) == MAX + 1 || (End(cs, u) <= MAX && End(cs, u) in cs)) {
      if u != s && End(bs, u) == t { Apart(bs, u, s); assert false; }
      assert End(bs, u) <= MAX + 1;
    }
  }

  // ----- Assignments to fields -----

  function SetA(w: seq<Word>, i: int, a: int): seq<Word>
  {
    if 0 <= i < |w| then w[i := w[i].(a := a)] else w
  }

  function SetTag(w: seq<Word>, i: int, tag: int): seq<Word>
  {
    if 0 <= i < |w| then w[i := w[i].(tag := tag)] else w
  }

  function SetSize(w: seq<Word>, i: int, size: int): seq<Word>
  {
    if 0 <= i < |w| then w[i := w[i].(size := size)] else w
  }

  function SetRlink(w: seq<Word>, i: int, rlink: int): seq<Word>
  {
    if 0 <= i < |w| then w[i := w[i].(rlink := rlink)] else w
  }

  type Fields = map<int, int>

  function Get(m: Fields, i: int, otherwise: int): int {
    if i in m then m[i] else otherwise
  }

  /** The words w with the given fields assigned. */
  ghost function Changed(w: seq<Word>, a: Fields, tag: Fields, size: Fields, rlink: Fields): (v: seq<Word>)
    ensures |v| == |w|
    ensures forall i :: 0 <= i < |w| ==>
      v[i] == Word(Get(a, i, w[i].a), Get(tag, i, w[i].tag), Get(size, i, w[i].size), Get(rlink, i, w[i].rlink))
  {
    seq(|w|, i requires 0 <= i < |w| =>
      Word(Get(a, i, w[i].a), Get(tag, i, w[i].tag), Get(size, i, w[i].size), Get(rlink, i, w[i].rlink)))
  }

  ghost predicate Changes(w: seq<Word>, v: seq<Word>, a: Fields, tag: Fields, size: Fields, rlink: Fields) {
    v == Changed(w, a, tag, size, rlink)
  }

  lemma {:induction false} KeptByChanges(w: seq<Word>, v: seq<Word>, bs: Blocks, a: Fields, tag: Fields, size: Fields,
      rlink: Fields, lo: int, hi: int)
    requires Changes(w, v, a, tag, size, rlink)
    requires forall i :: i in tag || i in size ==> lo <= i < hi
    requires forall i :: i in a ==> i in bs || lo <= i < hi
    ensures KeptOutside(w, v, bs, lo, hi)
  {
  }

  // ----- Steps of the list -----

  lemma {:induction false} SameLinks(w: seq<Word>, v: seq<Word>, ring: seq<int>)
    requires Linked(w, ring) && |v| == |w|
    requires forall i :: i in ring ==> 0 <= i < |w| && v[i].rlink == w[i].rlink && v[i].a == w[i].a
    ensures Linked(v, ring)
  {
    forall k | 0 <= k < |ring| ensures LinkAt(v, ring, k) {
      assert LinkAt(w, ring, k) && ring[k] in ring && Succ(ring, k) in ring;
    }
  }

  function Last(ring: seq<int>): int
    requires ring != []
  {
    ring[|ring| - 1]
  }

  lemma FirstAndLast(ring: seq<int>, k: nat)
    requires Distinct(ring) && k < |ring|
    ensures ring[k] in ring && (ring[k] == ring[0] <==> k == 0) && (ring[k] == Last(ring) <==> k == |ring| - 1)
  {
  }

  lemma DistinctRest(p: int, rest: seq<int>)
    requires Distinct([p] + rest)
    ensures Distinct(rest) && p !in rest
  {
    var r := [p] + rest;
    assert r[0] == p;
    forall k | 0 <= k < |rest| ensures rest[k] == r[k + 1] && rest[k] != p {}
  }

  /** The first node leaves the list. */
  lemma {:induction false} Unlink(w: seq<Word>, v: seq<Word>, p: int, rest: seq<int>)
    requires Linked(w, [p] + rest) && Distinct([p] + rest) && rest != [] && |v| == |w|
    requires forall i :: i in rest ==>
      0 <= i < |w| && v[i].rlink == (if i == Last(rest) then rest[0] else w[i].rlink) &&
      v[i].a == (if i == rest[0] then Last(rest) else w[i].a)
    ensures Linked(v, rest)
  {
    DistinctRest(p, rest);
    forall k | 0 <= k < |rest| ensures LinkAt(v, rest, k) {
      FirstAndLast(rest, k);
      FirstAndLast(rest, if k + 1 < |rest| then k + 1 else 0);
      TailLink(w, p, rest, k);
    }
  }

  /** A link of the tail of a list. */
  lemma {:induction false} TailLink(w: seq<Word>, p: int, rest: seq<int>, k: nat)
    requires Linked(w, [p] + rest) && k < |rest|
    ensures 0 <= rest[k] < |w|
    ensures k + 1 < |rest| ==> 0 <= rest[k + 1] < |w| && w[rest[k]].rlink == rest[k + 1] && w[rest[k + 1]].a == rest[k]
  {
    var r := [p] + rest;
    assert LinkAt(w, r, k + 1) && r[k + 1] == rest[k];
    if k + 1 < |rest| { assert Succ(r, k + 1) == rest[k + 1]; }
  }

  /** A new node before the first one. */
  lemma {:induction false} Enlist(w: seq<Word>, v: seq<Word>, p: int, ring: seq<int>)
    requires Linked(w, ring) && Distinct([p] + ring) && ring != [] && |v| == |w| && 0 <= p < |w|
    requires v[p].rlink == ring[0] && v[p].a == Last(ring)
    requires forall i :: i in ring ==>
      0 <= i < |w| && v[i].rlink == (if i == Last(ring) then p else w[i].rlink) &&
        v[i].a == (if i == ring[0] then p else w[i].a)
    ensures Linked(v, [p] + ring)
  {
    var r := [p] + ring;
    DistinctRest(p, ring);
    forall k | 0 <= k < |r| ensures LinkAt(v, r, k) {
      if k == 0 {
        FirstAndLast(ring, 0);
      } else {
        FirstAndLast(ring, k - 1);
        assert r[k] == ring[k - 1] && LinkAt(w, ring, k - 1);
        if k < |ring| { FirstAndLast(ring, k); assert Succ(r, k) == ring[k]; }
      }
    }
  }

  /** The first node gives its place to p. */
  lemma {:induction false} Substitute(w: seq<Word>, v: seq<Word>, t: int, rest: seq<int>, p: int)
    requires Linked(w, [t] + rest) && Distinct([t] + rest) && Distinct([p] + rest) && p != t && |v| == |w| &&
      0 <= p < |w|
    requires v[p].rlink == (if rest == [] then p else rest[0]) && v[p].a == (if rest == [] then p else Last(rest))
    requires forall i :: i in rest ==>
      0 <= i < |w| && v[i].rlink == (if i == Last(rest) then p else w[i].rlink) &&
        v[i].a == (if i == rest[0] then p else w[i].a)
    ensures Linked(v, [p] + rest)
  {
    var r := [p] + rest;
    DistinctRest(p, rest);
    forall k | 0 <= k < |r| ensures LinkAt(v, r, k) {
      if k == 0 {
        if rest != [] { FirstAndLast(rest, 0); assert r[1] == rest[0]; }
      } else {
        FirstAndLast(rest, k - 1);
        TailLink(w, t, rest, k - 1);
        assert r[k] == rest[k - 1];
        if k < |rest| { FirstAndLast(rest, k); assert Succ(r, k) == rest[k]; }
      }
    }
  }

  // ----- Allocation -----

  /** A free block and its neighbours in the list. */
  lemma {:induction false} FreeBlock(w: seq<Word>, bs: Blocks, ring: seq<int>, s: int)
    requires Tiles(bs) && Tagged(w, bs) && ListsFree(bs, ring) && s in ring
    ensures s in bs && bs[s].free && Labelled(w, s, bs[s]) && 1 <= s < End(bs, s) - 1 <= MAX
  {
    WithinArena(bs, s);
  }

  /** The list after p has left it; nothing if p was alone. */
  function Unlinked(w: seq<Word>, p: int, next: int, prev: int): seq<Word> {
    if next == p then w else SetRlink(SetA(w, next, prev), prev, next)
  }

  /** A whole block is granted. */
  lemma {:induction false} TakeWhole(w: seq<Word>, v: seq<Word>, bs: Blocks, p: int, rest: seq<int>)
    requires Good(w, p, bs, [p] + rest) && 0 <= p < |w|
    requires v == SetTag(SetTag(Unlinked(w, p, w[p].rlink, w[p].a), p, 1), p + w[p].size - 1, 1)
    ensures Good(v, if rest == [] then NULL else rest[0], bs[p := bs[p].(free := false)], rest)
  {
    var cs, ring := bs[p := bs[p].(free := false)], [p] + rest;
    DistinctRest(p, rest);
    FreeBlock(w, bs, ring, p);
    TilesRelabel(bs, p, false);
    NoPairRelabel(bs, p);
    ListedFree(w, bs, ring);
    FrontLinks(w, p, rest);
    var next, prev := if rest == [] then p else rest[0], if rest == [] then p else Last(rest);
    assert next in ring && prev in ring;
    TakeWholeTags(w, v, bs, p, next, prev);
    FirstApart(p, rest);
    if rest != [] { UnlinkFirst(w, v, p, rest, p + w[p].size - 1); }
  }

  lemma {:induction false} NoPairRelabel(bs: Blocks, p: int)
    requires NoFreePair(bs) && p in bs
    ensures NoFreePair(bs[p := bs[p].(free := false)])
  {
    var cs := bs[p := bs[p].(free := false)];
    assert forall s :: s in cs ==> End(cs, s) == End(bs, s);
  }

  lemma FirstApart(p: int, rest: seq<int>)
    requires Distinct([p] + rest)
    ensures forall s :: s in rest <==> s in [p] + rest && s != p
  {
    DistinctRest(p, rest);
    assert forall s :: s in [p] + rest <==> s == p || s in rest;
  }

  lemma {:induction false} UnlinkFirst(w: seq<Word>, v: seq<Word>, p: int, rest: seq<int>, f: int)
    requires Linked(w, [p] + rest) && Distinct([p] + rest) && rest != [] && forall i :: i in rest ==> 0 <= i < |w|
    requires v == SetTag(SetTag(Unlinked(w, p, rest[0], Last(rest)), p, 1), f, 1)
    ensures Linked(v, rest)
  {
    DistinctRest(p, rest);
    assert rest[0] in rest && Last(rest) in rest;
    var u := Unlinked(w, p, rest[0], Last(rest));
    assert forall i :: 0 <= i < |w| ==> v[i].a == u[i].a && v[i].rlink == u[i].rlink;
    Unlink(w, v, p, rest);
  }

  lemma {:induction false} ListedFree(w: seq<Word>, bs: Blocks, ring: seq<int>)
    requires Tiles(bs) && Tagged(w, bs) && ListsFree(bs, ring)
    ensures forall i :: i in ring ==> i in bs && bs[i].free && 1 <= i < MAX
  {
    forall i | i in ring ensures i in bs && bs[i].free && 1 <= i < MAX { FreeBlock(w, bs, ring, i); }
  }

  lemma {:induction false} TakeWholeTags(w: seq<Word>, v: seq<Word>, bs: Blocks, p: int, next: int, prev: int)
    requires Tiles(bs) && Tagged(w, bs) && p in bs && next in bs && prev in bs && 0 <= p < |w|
    requires v == SetTag(SetTag(Unlinked(w, p, next, prev), p, 1), p + w[p].size - 1, 1)
    ensures Tagged(v, bs[p := bs[p].(free := false)])
  {
    WithinArena(bs, p);
    WithinArena(bs, next);
    WithinArena(bs, prev);
    assert Labelled(w, p, bs[p]);
    var u := Unlinked(w, p, next, prev);
    assert forall i :: 0 <= i < |w| ==> Kept(w, u, bs, i);
    var f := p + w[p].size - 1;
    forall i | 0 <= i < |w| && i != p && i != f ensures Kept(w, v, bs, i) { assert v[i] == u[i] && Kept(w, u, bs, i); }
    assert Labelled(v, p, bs[p].(free := false));
    OthersOutside(bs, p);
    TaggedAgain(w, v, bs, bs[p := bs[p].(free := false)], p, End(bs, p));
  }

  lemma {:induction false} OthersOutside(bs: Blocks, p: int)
    requires Tiles(bs) && p in bs
    ensures forall s :: s in bs && s != p ==> End(bs, s) <= p || End(bs, p) <= s
  {
  }

  lemma {:induction false} FrontLinks(w: seq<Word>, p: int, rest: seq<int>)
    requires Linked(w, [p] + rest)
    ensures 0 <= p < |w| && w[p].rlink == (if rest == [] then p else rest[0]) &&
      w[p].a == (if rest == [] then p else Last(rest))
  {
    var r := [p] + rest;
    assert LinkAt(w, r, 0) && LinkAt(w, r, |rest|);
  }

  /** The last n words of a block are granted, the rest stays in the list. */
  lemma {:induction false} TakePart(w: seq<Word>, v: seq<Word>, pav: int, bs: Blocks, ring: seq<int>, p: int, n: int,
      f: int, g: int)
    requires Good(w, pav, bs, ring) && p in ring && p in bs && 2 <= n && bs[p].size - n > E
    requires f == End(bs, p) - 1 && g == f - n
    requires v == SetSize(SetTag(SetA(SetTag(SetSize(SetTag(w, f, 1), p, bs[p].size - n), g, 0), g, p), g + 1, 1),
      g + 1, n)
    ensures Good(v, pav, bs[p := Block(bs[p].size - n, true)][g + 1 := Block(n, false)], ring) && g + 1 !in bs
  {
    FreeBlock(w, bs, ring, p);
    SplitShape(bs, ring, p, n);
    PartTags(w, v, bs, p, n, f, g);
    ListedFree(w, bs, ring);
    if g in bs { Apart(bs, p, g); }
    SameLinks(w, v, ring);
  }

  lemma {:induction false} PartTags(w: seq<Word>, v: seq<Word>, bs: Blocks, p: int, n: int, f: int, g: int)
    requires Tiles(bs) && Tagged(w, bs) && p in bs && bs[p].free && 2 <= n && bs[p].size - n > E
    requires f == End(bs, p) - 1 && g == f - n
    requires v == SetSize(SetTag(SetA(SetTag(SetSize(SetTag(w, f, 1), p, bs[p].size - n), g, 0), g, p), g + 1, 1),
      g + 1, n)
    ensures Tagged(v, bs[p := Block(bs[p].size - n, true)][g + 1 := Block(n, false)])
  {
    var cs := bs[p := Block(bs[p].size - n, true)][g + 1 := Block(n, false)];
    WithinArena(bs, p);
    assert Labelled(w, p, bs[p]);
    assert forall i :: 0 <= i < |w| && !(p <= i < End(bs, p)) ==> v[i] == w[i];
    assert Labelled(v, p, cs[p]) && Labelled(v, g + 1, cs[g + 1]);
    OthersOutside(bs, p);
    TaggedAgain(w, v, bs, cs, p, End(bs, p));
  }

  lemma {:induction false} SplitShape(bs: Blocks, ring: seq<int>, p: int, n: int)
    requires Tiles(bs) && NoFreePair(bs) && ListsFree(bs, ring) && p in bs && bs[p].free && 2 <= n <= bs[p].size - 2
    ensures End(bs, p) - n !in bs && Tiles(bs[p := Block(bs[p].size - n, true)][End(bs, p) - n := Block(n, false)])
    ensures NoFreePair(bs[p := Block(bs[p].size - n, true)][End(bs, p) - n := Block(n, false)])
    ensures ListsFree(bs[p := Block(bs[p].size - n, true)][End(bs, p) - n := Block(n, false)], ring)
  {
    TilesSplit(bs, p, n, true, false);
    SplitPairs(bs, p, n);
  }

  lemma {:induction false} SplitPairs(bs: Blocks, p: int, n: int)
    requires Tiles(bs) && NoFreePair(bs) && p in bs && bs[p].free && 2 <= n <= bs[p].size - 2
    ensures NoFreePair(bs[p := Block(bs[p].size - n, true)][End(bs, p) - n := Block(n, false)])
  {
    var q := End(bs, p) - n;
    var cs := bs[p := Block(bs[p].size - n, true)][q := Block(n, false)];
    TilesSplit(bs, p, n, true, false);
    forall s | s in cs && cs[s].free && End(cs, s) in cs ensures !cs[End(cs, s)].free {
      if s != p { assert End(bs, s) == End(cs, s); }
    }
  }

  /** The words after the last n of the size words of block q have been cut off. */
  function CutWords(w: seq<Word>, q: int, size: int, n: int): seq<Word> {
    var f, g := q + size - 1, q + size - n - 1;
    SetSize(SetTag(SetA(SetTag(SetSize(SetTag(w, f, 1), q, size - n), g, 0), g, q), g + 1, 1), g + 1, n)
  }

  /** The last n words of block q are granted as block p. */
  ghost function CutBlocks(bs: Blocks, q: int, p: int, n: int): Blocks
    requires q in bs
  {
    bs[q := Block(bs[q].size - n, true)][p := Block(n, false)]
  }

  lemma {:induction false} TakePartRefocused(w: seq<Word>, v: seq<Word>, bs: Blocks, ring: seq<int>, q: int, n: int,
      p: int, next: int)
      returns (cs: Blocks, r: seq<int>)
    requires Good(w, q, bs, ring) && ring != [] && ring == [q] + ring[1..] && q in bs && 2 <= n &&
      bs[q].size - n > E && p == End(bs, q) - n
    requires 0 <= q < |w| && next == w[q].rlink
    requires v == CutWords(w, q, bs[q].size, n)
    ensures cs == CutBlocks(bs, q, p, n)
    ensures Good(v, next, cs, r) && p !in bs && Granted(cs) == Granted(bs)[p := n] && r == ring[1..] + [q]
  {
    cs := bs[q := Block(bs[q].size - n, true)][p := Block(n, false)];
    assert q in ring;
    FreeBlock(w, bs, ring, q);
    TakePart(w, v, q, bs, ring, q, n, p + n - 1, p - 1);
    GrantedCut(bs, q, p, n);
    FrontLinks(w, q, ring[1..]);
    assert next in ring;
    var k: nat;
    r, k := Refocus(v, cs, ring, next);
    assert next == ring[if |ring| > 1 then 1 else 0];
    assert k == if |ring| > 1 then 1 else 0;
  }

  // ----- Reclaiming -----

  /** A list with the same nodes that starts at x. */
  lemma {:induction false} Refocus(w: seq<Word>, bs: Blocks, ring: seq<int>, x: int) returns (r: seq<int>, k: nat)
    requires Linked(w, ring) && ListsFree(bs, ring) && x in ring
    ensures Linked(w, r) && ListsFree(bs, r) && r != [] && r[0] == x && |r| == |ring|
    ensures k < |ring| && ring[k] == x && r == Rotated(ring, k)
  {
    k :| k < |ring| && ring[k] == x;
    Rotate(w, bs, ring, k);
    r := Rotated(ring, k);
  }

  /** The word before a block tells whether its left neighbour is free. */
  lemma {:induction false} LeftTag(w: seq<Word>, bs: Blocks, p: int) returns (s: int)
    requires Tiles(bs) && Tagged(w, bs) && p in bs
    ensures 1 <= p < |w| && (w[p - 1].tag == 0 || w[p - 1].tag == 1)
    ensures w[p - 1].tag == 0 ==> s in bs && bs[s].free && End(bs, s) == p && w[p - 1].a == s
    ensures w[p - 1].tag != 0 ==> forall u :: u in bs && End(bs, u) == p ==> !bs[u].free
  {
    WithinArena(bs, p);
    if p == 1 {
      s := 0;
      NoneBeforeFirst(bs);
    } else {
      s := Before(bs, p);
      FooterTag(w, bs, s);
      OneBefore(bs, s);
    }
  }

  lemma {:induction false} FooterTag(w: seq<Word>, bs: Blocks, s: int)
    requires Tagged(w, bs) && s in bs
    ensures 0 <= End(bs, s) - 1 < |w| && w[End(bs, s) - 1].tag == TagOf(bs[s].free) &&
      (bs[s].free ==> w[End(bs, s) - 1].a == s)
  {
    assert Labelled(w, s, bs[s]);
  }

  lemma {:induction false} NoneBeforeFirst(bs: Blocks)
    requires Tiles(bs)
    ensures forall u :: u in bs ==> End(bs, u) != 1
  {
    forall u | u in bs ensures End(bs, u) != 1 { WithinArena(bs, u); }
  }

  lemma {:induction false} OneBefore(bs: Blocks, s: int)
    requires Tiles(bs) && s in bs
    ensures forall u :: u in bs && End(bs, u) == End(bs, s) ==> u == s
  {
    forall u | u in bs && u != s ensures End(bs, u) != End(bs, s) { Apart(bs, u, s); }
  }

  /** The word after a block tells whether its right neighbour is free. */
  lemma {:induction false} RightTag(w: seq<Word>, bs: Blocks, p: int)
    requires Tiles(bs) && Tagged(w, bs) && p in bs
    ensures 0 <= End(bs, p) < |w| && (w[End(bs, p)].tag == 0 || w[End(bs, p)].tag == 1)
    ensures w[End(bs, p)].tag == 0 <==> End(bs, p) in bs && bs[End(bs, p)].free
  {
    var t := End(bs, p);
    WithinArena(bs, p);
    if t in bs { WithinArena(bs, t); assert Labelled(w, t, bs[t]); }
  }

  ghost predicate NeighboursTaken(bs: Blocks, p: int)
    requires p in bs
  {
    (End(bs, p) in bs ==> !bs[End(bs, p)].free) && forall u :: u in bs && End(bs, u) == p ==> !bs[u].free
  }

  lemma {:induction false} NoPairFreed(bs: Blocks, p: int)
    requires Tiles(bs) && NoFreePair(bs) && p in bs && NeighboursTaken(bs, p)
    ensures NoFreePair(bs[p := bs[p].(free := true)])
  {
    var cs := bs[p := bs[p].(free := true)];
    WithinArena(bs, p);
    forall s | s in cs && cs[s].free && End(cs, s) in cs ensures !cs[End(cs, s)].free {
      assert End(bs, s) == End(cs, s);
    }
  }

  /** Header and footer of a reclaimed block. */
  function FreeTags(w: seq<Word>, p: int, f: int): seq<Word> {
    SetTag(SetA(SetTag(w, p, 0), f, p), f, 0)
  }

  function AloneWords(w: seq<Word>, p: int, f: int): seq<Word> {
    FreeTags(SetA(SetRlink(w, p, p), p, p), p, f)
  }

  ghost function InsertWords(w: seq<Word>, p: int, f: int, next: int, prev: int): seq<Word> {
    Changed(w, map[p := prev, f := p, next := p], map[p := 0, f := 0], map[], map[prev := p, p := next])
  }

  ghost function LeftWords(w: seq<Word>, s: int, size: int, f: int): seq<Word> {
    Changed(w, map[f := s], map[f := 0], map[s := size], map[])
  }

  ghost function RightWords(w: seq<Word>, p: int, t: int, size: int, f: int, prev: int, next: int): seq<Word> {
    if prev == t then Changed(w, map[p := p, f := p], map[p := 0], map[p := size], map[t := p, p := p])
    else Changed(w, map[p := prev, f := p, next := p], map[p := 0], map[p := size], map[prev := p, p := next])
  }

  ghost function BothWords(w: seq<Word>, s: int, size: int, prev: int, next: int, f: int): seq<Word> {
    Changed(w, map[next := prev, f := s], map[], map[s := size], map[prev := next])
  }

  /** The list was empty. */
  lemma {:induction false} ReclaimAlone(w: seq<Word>, v: seq<Word>, bs: Blocks, p: int, f: int)
    requires Good(w, NULL, bs, []) && p in bs && f == End(bs, p) - 1
    requires v == AloneWords(w, p, f)
    ensures Good(v, p, bs[p := bs[p].(free := true)], [p])
  {
    var cs := bs[p := bs[p].(free := true)];
    WithinArena(bs, p);
    TilesRelabel(bs, p, true);
    assert forall s :: s in bs ==> s !in [] && !bs[s].free;
    NoPairFreed(bs, p);
    assert Labelled(w, p, bs[p]) && Labelled(v, p, cs[p]);
    OthersOutside(bs, p);
    TaggedAgain(w, v, bs, cs, p, End(bs, p));
    assert LinkAt(v, [p], 0);
  }

  /** Both neighbours are occupied: the block becomes the first of the list. */
  lemma {:induction false} ReclaimInsert(w: seq<Word>, v: seq<Word>, pav: int, bs: Blocks, ring: seq<int>, p: int,
      f: int)
    requires Good(w, pav, bs, ring) && ring != [] && p in bs && !bs[p].free && NeighboursTaken(bs, p) &&
      f == End(bs, p) - 1
    requires v == InsertWords(w, p, f, pav, Last(ring))
    ensures Good(v, p, bs[p := bs[p].(free := true)], [p] + ring)
  {
    WithinArena(bs, p);
    ListedFree(w, bs, ring);
    assert ring[0] in ring && Last(ring) in ring;
    Apart(bs, p, ring[0]);
    InsertShape(bs, ring, p);
    InsertTags(w, v, bs, p, f, Last(ring), pav);
    InsertLinks(w, v, bs, ring, p, f);
  }

  lemma {:induction false} InsertShape(bs: Blocks, ring: seq<int>, p: int)
    requires Tiles(bs) && NoFreePair(bs) && ListsFree(bs, ring) && p in bs && !bs[p].free && NeighboursTaken(bs, p)
    ensures Tiles(bs[p := bs[p].(free := true)]) && NoFreePair(bs[p := bs[p].(free := true)])
    ensures ListsFree(bs[p := bs[p].(free := true)], [p] + ring)
  {
    TilesRelabel(bs, p, true);
    NoPairFreed(bs, p);
    assert p !in ring;
  }

  lemma {:induction false} InsertLinks(w: seq<Word>, v: seq<Word>, bs: Blocks, ring: seq<int>, p: int, f: int)
    requires Linked(w, ring) && Distinct([p] + ring) && ring != [] && Tiles(bs) && p in bs && |w| == MAX + 2
    requires f == End(bs, p) - 1 && 0 <= p < |w| && forall i :: i in ring ==> i in bs && 1 <= i < MAX
    requires v == InsertWords(w, p, f, ring[0], Last(ring))
    ensures Linked(v, [p] + ring)
  {
    DistinctRest(p, ring);
    WithinArena(bs, p);
    assert ring[0] in ring && Last(ring) in ring;
    forall i | i in ring ensures i != f { Apart(bs, i, p); }
    Enlist(w, v, p, ring);
  }

  lemma {:induction false} InsertTags(w: seq<Word>, v: seq<Word>, bs: Blocks, p: int, f: int, prev: int, next: int)
    requires Tiles(bs) && Tagged(w, bs) && p in bs && f == End(bs, p) - 1 && next in bs && next != p
    requires v == InsertWords(w, p, f, next, prev)
    ensures Tagged(v, bs[p := bs[p].(free := true)])
  {
    WithinArena(bs, p);
    Apart(bs, p, next);
    assert Labelled(w, p, bs[p]);
    assert v[p].tag == 0 && v[f].tag == 0 && v[f].a == p && v[p].size == w[p].size;
    KeptByChanges(w, v, bs, map[p := prev, f := p, next := p], map[p := 0, f := 0], map[], map[prev := p, p := next],
      p, End(bs, p));
    TaggedRelabel(w, v, bs, p);
  }

  lemma {:induction false} TaggedRelabel(w: seq<Word>, v: seq<Word>, bs: Blocks, p: int)
    requires Tiles(bs) && Tagged(w, bs) && p in bs && KeptOutside(w, v, bs, p, End(bs, p)) &&
      Labelled(v, p, bs[p].(free := true))
    ensures Tagged(v, bs[p := bs[p].(free := true)])
  {
    WithinArena(bs, p);
    OthersOutside(bs, p);
    TaggedAgain(w, v, bs, bs[p := bs[p].(free := true)], p, End(bs, p));
  }

  /** The left neighbour s grows over the block. */
  lemma {:induction false} ReclaimLeft(w: seq<Word>, v: seq<Word>, pav: int, bs: Blocks, ring: seq<int>, s: int,
      p: int, f: int)
    requires Good(w, pav, bs, ring) && s in bs && bs[s].free && p in bs && !bs[p].free && End(bs, s) == p &&
      f == End(bs, p) - 1
    requires End(bs, p) in bs ==> !bs[End(bs, p)].free
    requires v == LeftWords(w, s, bs[s].size + bs[p].size, f)
    ensures Good(v, pav, Fused(bs, s, p), ring)
  {
    var cs := Fused(bs, s, p);
    WithinArena(bs, s);
    WithinArena(bs, p);
    TilesFuse(bs, s, p);
    FusePairs(bs, s, p);
    LeftTags(w, v, bs, s, p, f);
    ListedFree(w, bs, ring);
    if f in bs { Apart(bs, p, f); }
    SameLinks(w, v, ring);
  }

  lemma {:induction false} TaggedFused(w: seq<Word>, v: seq<Word>, bs: Blocks, s: int, t: int)
    requires Tiles(bs) && Tagged(w, bs) && s in bs && t in bs && End(bs, s) == t && KeptOutside(w, v, bs, s, End(bs, t))
    requires Labelled(v, s, Fused(bs, s, t)[s])
    ensures Tagged(v, Fused(bs, s, t))
  {
    WithinArena(bs, s);
    WithinArena(bs, t);
    OthersOutside(bs, s);
    OthersOutside(bs, t);
    TaggedAgain(w, v, bs, Fused(bs, s, t), s, End(bs, t));
  }

  lemma {:induction false} TaggedFusedTwice(w: seq<Word>, v: seq<Word>, bs: Blocks, s: int, p: int, t: int)
    requires Tiles(bs) && Tagged(w, bs) && s in bs && p in bs && t in bs && End(bs, s) == p && End(bs, p) == t
    requires s in Fused(bs, s, p) && t in Fused(bs, s, p)
    requires KeptOutside(w, v, bs, s, End(bs, t)) && Labelled(v, s, Fused(Fused(bs, s, p), s, t)[s])
    ensures Tagged(v, Fused(Fused(bs, s, p), s, t))
  {
    WithinArena(bs, s);
    WithinArena(bs, p);
    WithinArena(bs, t);
    OthersOutside(bs, s);
    OthersOutside(bs, p);
    OthersOutside(bs, t);
    TaggedAgain(w, v, bs, Fused(Fused(bs, s, p), s, t), s, End(bs, t));
  }

  lemma {:induction false} LeftTags(w: seq<Word>, v: seq<Word>, bs: Blocks, s: int, p: int, f: int)
    requires Tiles(bs) && Tagged(w, bs) && s in bs && bs[s].free && p in bs && End(bs, s) == p && f == End(bs, p) - 1
    requires v == LeftWords(w, s, bs[s].size + bs[p].size, f)
    ensures Tagged(v, Fused(bs, s, p))
  {
    var cs := Fused(bs, s, p);
    WithinArena(bs, s);
    WithinArena(bs, p);
    assert Labelled(w, s, bs[s]) && Labelled(v, s, cs[s]);
    TaggedFused(w, v, bs, s, p);
  }

  lemma {:induction false} FusePairs(bs: Blocks, s: int, t: int)
    requires Tiles(bs) && NoFreePair(bs) && s in bs && t in bs && End(bs, s) == t
    requires End(bs, t) in bs ==> !bs[End(bs, t)].free
    requires forall u :: u in bs && End(bs, u) == s ==> !bs[u].free
    ensures NoFreePair(Fused(bs, s, t))
  {
    var cs := Fused(bs, s, t);
    WithinArena(bs, s);
    WithinArena(bs, t);
    forall u | u in cs && cs[u].free && End(cs, u) in cs ensures !cs[End(cs, u)].free {
      if u != s {
        assert End(bs, u) == End(cs, u) && bs[u].free;
        assert End(bs, u) != s;
      } else {
        assert End(cs, s) == End(bs, t);
      }
    }
  }

  /** The right neighbour t joins the block, which takes its place in the list. */
  lemma {:induction false} ReclaimRight(w: seq<Word>, v: seq<Word>, bs: Blocks, rest: seq<int>, p: int, t: int, f: int)
    requires Good(w, t, bs, [t] + rest) && p in bs && !bs[p].free && t in bs && End(bs, p) == t && f == End(bs, t) - 1
    requires 0 <= p < |w| && 0 <= t < |w| && forall u :: u in bs && End(bs, u) == p ==> !bs[u].free
    requires v == RightWords(w, p, t, bs[p].size + bs[t].size, f, w[t].a, w[t].rlink)
    ensures Good(v, p, Fused(bs, p, t), [p] + rest)
  {
    RightShape(bs, rest, p, t);
    ListedFree(w, bs, [t] + rest);
    FirstApart(t, rest);
    assert ([t] + rest)[0] == t;
    RightMemory(w, v, bs, rest, p, t, f);
  }

  lemma {:induction false} RightShape(bs: Blocks, rest: seq<int>, p: int, t: int)
    requires Tiles(bs) && NoFreePair(bs) && ListsFree(bs, [t] + rest) && p in bs && !bs[p].free && t in bs &&
      End(bs, p) == t
    requires forall u :: u in bs && End(bs, u) == p ==> !bs[u].free
    ensures Tiles(Fused(bs, p, t)) && NoFreePair(Fused(bs, p, t)) && ListsFree(Fused(bs, p, t), [p] + rest)
  {
    var ring := [t] + rest;
    assert ring[0] == t && t in ring;
    TilesFuse(bs, p, t);
    FusePairs(bs, p, t);
    FirstApart(t, rest);
    DistinctRest(t, rest);
    assert p !in rest;
    assert forall s :: s in [p] + rest <==> s == p || s in rest;
  }

  lemma {:induction false} RightMemory(w: seq<Word>, v: seq<Word>, bs: Blocks, rest: seq<int>, p: int, t: int, f: int)
    requires Tiles(bs) && Tagged(w, bs) && Linked(w, [t] + rest) && Distinct([t] + rest) && Distinct([p] + rest)
    requires p in bs && t in bs && bs[t].free && End(bs, p) == t && f == End(bs, t) - 1 && 0 <= p < |w| && 0 <= t < |w|
    requires forall i :: i in rest ==> i in bs && 1 <= i < MAX
    requires v == RightWords(w, p, t, bs[p].size + bs[t].size, f, w[t].a, w[t].rlink)
    ensures Tagged(v, Fused(bs, p, t)) && Linked(v, [p] + rest)
  {
    FrontLinks(w, t, rest);
    DistinctRest(t, rest);
    DistinctRest(p, rest);
    WithinArena(bs, p);
    WithinArena(bs, t);
    if rest == [] {
      RightTags(w, v, bs, p, t, map[p := p, f := p], map[t := p, p := p]);
    } else {
      assert rest[0] in rest && Last(rest) in rest;
      RightTags(w, v, bs, p, t, map[p := Last(rest), f := p, rest[0] := p], map[Last(rest) := p, p := rest[0]]);
    }
    RightLinks(w, v, bs, rest, p, t);
  }

  lemma {:induction false} RightTags(w: seq<Word>, v: seq<Word>, bs: Blocks, p: int, t: int, a: Fields, rlink: Fields)
    requires Tiles(bs) && Tagged(w, bs) && p in bs && t in bs && End(bs, p) == t && bs[t].free
    requires End(bs, t) - 1 in a && a[End(bs, t) - 1] == p && forall i :: i in a ==> i in bs || i == End(bs, t) - 1
    requires Changes(w, v, a, map[p := 0], map[p := bs[p].size + bs[t].size], rlink)
    ensures Tagged(v, Fused(bs, p, t))
  {
    var cs := Fused(bs, p, t);
    WithinArena(bs, p);
    WithinArena(bs, t);
    assert Labelled(w, t, bs[t]);
    assert v[p].tag == 0 && v[End(bs, t) - 1].tag == w[End(bs, t) - 1].tag;
    assert Labelled(v, p, cs[p]);
    KeptByChanges(w, v, bs, a, map[p := 0], map[p := bs[p].size + bs[t].size], rlink, p, End(bs, t));
    TaggedFused(w, v, bs, p, t);
  }

  lemma {:induction false} RightLinks(w: seq<Word>, v: seq<Word>, bs: Blocks, rest: seq<int>, p: int, t: int)
    requires Linked(w, [t] + rest) && Distinct([t] + rest) && Distinct([p] + rest) && p != t
    requires Tiles(bs) && p in bs && t in bs && 0 <= p < |w| && |w| == MAX + 2
    requires forall i :: i in rest ==> i in bs && 1 <= i < MAX
    requires v == RightWords(w, p, t, bs[p].size + bs[t].size, End(bs, t) - 1,
                          if rest == [] then t else Last(rest), if rest == [] then t else rest[0])
    ensures Linked(v, [p] + rest)
  {
    DistinctRest(t, rest);
    DistinctRest(p, rest);
    Apart(bs, p, t);
    forall i | i in rest ensures i != End(bs, t) - 1 { Apart(bs, i, t); }
    Substitute(w, v, t, rest, p);
  }

  /** The left neighbour s grows over the block and the right neighbour t, which leaves the list. */
  lemma {:induction false} ReclaimBoth(w: seq<Word>, v: seq<Word>, bs: Blocks, rest: seq<int>, s: int, p: int, t: int)
    requires Good(w, t, bs, [t] + rest) && s in bs && bs[s].free && p in bs && !bs[p].free && t in bs
    requires End(bs, s) == p && End(bs, p) == t && 0 <= t < |w|
    requires v == BothWords(w, s, bs[s].size + (bs[p].size + bs[t].size), w[t].a, w[t].rlink, End(bs, t) - 1)
    ensures s in rest && t in Fused(bs, s, p) && s in Fused(bs, s, p)
    ensures Good(v, rest[0], Fused(Fused(bs, s, p), s, t), rest)
  {
    BothShape(bs, rest, s, p, t);
    ListedFree(w, bs, [t] + rest);
    FirstApart(t, rest);
    assert ([t] + rest)[0] == t;
    BothMemory(w, v, bs, rest, s, p, t);
  }

  lemma {:induction false} BothShape(bs: Blocks, rest: seq<int>, s: int, p: int, t: int)
    requires Tiles(bs) && NoFreePair(bs) && ListsFree(bs, [t] + rest) && s in bs && bs[s].free && p in bs &&
      !bs[p].free && t in bs
    requires End(bs, s) == p && End(bs, p) == t
    ensures s in rest && t in Fused(bs, s, p) && s in Fused(bs, s, p)
    ensures Tiles(Fused(Fused(bs, s, p), s, t)) && NoFreePair(Fused(Fused(bs, s, p), s, t))
    ensures ListsFree(Fused(Fused(bs, s, p), s, t), rest)
  {
    var ring := [t] + rest;
    WithinArena(bs, s);
    WithinArena(bs, p);
    assert ring[0] == t && t in ring;
    FirstApart(t, rest);
    DistinctRest(t, rest);
    TilesFuse(bs, s, p);
    TilesFuse(Fused(bs, s, p), s, t);
    BothPairs(bs, s, p, t);
  }

  lemma {:induction false} BothMemory(w: seq<Word>, v: seq<Word>, bs: Blocks, rest: seq<int>, s: int, p: int, t: int)
    requires Tiles(bs) && Tagged(w, bs) && Linked(w, [t] + rest) && Distinct([t] + rest) && rest != []
    requires s in bs && bs[s].free && p in bs && t in bs && bs[t].free && End(bs, s) == p && End(bs, p) == t &&
      0 <= t < |w|
    requires t in Fused(bs, s, p) && s in Fused(bs, s, p) && forall i :: i in rest ==> i in bs && 1 <= i < MAX
    requires v == BothWords(w, s, bs[s].size + (bs[p].size + bs[t].size), w[t].a, w[t].rlink, End(bs, t) - 1)
    ensures Tagged(v, Fused(Fused(bs, s, p), s, t)) && Linked(v, rest)
  {
    FrontLinks(w, t, rest);
    WithinArena(bs, s);
    assert rest[0] in rest && Last(rest) in rest;
    BothTagsBetween(w, v, bs, s, p, t, Last(rest), rest[0]);
    BothLinks(w, v, bs, rest, s, t, bs[s].size + (bs[p].size + bs[t].size));
  }

  lemma {:induction false} BothTagsBetween(w: seq<Word>, v: seq<Word>, bs: Blocks, s: int, p: int, t: int, prev: int,
      next: int)
    requires Tiles(bs) && Tagged(w, bs) && s in bs && bs[s].free && p in bs && t in bs && bs[t].free
    requires End(bs, s) == p && End(bs, p) == t && t in Fused(bs, s, p) && s in Fused(bs, s, p) && next in bs
    requires v == BothWords(w, s, bs[s].size + (bs[p].size + bs[t].size), prev, next, End(bs, t) - 1)
    ensures Tagged(v, Fused(Fused(bs, s, p), s, t))
  {
    BothTags(w, v, bs, s, p, t, map[next := prev, End(bs, t) - 1 := s], map[prev := next]);
  }

  lemma {:induction false} BothLinks(w: seq<Word>, v: seq<Word>, bs: Blocks, rest: seq<int>, s: int, t: int, size: int)
    requires Linked(w, [t] + rest) && Distinct([t] + rest) && rest != []
    requires Tiles(bs) && t in bs && |w| == MAX + 2 && forall i :: i in rest ==> i in bs && 1 <= i < MAX
    requires Changes(w, v, map[rest[0] := Last(rest), End(bs, t) - 1 := s], map[], map[s := size],
      map[Last(rest) := rest[0]])
    ensures Linked(v, rest)
  {
    DistinctRest(t, rest);
    forall i | i in rest ensures i != End(bs, t) - 1 { Apart(bs, i, t); }
    Unlink(w, v, t, rest);
  }

  lemma {:induction false} BothPairs(bs: Blocks, s: int, p: int, t: int)
    requires Tiles(bs) && NoFreePair(bs) && s in bs && bs[s].free && p in bs && t in bs && bs[t].free
    requires End(bs, s) == p && End(bs, p) == t && t in Fused(bs, s, p) && s in Fused(bs, s, p)
    ensures NoFreePair(Fused(Fused(bs, s, p), s, t))
  {
    var cs := Fused(Fused(bs, s, p), s, t);
    WithinArena(bs, s);
    WithinArena(bs, p);
    WithinArena(bs, t);
    assert cs[s].size == bs[s].size + bs[p].size + bs[t].size && End(cs, s) == End(bs, t);
    forall u | u in cs && cs[u].free && End(cs, u) in cs ensures !cs[End(cs, u)].free {
      if u != s { assert End(bs, u) == End(cs, u); }
    }
  }

  lemma {:induction false} BothTags(w: seq<Word>, v: seq<Word>, bs: Blocks, s: int, p: int, t: int, a: Fields,
      rlink: Fields)
    requires Tiles(bs) && Tagged(w, bs) && s in bs && bs[s].free && p in bs && t in bs && bs[t].free
    requires End(bs, s) == p && End(bs, p) == t && t in Fused(bs, s, p) && s in Fused(bs, s, p)
    requires End(bs, t) - 1 in a && a[End(bs, t) - 1] == s && forall i :: i in a ==> i in bs || i == End(bs, t) - 1
    requires Changes(w, v, a, map[], map[s := bs[s].size + (bs[p].size + bs[t].size)], rlink)
    ensures Tagged(v, Fused(Fused(bs, s, p), s, t))
  {
    var cs := Fused(Fused(bs, s, p), s, t);
    WithinArena(bs, s);
    WithinArena(bs, p);
    WithinArena(bs, t);
    assert Labelled(w, s, bs[s]) && Labelled(w, t, bs[t]);
    assert v[s].tag == w[s].tag && v[End(bs, t) - 1].tag == w[End(bs, t) - 1].tag;
    assert Labelled(v, s, cs[s]);
    KeptByChanges(w, v, bs, a, map[], map[s := bs[s].size + (bs[p].size + bs[t].size)], rlink, s, End(bs, t));
    TaggedFusedTwice(w, v, bs, s, p, t);
  }

  /** The list with t in front. */
  lemma {:induction false} Fronted(w: seq<Word>, pav: int, bs: Blocks, ring: seq<int>, t: int)
      returns (rest: seq<int>, k: nat)
    requires Good(w, pav, bs, ring) && t in bs && bs[t].free
    ensures k < |ring| && ring[k] == t && [t] + rest == Rotated(ring, k)
    ensures Good(w, t, bs, [t] + rest) && |rest| + 1 == |ring| && pav in [t] + rest && 0 <= t < |w|
    ensures w[t].rlink == (if rest == [] then t else rest[0]) && w[t].a == (if rest == [] then t else Last(rest))
    ensures forall i :: i in rest ==> i in bs && 1 <= i < MAX
    ensures t !in rest
  {
    assert t in ring;
    var r: seq<int>;
    r, k := Refocus(w, bs, ring, t);
    rest := r[1..];
    assert r == [t] + rest;
    FrontLinks(w, t, rest);
    ListedFree(w, bs, r);
    FirstApart(t, rest);
    assert pav == ring[0] && pav in ring;
  }

  /** What the assignments for t read, with t in front of the list. */
  lemma {:induction false} RightReady(w: seq<Word>, bs: Blocks, rest: seq<int>, p: int, t: int)
    requires Good(w, t, bs, [t] + rest) && p in bs && !bs[p].free && t in bs && 0 <= t < |w|
    requires w[t].rlink == (if rest == [] then t else rest[0]) && w[t].a == (if rest == [] then t else Last(rest))
    requires t !in rest
    ensures 0 <= w[t].a < |w| && 0 <= w[t].rlink < |w| && w[t].a != p && w[t].rlink != p
    ensures (w[t].a == t <==> rest == []) && (w[t].rlink == t <==> rest == []) && w[t].rlink != End(bs, t) - 1
    ensures 0 <= p < |w| && p != t && w[p].size == bs[p].size && w[t].size == bs[t].size >= 2 &&
      End(bs, t) - 1 < |w| && End(bs, t) - 1 != p
  {
    var r := [t] + rest;
    ListedFree(w, bs, r);
    assert r[0] == t && w[t].rlink in r && w[t].a in r;
    WithinArena(bs, t);
    WithinArena(bs, p);
    Apart(bs, p, t);
    assert Labelled(w, p, bs[p]) && Labelled(w, t, bs[t]);
    if w[t].rlink != t { Apart(bs, w[t].rlink, t); }
  }

  lemma {:induction false} BothReady(w: seq<Word>, bs: Blocks, rest: seq<int>, s: int, p: int, t: int)
    requires Good(w, t, bs, [t] + rest) && s in bs && bs[s].free && p in bs && t in bs && s != t && 0 <= t < |w|
    requires w[t].rlink == (if rest == [] then t else rest[0]) && w[t].a == (if rest == [] then t else Last(rest))
    requires t !in rest
    ensures 0 <= w[t].a < |w| && 0 <= w[t].rlink < |w| && w[t].a != t && w[t].rlink != t && w[t].rlink != End(bs, t) - 1
    ensures 0 <= s < |w| && 0 <= p < |w| && w[s].size == bs[s].size && w[p].size == bs[p].size &&
      w[t].size == bs[t].size
    ensures 0 <= End(bs, t) - 1 < |w|
  {
    var r := [t] + rest;
    ListedFree(w, bs, r);
    assert s in r && s in rest && rest[0] in r && Last(rest) in r && rest[0] in rest && Last(rest) in rest;
    WithinArena(bs, s);
    WithinArena(bs, p);
    WithinArena(bs, t);
    assert Labelled(w, s, bs[s]) && Labelled(w, p, bs[p]) && Labelled(w, t, bs[t]);
    Apart(bs, rest[0], t);
  }

  lemma {:induction false} UserWriteGood(w: seq<Word>, v: seq<Word>, pav: int, bs: Blocks, ring: seq<int>, p: int,
      i: int)
    requires Good(w, pav, bs, ring) && p in bs && !bs[p].free && p <= i < End(bs, p) <= |w| && p >= 0
    requires |v| == |w| && (forall j :: 0 <= j < |w| && j != i ==> v[j] == w[j])
    requires i == p ==> v[i].tag == w[i].tag && v[i].size == w[i].size
    requires i == End(bs, p) - 1 ==> v[i].tag == w[i].tag
    ensures Good(v, pav, bs, ring)
  {
    WithinArena(bs, p);
    ListedFree(w, bs, ring);
    assert Labelled(w, p, bs[p]) && Labelled(v, p, bs[p]);
    OthersOutside(bs, p);
    TaggedAgain(w, v, bs, bs, p, End(bs, p));
    forall j | j in ring ensures v[j] == w[j] { assert End(bs, j) <= p || End(bs, p) <= j; }
    SameLinks(w, v, ring);
  }

  // ----- What has been granted -----

  /** The occupied blocks and their sizes. */
  ghost function Granted(bs: Blocks): map<int, int> {
    map s | s in bs && !bs[s].free :: bs[s].size
  }

  /** Coalescing is complete: the granted blocks determine the whole tiling. */
  lemma {:induction false} Canonical(bs: Blocks, cs: Blocks)
    requires Tiles(bs) && Tiles(cs) && NoFreePair(bs) && NoFreePair(cs) && Granted(bs) == Granted(cs)
    ensures bs == cs
  {
    forall t | t in bs ensures t in cs && cs[t] == bs[t] { WithinArena(bs, t); SameBlock(bs, cs, 1, t); }
    forall t | t in cs ensures t in bs { WithinArena(cs, t); SameBlock(cs, bs, 1, t); }
  }

  lemma {:induction false} SameBlock(bs: Blocks, cs: Blocks, s: int, t: int)
    requires Tiles(bs) && Tiles(cs) && NoFreePair(bs) && NoFreePair(cs) && Granted(bs) == Granted(cs)
    requires s in bs && s in cs && t in bs && s <= t
    ensures t in cs && cs[t] == bs[t]
    decreases MAX - s
  {
    WithinArena(bs, s);
    WithinArena(bs, t);
    SameHere(bs, cs, s);
    assert End(cs, s) == End(bs, s);
    if s < t { SameBlock(bs, cs, End(bs, s), t); }
  }

  lemma {:induction false} SameHere(bs: Blocks, cs: Blocks, s: int)
    requires Tiles(bs) && Tiles(cs) && NoFreePair(bs) && NoFreePair(cs) && Granted(bs) == Granted(cs)
    requires s in bs && s in cs
    ensures cs[s] == bs[s]
  {
    assert s in Granted(bs) <==> s in Granted(cs);
    if bs[s].free {
      var x, y := End(bs, s), End(cs, s);
      WithinArena(bs, s);
      WithinArena(cs, s);
      assert x <= MAX ==> x in Granted(bs) && x in Granted(cs);
      assert y <= MAX ==> y in Granted(cs) && y in Granted(bs);
    }
  }

  /** Nothing is granted: one free block of MAX words. */
  lemma {:induction false} NothingGranted(bs: Blocks)
    requires Tiles(bs) && NoFreePair(bs) && Granted(bs) == map[]
    ensures bs == map[1 := Block(MAX, true)]
  {
    forall s | s in bs ensures bs[s].free { assert s !in Granted(bs); }
    AllFree(bs);
  }

  /** Node k is the first of the list with at least n words. */
  ghost predicate FirstOf(bs: Blocks, ring: seq<int>, n: int, k: nat) {
    k < |ring| && ring[k] in bs && bs[ring[k]].size >= n && forall j :: 0 <= j < k ==> Small(bs, ring[j], n)
  }

  ghost predicate Small(bs: Blocks, s: int, n: int) {
    s in bs && bs[s].size < n
  }

  /** What the search loop reads at node k. */
  ghost predicate Node(w: seq<Word>, bs: Blocks, ring: seq<int>, k: nat)
    requires k < |ring|
  {
    var s := ring[k];
    0 <= s < |w| && s in bs && bs[s].free && w[s].size == bs[s].size && w[s].rlink == Succ(ring, k) &&
    (Succ(ring, k) == ring[0] <==> k + 1 == |ring|)
  }

  lemma {:induction false} NodeAt(w: seq<Word>, bs: Blocks, ring: seq<int>, k: nat)
    requires Tiles(bs) && Tagged(w, bs) && ListsFree(bs, ring) && Linked(w, ring) && k < |ring|
    ensures Node(w, bs, ring, k)
  {
    assert ring[k] in ring && LinkAt(w, ring, k);
    FreeBlock(w, bs, ring, ring[k]);
    if k + 1 < |ring| { FirstAndLast(ring, k + 1); }
  }

  lemma {:induction false} NoneFits(bs: Blocks, ring: seq<int>, n: int, k: nat)
    requires ListsFree(bs, ring) &&
      (ring == [] || (k < |ring| && ring[k] in bs && forall j :: 0 <= j < k ==> Small(bs, ring[j], n)))
    ensures ring == [] || (k + 1 == |ring| && bs[ring[k]].size < n) ==> forall s :: s in bs && bs[s].free ==>
      bs[s].size < n
    ensures ring != [] && bs[ring[k]].size >= n ==> !(forall s :: s in bs && bs[s].free ==> bs[s].size < n)
  {
    if ring == [] || (k + 1 == |ring| && bs[ring[k]].size < n) {
      forall s | s in bs && bs[s].free ensures bs[s].size < n {
        assert s in ring;
        var j :| 0 <= j < |ring| && ring[j] == s;
        if j < k { assert Small(bs, ring[j], n); }
      }
    }
    if ring != [] {
      var s := ring[k];
      assert s in ring;
      assert s in bs && bs[s].free;
    }
  }

  // ----- The allocator -----

  method PutA(words: array<Word>, i: int, a: int)
    requires 0 <= i < words.Length
    modifies words
    ensures words[..] == SetA(old(words[..]), i, a)
  {
    words[i] := words[i].(a := a);
    assert words[..] == old(words[..])[i := words[i]];
  }

  method PutTag(words: array<Word>, i: int, tag: int)
    requires 0 <= i < words.Length
    modifies words
    ensures words[..] == SetTag(old(words[..]), i, tag)
  {
    words[i] := words[i].(tag := tag);
    assert words[..] == old(words[..])[i := words[i]];
  }

  method PutSize(words: array<Word>, i: int, size: int)
    requires 0 <= i < words.Length
    modifies words
    ensures words[..] == SetSize(old(words[..]), i, size)
  {
    words[i] := words[i].(size := size);
    assert words[..] == old(words[..])[i := words[i]];
  }

  method PutRlink(words: array<Word>, i: int, rlink: int)
    requires 0 <= i < words.Length
    modifies words
    ensures words[..] == SetRlink(old(words[..]), i, rlink)
  {
    words[i] := words[i].(rlink := rlink);
    assert words[..] == old(words[..])[i := words[i]];
  }

  /** The assignments that grant a whole block. */
  method TagWhole(words: array<Word>, p: int, next: int) returns (pav: int)
    requires 0 <= p < words.Length && 0 <= p + words[p].size - 1 < words.Length && next == words[p].rlink
    requires next != p ==> 0 <= next < words.Length && 0 <= words[p].a < words.Length
    modifies words
    ensures words[..] == SetTag(SetTag(Unlinked(old(words[..]), p, next, old(words[p].a)), p, 1),
      old(p + words[p].size - 1), 1)
    ensures pav == if next == p then NULL else next
  {
    pav := next;
    var f := p + words[p].size - 1;
    if pav == p {
      pav := NULL;
    } else {
      PutA(words, pav, words[p].a);
      PutRlink(words, words[p].a, pav);
    }
    PutTag(words, p, 1);
    PutTag(words, f, 1);
  }

  /** The assignments that cut n words off the end of a block. */
  method CutPart(words: array<Word>, q: int, n: int) returns (p: int)
    requires 0 <= q && words.Length >= 1 && q < words.Length && 2 <= n < words[q].size - 1 &&
      q + words[q].size <= words.Length
    modifies words
    ensures p == old(q + words[q].size) - n
    ensures words[..] == CutWords(old(words[..]), q, old(words[q].size), n)
  {
    var f := q + words[q].size - 1;
    PutTag(words, f, 1);
    PutSize(words, q, words[q].size - n);
    f := q + words[q].size - 1;
    PutTag(words, f, 0);
    PutA(words, f, q);
    p := f + 1;
    PutTag(words, p, 1);
    PutSize(words, p, n);
  }

  /** The assignments of the five ways to reclaim a block. */
  method FreeAlone(words: array<Word>, p: int)
    requires 0 <= p < words.Length && 0 <= p + words[p].size - 1 < words.Length
    modifies words
    ensures words[..] == AloneWords(old(words[..]), p, old(p + words[p].size - 1))
  {
    PutRlink(words, p, p);
    PutA(words, p, p);
    PutTag(words, p, 0);
    PutA(words, p + words[p].size - 1, p);
    PutTag(words, p + words[p].size - 1, 0);
  }

  method FreeInsert(words: array<Word>, p: int, pav: int, ghost end: int, ghost prev: int)
    requires 0 <= p < words.Length && 0 <= p + words[p].size - 1 < words.Length && 0 <= pav < words.Length && p != pav
    requires 0 <= words[pav].a < words.Length && words[pav].a != p && pav != p + words[p].size - 1 && words[p].size != 1
    requires end == p + words[p].size - 1 && prev == words[pav].a
    modifies words
    ensures words[..] == InsertWords(old(words[..]), p, end, pav, prev)
  {
    var f := p + words[p].size - 1;
    PutTag(words, p, 0);
    PutA(words, f, p);
    PutTag(words, f, 0);
    PutRlink(words, words[pav].a, p);
    PutA(words, p, words[pav].a);
    PutRlink(words, p, pav);
    PutA(words, pav, p);
  }

  method FreeLeft(words: array<Word>, s: int, p: int, ghost size: int, ghost end: int)
    requires 0 <= s < words.Length && 0 <= p < words.Length && s != p && 0 <= p + words[p].size - 1 < words.Length
    requires size == words[s].size + words[p].size && end == p + words[p].size - 1
    modifies words
    ensures words[..] == LeftWords(old(words[..]), s, size, end)
  {
    PutSize(words, s, words[s].size + words[p].size);
    var t := p + words[p].size - 1;
    PutA(words, t, s);
    PutTag(words, t, 0);
  }

  /** The part of the assignments that gives p the place of t in the list. */
  method TakePlace(words: array<Word>, p: int, t: int)
    requires 0 <= p < words.Length && 0 <= t < words.Length && p != t
    requires 0 <= words[t].a < words.Length && 0 <= words[t].rlink < words.Length && words[t].a != p &&
      words[t].rlink != p
    requires words[t].a == t <==> words[t].rlink == t
    modifies words
    ensures old(words[t].a) == t ==>
      Changes(old(words[..]), words[..], map[p := p], map[p := 0], map[], map[t := p, p := p])
    ensures old(words[t].a) != t ==>
      Changes(old(words[..]), words[..], map[p := old(words[t].a), old(words[t].rlink) := p], map[p := 0], map[],
              map[old(words[t].a) := p, p := old(words[t].rlink)])
  {
    PutTag(words, p, 0);
    PutA(words, p, words[t].a);
    PutRlink(words, words[p].a, p);
    PutRlink(words, p, words[t].rlink);
    PutA(words, words[p].rlink, p);
  }

  method FreeRight(words: array<Word>, p: int, t: int, ghost size: int, ghost end: int, ghost prev: int,
      ghost next: int)
    requires 0 <= p < words.Length && 0 <= t < words.Length && p != t && 0 <= t + words[t].size - 1 < words.Length
    requires 0 <= words[t].a < words.Length && 0 <= words[t].rlink < words.Length && words[t].a != p &&
      words[t].rlink != p
    requires words[t].a == t <==> words[t].rlink == t
    requires size == words[p].size + words[t].size && end == t + words[t].size - 1 && prev == words[t].a &&
      next == words[t].rlink
    requires t + words[t].size - 1 != p && words[t].size != 1 && words[t].rlink != t + words[t].size - 1
    modifies words
    ensures words[..] == RightWords(old(words[..]), p, t, size, end, prev, next)
  {
    TakePlace(words, p, t);
    PutSize(words, p, words[p].size + words[t].size);
    PutA(words, t + words[t].size - 1, p);
  }

  method FreeBoth(words: array<Word>, s: int, p: int, t: int, ghost size: int, ghost end: int, ghost prev: int,
      ghost next: int)
    requires 0 <= s < words.Length && 0 <= p < words.Length && 0 <= t < words.Length && s != t
    requires 0 <= t + words[t].size - 1 < words.Length
    requires 0 <= words[t].a < words.Length && 0 <= words[t].rlink < words.Length && words[t].a != t &&
      words[t].rlink != t
    requires size == words[s].size + (words[p].size + words[t].size) && end == t + words[t].size - 1
    requires prev == words[t].a && next == words[t].rlink && words[t].rlink != t + words[t].size - 1
    modifies words
    ensures words[..] == BothWords(old(words[..]), s, size, prev, next, end)
  {
    PutSize(words, s, words[s].size + (words[p].size + words[t].size));
    PutRlink(words, words[t].a, words[t].rlink);
    PutA(words, words[t].rlink, words[t].a);
    PutA(words, t + words[t].size - 1, s);
  }

  lemma GrantedTaken(bs: Blocks, p: int)
    requires p in bs
    ensures Granted(bs[p := bs[p].(free := false)]) == Granted(bs)[p := bs[p].size]
  {
  }

  lemma GrantedFreed(bs: Blocks, p: int)
    requires p in bs
    ensures Granted(bs[p := bs[p].(free := true)]) == Granted(bs) - {p}
  {
  }

  lemma GrantedFused(bs: Blocks, s: int, t: int)
    requires s in bs && t in bs
    ensures Granted(Fused(bs, s, t)) == Granted(bs) - {s, t}
  {
  }

  lemma GrantedCut(bs: Blocks, q: int, p: int, n: int)
    requires q in bs && bs[q].free && p !in bs
    ensures Granted(bs[q := Block(bs[q].size - n, true)][p := Block(n, false)]) == Granted(bs)[p := n]
  {
  }

  lemma {:induction false} RightDone(w: seq<Word>, v: seq<Word>, pav: int, bs: Blocks, rest: seq<int>, p: int, t: int,
                                     size: int, f: int, prev: int, next: int)
      returns (cs: Blocks, r: seq<int>, j: nat)
    requires Good(w, t, bs, [t] + rest) && p in bs && !bs[p].free && t in bs && End(bs, p) == t && f == End(bs, t) - 1
    requires 0 <= p < |w| && 0 <= t < |w| && (forall u :: u in bs && End(bs, u) == p ==> !bs[u].free) &&
      pav in [t] + rest
    requires size == bs[p].size + bs[t].size && prev == w[t].a && next == w[t].rlink &&
      v == RightWords(w, p, t, size, f, prev, next)
    ensures cs == Fused(bs, p, t) && Granted(cs) == Granted(bs) - {p} && Good(v, if pav == t then p else pav, cs, r)
    ensures j <= |rest| && ([p] + rest)[j] == (if pav == t then p else pav) && r == Rotated([p] + rest, j)
  {
    ReclaimRight(w, v, bs, rest, p, t, f);
    cs := Fused(bs, p, t);
    assert bs[t].free by { assert ([t] + rest)[0] == t; }
    GrantedFused(bs, p, t);
    var first := if pav == t then p else pav;
    assert first in [p] + rest;
    r, j := Refocus(v, cs, [p] + rest, first);
  }

  lemma {:induction false} BothDone(w: seq<Word>, v: seq<Word>, pav: int, bs: Blocks, rest: seq<int>, s: int, p: int,
      t: int, size: int, f: int, prev: int, next: int)
      returns (cs: Blocks, r: seq<int>, j: nat)
    requires Good(w, t, bs, [t] + rest) && s in bs && bs[s].free && p in bs && !bs[p].free && t in bs
    requires End(bs, s) == p && End(bs, p) == t && 0 <= t < |w| && pav in [t] + rest
    requires size == bs[s].size + (bs[p].size + bs[t].size) && f == End(bs, t) - 1 && prev == w[t].a &&
      next == w[t].rlink
    requires v == BothWords(w, s, size, prev, next, f)
    ensures cs == (bs - {p, t})[s := Block(End(bs, t) - s, true)]
    ensures Granted(cs) == Granted(bs) - {p} && Good(v, if pav == t then s else pav, cs, r)
    ensures j < |rest| && r == Rotated(rest, j)
  {
    ReclaimBoth(w, v, bs, rest, s, p, t);
    cs := Fused(Fused(bs, s, p), s, t);
    assert bs[t].free by { assert ([t] + rest)[0] == t; }
    FusedTwice(bs, s, p, t);
    var first := if pav == t then s else pav;
    assert first in rest;
    r, j := Refocus(v, cs, rest, first);
  }

  lemma {:induction false} FusedTwice(bs: Blocks, s: int, p: int, t: int)
    requires s in bs && p in bs && t in bs && bs[s].free && bs[t].free && End(bs, s) == p && End(bs, p) == t
    requires s in Fused(bs, s, p) && t in Fused(bs, s, p) && s != t
    ensures Fused(Fused(bs, s, p), s, t) == (bs - {p, t})[s := Block(End(bs, t) - s, true)]
    ensures Granted(Fused(Fused(bs, s, p), s, t)) == Granted(bs) - {p}
  {
    GrantedFused(bs, s, p);
    GrantedFused(Fused(bs, s, p), s, t);
  }

  /** p stands where t stood, wherever the list was cut open in between. */
  lemma {:induction false} PlaceKept(ring: seq<int>, t: int, p: int, k: nat, rest: seq<int>, j: nat, r: seq<int>)
    requires Distinct(ring) && p !in ring && k < |ring| && ring[k] == t && [t] + rest == Rotated(ring, k)
    requires j < |ring| && ([p] + rest)[j] == (if ring[0] == t then p else ring[0]) && r == Rotated([p] + rest, j)
    ensures r == Replaced(ring, t, p)
  {
    var n, q := |ring|, [p] + rest;
    forall i | 0 <= i < n ensures q[i] == Replaced(ring, t, p)[if i + k < n then i + k else i + k - n] {
      assert i > 0 ==> q[i] == ([t] + rest)[i] == Rotated(ring, k)[i];
    }
    assert j == if k == 0 then 0 else n - k;
    forall i | 0 <= i < n ensures r[i] == Replaced(ring, t, p)[i] {
      assert r[i] == q[if i + j < n then i + j else i + j - n];
    }
  }

  /** The list without t in its cyclic order, wherever it was cut open in between. */
  lemma {:induction false} OrderKept(ring: seq<int>, t: int, k: nat, rest: seq<int>, j: nat)
    requires k < |ring| && ring[k] == t && [t] + rest == Rotated(ring, k) && j < |rest|
    ensures exists i: nat :: i <= |ring| - 1 && Rotated(rest, j) == Rotated(Without(ring, k), i)
  {
    var l, n := Without(ring, k), |rest|;
    assert rest == ([t] + rest)[1..] == Rotated(ring, k)[1..] == Rotated(l, k);
    var i := if k + j <= n then k + j else k + j - n;
    assert Rotated(rest, j) == Rotated(l, i);
  }

  lemma {:induction false} FirstNotNull(w: seq<Word>, bs: Blocks, ring: seq<int>)
    requires Tiles(bs) && Tagged(w, bs) && ListsFree(bs, ring)
    ensures ring == [] || ring[0] >= 1
  {
    ListedFree(w, bs, ring);
    if ring != [] { assert ring[0] in ring; }
  }

  /** The five cases of Reclaim. */
  method FreeIntoEmpty(words: array<Word>, p: int, ghost bs: Blocks, ghost ring: seq<int>)
      returns (pav: int, ghost cs: Blocks, ghost r: seq<int>)
    requires Good(words[..], NULL, bs, ring) && p in bs && !bs[p].free
    modifies words
    ensures Good(words[..], pav, cs, r) && cs == bs[p := bs[p].(free := true)] && Granted(cs) == Granted(bs) - {p}
    ensures pav == p && r == [p]
  {
    ghost var w := words[..];
    FirstNotNull(w, bs, ring);
    WithinArena(bs, p);
    assert Labelled(w, p, bs[p]);
    FreeAlone(words, p);
    pav, cs, r := p, bs[p := bs[p].(free := true)], [p];
    ReclaimAlone(w, words[..], bs, p, End(bs, p) - 1);
    GrantedFreed(bs, p);
  }

  method FreeFirst(words: array<Word>, pav0: int, p: int, ghost bs: Blocks, ghost ring: seq<int>)
      returns (pav: int, ghost cs: Blocks, ghost r: seq<int>)
    requires Good(words[..], pav0, bs, ring) && pav0 != NULL && p in bs && !bs[p].free && NeighboursTaken(bs, p)
    modifies words
    ensures Good(words[..], pav, cs, r) && cs == bs[p := bs[p].(free := true)] && Granted(cs) == Granted(bs) - {p}
    ensures pav == p && r == [p] + ring
  {
    ghost var w := words[..];
    InsertReady(w, pav0, bs, ring, p);
    FreeInsert(words, p, pav0, End(bs, p) - 1, Last(ring));
    pav, cs, r := p, bs[p := bs[p].(free := true)], [p] + ring;
    ReclaimInsert(w, words[..], pav0, bs, ring, p, End(bs, p) - 1);
    GrantedFreed(bs, p);
  }

  lemma {:induction false} InsertReady(w: seq<Word>, pav: int, bs: Blocks, ring: seq<int>, p: int)
    requires Good(w, pav, bs, ring) && pav != NULL && p in bs && !bs[p].free
    ensures ring != [] && 0 <= p < |w| && 0 <= End(bs, p) - 1 < |w| && w[p].size == bs[p].size >= 2
    ensures 0 <= pav < |w| && w[pav].a == Last(ring) && 0 <= Last(ring) < |w| && Last(ring) != p && pav != p &&
      pav != End(bs, p) - 1
  {
    ListedFree(w, bs, ring);
    WithinArena(bs, p);
    assert Labelled(w, p, bs[p]) && ring == [pav] + ring[1..] && ring[0] in ring && Last(ring) in ring;
    Apart(bs, p, pav);
    FrontLinks(w, pav, ring[1..]);
  }

  method FreeWithLeft(words: array<Word>, ghost pav: int, s: int, p: int, ghost bs: Blocks, ghost ring: seq<int>)
      returns (ghost cs: Blocks)
    requires Good(words[..], pav, bs, ring) && p in bs && !bs[p].free && s in bs && bs[s].free && End(bs, s) == p
    requires End(bs, p) in bs ==> !bs[End(bs, p)].free
    modifies words
    ensures Good(words[..], pav, cs, ring) && cs == Fused(bs, s, p) && Granted(cs) == Granted(bs) - {p}
  {
    ghost var w := words[..];
    WithinArena(bs, s);
    WithinArena(bs, p);
    assert Labelled(w, s, bs[s]) && Labelled(w, p, bs[p]);
    FreeLeft(words, s, p, bs[s].size + bs[p].size, End(bs, p) - 1);
    cs := Fused(bs, s, p);
    ReclaimLeft(w, words[..], pav, bs, ring, s, p, End(bs, p) - 1);
    GrantedFused(bs, s, p);
  }

  method FreeWithRight(words: array<Word>, pav0: int, p: int, t: int, ghost bs: Blocks, ghost ring: seq<int>)
      returns (pav: int, ghost cs: Blocks, ghost r: seq<int>)
    requires Good(words[..], pav0, bs, ring) && p in bs && !bs[p].free && t in bs && bs[t].free && End(bs, p) == t
    requires forall u :: u in bs && End(bs, u) == p ==> !bs[u].free
    modifies words
    ensures Good(words[..], pav, cs, r) && cs == Fused(bs, p, t) && Granted(cs) == Granted(bs) - {p}
    ensures pav == (if pav0 == t then p else pav0) && r == Replaced(ring, t, p)
  {
    ghost var w := words[..];
    ghost var rest, k := Fronted(w, pav0, bs, ring, t);
    RightReady(w, bs, rest, p, t);
    ghost var size, f, prev, next := bs[p].size + bs[t].size, End(bs, t) - 1, w[t].a, w[t].rlink;
    FreeRight(words, p, t, size, f, prev, next);
    ghost var v := RightWords(w, p, t, size, f, prev, next);
    assert words[..] == v;
    ghost var j: nat;
    cs, r, j := RightDone(w, v, pav0, bs, rest, p, t, size, f, prev, next);
    PlaceKept(ring, t, p, k, rest, j, r);
    pav := pav0;
    if pav == t {
      pav := p;
    }
  }

  method FreeWithBoth(words: array<Word>, pav0: int, s: int, p: int, t: int, ghost bs: Blocks, ghost ring: seq<int>)
      returns (pav: int, ghost cs: Blocks, ghost r: seq<int>)
    requires Good(words[..], pav0, bs, ring) && s in bs && bs[s].free && p in bs && !bs[p].free && t in bs && bs[t].free
    requires End(bs, s) == p && End(bs, p) == t
    modifies words
    ensures Good(words[..], pav, cs, r) && Granted(cs) == Granted(bs) - {p}
    ensures cs == (bs - {p, t})[s := Block(End(bs, t) - s, true)]
    ensures pav == (if pav0 == t then s else pav0)
    ensures exists k: nat, j: nat :: k < |ring| && ring[k] == t && j <= |ring| - 1 && r == Rotated(Without(ring, k), j)
  {
    ghost var w := words[..];
    ghost var rest, k := Fronted(w, pav0, bs, ring, t);
    BothReady(w, bs, rest, s, p, t);
    ghost var size, f, prev, next := bs[s].size + (bs[p].size + bs[t].size), End(bs, t) - 1, w[t].a, w[t].rlink;
    FreeBoth(words, s, p, t, size, f, prev, next);
    ghost var v := BothWords(w, s, size, prev, next, f);
    assert words[..] == v;
    ghost var j: nat;
    cs, r, j := BothDone(w, v, pav0, bs, rest, s, p, t, size, f, prev, next);
    OrderKept(ring, t, k, rest, j);
    pav := pav0;
    if pav == t {
      pav := s;
    }
  }

  ghost predicate LeftFree(bs: Blocks, p: int) {
    exists s :: s in bs && bs[s].free && End(bs, s) == p
  }

  ghost predicate RightFree(bs: Blocks, p: int)
    requires p in bs
  {
    End(bs, p) in bs && bs[End(bs, p)].free
  }

  /** Where the freed block p is in the list: alone, before all others, in the place of its free right neighbour t, or
      not at all because its free left neighbour has grown over it. */
  ghost predicate RingAfter(ring: seq<int>, p: int, t: int, leftFree: bool, rightFree: bool, ring': seq<int>) {
    if ring == [] then ring' == [p]
    else if !leftFree && !rightFree then ring' == [p] + ring
    else if !rightFree then ring' == ring
    else if !leftFree then ring' == Replaced(ring, t, p)
    else exists k: nat, j: nat :: k < |ring| && ring[k] == t && j <= |ring| - 1 && ring' == Rotated(Without(ring, k), j)
  }

  /** The tags tell which of the five cases it is. */
  lemma {:induction false} TagsTell(w: seq<Word>, bs: Blocks, p: int)
    requires Tiles(bs) && Tagged(w, bs) && p in bs
    ensures 1 <= p && End(bs, p) < |w| && (w[p - 1].tag == 0 <==> LeftFree(bs, p)) &&
      (w[p - 1].tag == 1 <==> !LeftFree(bs, p))
    ensures (w[End(bs, p)].tag == 0 <==> RightFree(bs, p)) && (w[End(bs, p)].tag == 1 <==> !RightFree(bs, p))
  {
    var s := LeftTag(w, bs, p);
    RightTag(w, bs, p);
  }

  class Arena {
    const words: array<Word>
    var pav: int
    ghost var blocks: Blocks
    ghost var ring: seq<int>

    ghost predicate Valid()
      reads this, words
    {
      words.Length == MAX + 2 && Good(words[..], pav, blocks, ring)
    }

    /** The initialisation in main. */
    constructor ()
      ensures Valid() && blocks == map[1 := Block(MAX, true)] && fresh(words)
    {
      words := new Word[MAX + 2](i => Word(0, 0, 0, 0));
      new;
      words[0] := words[0].(tag := 1);
      pav := 1;
      words[pav] := words[pav].(rlink := pav, a := pav);
      words[pav] := words[pav].(tag := 0);
      words[pav] := words[pav].(size := MAX);
      var p := pav + words[pav].size - 1;
      words[p] := words[p].(a := pav);
      words[p] := words[p].(tag := 0);
      words[p + 1] := words[p + 1].(tag := 1);
      blocks, ring := map[1 := Block(MAX, true)], [1];
      assert End(blocks, 1) == MAX + 1;
      assert Labelled(words[..], 1, blocks[1]) && LinkAt(words[..], [1], 0);
    }

    /** The search loop: the first node of the list with at least n words, if any. */
    method FirstFit(n: int) returns (p: int, ghost k: nat)
      requires Valid()
      ensures p == NULL <==> forall s :: s in blocks && blocks[s].free ==> blocks[s].size < n
      ensures p != NULL ==> k < |ring| && p == ring[k] && p in blocks && blocks[p].free && blocks[p].size >= n
      ensures p != NULL ==> forall j :: 0 <= j < k ==> Small(blocks, ring[j], n)
    {
      p, k := pav, 0;
      if ring != [] { NodeAt(words[..], blocks, ring, k); }
      while p != NULL && words[p].size < n && words[p].rlink != pav
        invariant ring == [] ==> p == NULL
        invariant ring != [] ==> k < |ring| && Node(words[..], blocks, ring, k) && p == ring[k] && p != NULL
        invariant forall j :: 0 <= j < k < |ring| ==> Small(blocks, ring[j], n)
        decreases |ring| - k
      {
        p := words[p].rlink;
        k := k + 1;
        NodeAt(words[..], blocks, ring, k);
      }
      if p != NULL && words[p].size < n {
        p := NULL;
      }
      NoneFits(blocks, ring, n, k);
    }

    /** A block of at least n words, or NULL exactly when there is none. */
    method AllocBoundTag(n: int) returns (p: int, ghost k: nat)
      requires Valid() && n >= 2
      modifies this, words
      ensures Valid()
      ensures p == NULL <==> forall s :: s in old(blocks) && old(blocks)[s].free ==> old(blocks)[s].size < n
      ensures p == NULL ==> blocks == old(blocks) && ring == old(ring) && words[..] == old(words[..])
      ensures p != NULL ==> p in blocks && n <= blocks[p].size <= n + E && p !in old(Granted(blocks))
      ensures p != NULL ==> Granted(blocks) == old(Granted(blocks))[p := blocks[p].size]
      ensures p != NULL ==> k < |old(ring)| && FirstOf(old(blocks), old(ring), n, k)
      ensures p != NULL ==> var q := old(ring)[k];
        var f, rest := old(blocks)[q].size, Rotated(old(ring), k)[1..];
        if f - n <= E then
          p == q && blocks == old(blocks)[q := Block(f, false)] && ring == rest
        else
          p == q + f - n && ring == rest + [q] &&
          blocks == old(blocks)[q := Block(f - n, true)][p := Block(n, false)]
      ensures p != NULL && pav != NULL ==> pav == Succ(old(ring), k)
    {
      p, k := FirstFit(n);
      if p == NULL {
        return;
      }
      Rotate(words[..], blocks, ring, k);
      ghost var next := Succ(ring, k);
      ring := Rotated(ring, k);
      assert LinkAt(words[..], ring, 0) && Labelled(words[..], p, blocks[p]) && ring == [p] + ring[1..];
      pav := words[p].rlink;
      if words[p].size - n <= E {
        GrantWhole(p);
      } else {
        p := GrantPart(p, n);
      }
    }

    method GrantWhole(p: int)
      requires words.Length == MAX + 2 && ring != [] && ring == [p] + ring[1..] && Good(words[..], p, blocks, ring)
      requires 0 <= p < words.Length && pav == words[p].rlink
      modifies this, words
      ensures Valid() && p in old(blocks) && blocks == old(blocks)[p := old(blocks)[p].(free := false)] &&
        ring == old(ring)[1..]
      ensures Granted(blocks) == old(Granted(blocks))[p := blocks[p].size]
    {
      ghost var w, rest := words[..], ring[1..];
      FrontLinks(w, p, rest);
      ListedFree(w, blocks, ring);
      FreeBlock(w, blocks, ring, p);
      assert rest != [] ==> ring[1] in ring && Last(ring) in ring && Last(rest) == Last(ring);
      pav := TagWhole(words, p, pav);
      TakeWhole(w, words[..], blocks, p, rest);
      GrantedTaken(blocks, p);
      blocks, ring := blocks[p := blocks[p].(free := false)], rest;
    }

    method GrantPart(q: int, n: int) returns (p: int)
      requires words.Length == MAX + 2 && ring != [] && ring == [q] + ring[1..] && Good(words[..], q, blocks, ring)
      requires 0 <= q < words.Length && pav == words[q].rlink && n >= 2 && words[q].size - n > E
      modifies this, words
      ensures Valid() && q in old(blocks) && p == End(old(blocks), q) - n && p !in old(blocks)
      ensures blocks == CutBlocks(old(blocks), q, p, n)
      ensures Granted(blocks) == old(Granted(blocks))[p := n] && pav == old(pav) && ring == old(ring)[1..] + [q]
    {
      ghost var w, bs := words[..], blocks;
      FreeBlock(w, bs, ring, q);
      assert words[q].size == bs[q].size;
      p := CutPart(words, q, n);
      ghost var v := words[..];
      ghost var cs, r := TakePartRefocused(w, v, bs, ring, q, n, p, pav);
      blocks, ring := cs, r;
      assert words[..] == v;
    }

    /** Takes back a granted block, joined with its free neighbours. */
    method Reclaim(p: int)
      requires Valid() && p in blocks && !blocks[p].free
      modifies this, words
      ensures Valid() && Granted(blocks) == old(Granted(blocks)) - {p}
      ensures RingAfter(old(ring), p, old(End(blocks, p)), old(LeftFree(blocks, p)), old(RightFree(blocks, p)), ring)
    {
      ghost var left := LeftTag(words[..], blocks, p);
      ghost var before, right := ring, End(blocks, p);
      ghost var leftFree, rightFree := LeftFree(blocks, p), RightFree(blocks, p);
      TagsTell(words[..], blocks, p);
      assert Labelled(words[..], p, blocks[p]);
      var s, t := words[p - 1].a, p + words[p].size;
      var l, r := words[p - 1].tag, words[p + words[p].size].tag;
      assert t == right;
      if pav == NULL {
        FirstNotNull(words[..], blocks, ring);
        pav, blocks, ring := FreeIntoEmpty(words, p, blocks, ring);
      } else if l == 1 && r == 1 {
        pav, blocks, ring := FreeFirst(words, pav, p, blocks, ring);
        assert RingAfter(before, p, t, leftFree, rightFree, ring);
      } else if l == 0 && r == 1 {
        s := words[p - 1].a;
        blocks := FreeWithLeft(words, pav, s, p, blocks, ring);
        assert RingAfter(before, p, t, leftFree, rightFree, ring);
      } else if l == 1 && r == 0 {
        pav, blocks, ring := FreeWithRight(words, pav, p, t, blocks, ring);
        assert RingAfter(before, p, t, leftFree, rightFree, ring);
      } else {
        pav, blocks, ring := FreeWithBoth(words, pav, s, p, t, blocks, ring);
        assert RingAfter(before, p, t, leftFree, rightFree, ring);
      }
    }

    /** The owner of a block writes a word of it, but not its tags and size. */
    method UserWrite(p: int, i: int, x: Word)
      requires Valid() && p in blocks && !blocks[p].free && p <= i < End(blocks, p) <= words.Length && p >= 0
      requires i == p ==> x.tag == words[i].tag && x.size == words[i].size
      requires i == End(blocks, p) - 1 ==> x.tag == words[i].tag
      modifies words
      ensures Valid() && words[i] == x
    {
      ghost var w := words[..];
      WithinArena(blocks, p);
      words[i] := x;
      UserWriteGood(w, words[..], pav, blocks, ring, p, i);
    }
  }
}
