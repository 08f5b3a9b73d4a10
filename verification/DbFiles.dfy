/** The files of the hash-indexed database of apue/db/db.c: lists of index records, and the map they stand for. */
module DbFiles {
  import opened Lists

  const PTR_SZ := 7
  const IDXLEN_SZ := 4
  const PTR_MAX := 9999999
  const NHASH := 137
  const IDXLEN_MIN := 6
  const IDXLEN_MAX := 1024
  const DATLEN_MIN := 2
  const DATLEN_MAX := 1024

  /** The first index record: behind the free-list pointer, the hash table and a newline. */
  const START: nat := (NHASH + 1) * PTR_SZ + 1

  const FREE: nat := 0

  /** An index record: chain pointer, length field, key, offset and length of the data with its newline. */
  datatype IdxRec = IdxRec(ptr: nat, len: nat, key: string, datoff: nat, datlen: nat)

  /** The index file as its pointers, list 0 being the free list, and its records by offset; the data file as its
      bytes. */
  datatype Files = Files(heads: seq<nat>, recs: map<nat, IdxRec>, end: nat, dat: string)

  /** The number of decimal digits. */
  function Digits(n: nat): (d: nat)
    ensures d >= 1
  {
    if n < 10 then 1 else 1 + Digits(n / 10)
  }

  /** The length field: key, separator, offset, separator, length, newline. */
  function Len(keylen: nat, datoff: nat, datlen: nat): nat {
    keylen + 3 + Digits(datoff) + Digits(datlen)
  }

  function Size(r: IdxRec): nat {
    PTR_SZ + IDXLEN_SZ + r.len
  }

  // ----- Hashing -----

  const TWO64 := 18446744073709551616

  /** Every character times its place, counted from 1. */
  function WeightedSum(key: string): nat {
    if key == "" then 0 else WeightedSum(key[..|key| - 1]) + (key[|key| - 1] as int) * |key|
  }

  function Hash(key: string): nat {
    WeightedSum(key) % TWO64 % NHASH
  }

  /** The list of a key. */
  function Bucket(key: string): (c: nat)
    ensures 1 <= c <= NHASH
  {
    1 + Hash(key)
  }

  /** _db_hash: the sum in an unsigned long, which wraps around at every step. */
  method ComputeHash(key: string) returns (h: nat)
    ensures h == WeightedSum(key) % TWO64 % NHASH
  {
    var sum: nat := 0;
    for i := 0 to |key|
      invariant sum == WeightedSum(key[..i]) % TWO64
    {
      assert key[..i + 1][..i] == key[..i];
      WrappedSum(WeightedSum(key[..i]), (key[i] as int) * (i + 1));
      sum := (sum + (key[i] as int) * (i + 1)) % TWO64;
    }
    assert key[..|key|] == key;
    h := sum % NHASH;
  }

  lemma WrappedSum(a: nat, b: nat)
    ensures (a % TWO64 + b) % TWO64 == (a + b) % TWO64
  {
  }

  /** For a key that fits an index record the sum does not wrap around. */
  lemma {:induction false} SumBound(key: string)
    ensures WeightedSum(key) <= 0x10ffff * (|key| * |key|)
  {
    if key != "" {
      var n := |key|;
      SumBound(key[..n - 1]);
      assert (n - 1) * (n - 1) + n <= n * n;
      assert (key[n - 1] as int) * n <= 0x10ffff * n;
    }
  }

  lemma {:induction false} PlainHash(key: string)
    requires |key| <= IDXLEN_MAX
    ensures Hash(key) == WeightedSum(key) % NHASH
  {
    SumBound(key);
    SquareBound(|key|);
    var sum := WeightedSum(key);
    assert sum < TWO64;
    assert sum % TWO64 == sum;
  }

  lemma SquareBound(n: nat)
    requires n <= IDXLEN_MAX
    ensures n * n <= IDXLEN_MAX * IDXLEN_MAX
  {
    var d := IDXLEN_MAX - n;
    assert n * d >= 0 && d * d >= 0;
    assert (n + d) * (n + d) == n * n + 2 * (n * d) + d * d;
  }

  // ----- Layout of the index file -----

  ghost function Next(recs: map<nat, IdxRec>, o: nat): nat
    requires o in recs
  {
    o + Size(recs[o])
  }

  /** The records fill the index file one after the other. */
  ghost predicate Layout(recs: map<nat, IdxRec>, end: nat) {
    START <= end && (START == end || START in recs) &&
    (forall o {:trigger Next(recs, o)} :: o in recs ==>
      START <= o && (Next(recs, o) == end || (Next(recs, o) < end && Next(recs, o) in recs))) &&
    (forall o, p {:trigger Next(recs, o), Next(recs, p)} :: o in recs && p in recs && o < p ==> Next(recs, o) <= p)
  }

  // ----- Data extents -----

  function DatEnd(r: IdxRec): nat {
    r.datoff + r.datlen
  }

  ghost predicate Apart(r: IdxRec, q: IdxRec) {
    DatEnd(r) <= q.datoff || DatEnd(q) <= r.datoff
  }

  ghost predicate ExtentOk(dat: string, r: IdxRec) {
    DATLEN_MIN <= r.datlen <= DATLEN_MAX && DatEnd(r) <= |dat| && dat[DatEnd(r) - 1] == '\n'
  }

  /** The length field of every record is the length of what follows it. */
  ghost predicate Lengths(recs: map<nat, IdxRec>) {
    forall o {:trigger Len(|recs[o].key|, recs[o].datoff, recs[o].datlen)} ::
      o in recs ==> recs[o].len == Len(|recs[o].key|, recs[o].datoff, recs[o].datlen)
  }

  ghost predicate Extents(recs: map<nat, IdxRec>, dat: string) {
    (forall o {:trigger ExtentOk(dat, recs[o])} :: o in recs ==>
      ExtentOk(dat, recs[o]) && IDXLEN_MIN <= recs[o].len <= IDXLEN_MAX) && Lengths(recs) &&
    (forall o, p {:trigger Apart(recs[o], recs[p])} :: o in recs && p in recs && o != p ==> Apart(recs[o], recs[p]))
  }

  lemma {:induction false} LengthOf(recs: map<nat, IdxRec>, o: nat)
    requires Lengths(recs) && o in recs
    ensures recs[o].len == Len(|recs[o].key|, recs[o].datoff, recs[o].datlen)
  {
  }

  /** The data of a record, without the newline. */
  ghost function Data(dat: string, r: IdxRec): string {
    if r.datlen >= 1 && DatEnd(r) <= |dat| then dat[r.datoff..DatEnd(r) - 1] else ""
  }

  // ----- Lists -----

  ghost predicate NodeOk(f: Files, l: seq<nat>, i: nat)
    requires i < |l|
  {
    START <= l[i] <= PTR_MAX && l[i] in f.recs && f.recs[l[i]].ptr == At(l, i + 1)
  }

  ghost predicate ListOk(f: Files, c: nat, l: seq<nat>)
    requires c < |f.heads|
  {
    f.heads[c] == At(l, 0) && Distinct(l) && forall i :: 0 <= i < |l| ==> NodeOk(f, l, i)
  }

  /** Which list every record is on, where every key is, on which list a key belongs, and the records that a process
      left behind on no list when it ended at a limit. */
  datatype Books = Books(
    lists: seq<seq<nat>>, owner: map<nat, nat>, place: map<string, nat>, bucket: string -> nat, lost: set<nat>)

  predicate Blank(s: string) {
    forall i :: 0 <= i < |s| ==> s[i] == ' '
  }

  predicate NoSeparator(s: string) {
    forall i :: 0 <= i < |s| ==> s[i] != ':'
  }

  /** Record o is on the list it should be on, and on no other. */
  ghost predicate Shelved(f: Files, b: Books, o: nat)
    requires o in f.recs && o in b.owner && |b.lists| == NHASH + 1
  {
    b.owner[o] <= NHASH && o in b.lists[b.owner[o]] && NoSeparator(f.recs[o].key) &&
    if b.owner[o] == FREE then Blank(f.recs[o].key)
    else b.owner[o] == b.bucket(f.recs[o].key) && f.recs[o].key in b.place && b.place[f.recs[o].key] == o
  }

  ghost predicate OwnList(b: Books, c: nat)
    requires c < |b.lists|
  {
    forall o :: o in b.lists[c] ==> o in b.owner && b.owner[o] == c
  }

  ghost predicate KeyOk(f: Files, b: Books, k: string)
    requires k in b.place
  {
    var o := b.place[k];
    o in f.recs && o in b.owner && b.owner[o] != FREE && f.recs[o].key == k
  }

  /** A record left behind is where no pointer leads. */
  ghost predicate LostOk(f: Files, o: nat)
    requires o in f.recs
  {
    o > PTR_MAX && f.recs[o].ptr <= PTR_MAX && NoSeparator(f.recs[o].key)
  }

  /** Every record is on one list, except those left behind and, for the moment, those of loose; and every key has its
      record. */
  ghost predicate Shelves(f: Files, b: Books, loose: set<nat>) {
    |f.heads| == |b.lists| == NHASH + 1 && loose + b.lost <= f.recs.Keys && loose !! b.lost &&
    b.owner.Keys == f.recs.Keys - loose - b.lost && (forall o :: o in b.lost ==> LostOk(f, o)) &&
    (forall k :: 1 <= b.bucket(k) <= NHASH) &&
    (forall c :: 0 <= c <= NHASH ==> ListOk(f, c, b.lists[c]) && OwnList(b, c)) &&
    (forall o :: o in b.owner ==> Shelved(f, b, o)) &&
    (forall k :: k in b.place ==> KeyOk(f, b, k))
  }

  /** The files are in order. */
  ghost predicate Good(f: Files, b: Books, loose: set<nat>) {
    Layout(f.recs, f.end) && Extents(f.recs, f.dat) && Shelves(f, b, loose)
  }

  ghost predicate Places(recs: map<nat, IdxRec>, place: map<string, nat>) {
    forall k :: k in place ==> place[k] in recs
  }

  /** The map that the files stand for. */
  ghost function Contents(recs: map<nat, IdxRec>, dat: string, place: map<string, nat>): map<string, string>
  {
    map k | k in place && place[k] in recs :: Data(dat, recs[place[k]])
  }

  // ----- Changes that keep the layout -----

  /** Records may change their pointers and keys, but not the lengths of keys and not their data. */
  ghost predicate SameShape(recs: map<nat, IdxRec>, recs': map<nat, IdxRec>) {
    recs'.Keys == recs.Keys &&
    forall o :: o in recs ==>
      recs'[o].len == recs[o].len && |recs'[o].key| == |recs[o].key| && recs'[o].datoff == recs[o].datoff &&
        recs'[o].datlen == recs[o].datlen
  }

  lemma {:induction false} ShapeKeeps(recs: map<nat, IdxRec>, recs': map<nat, IdxRec>, end: nat, dat: string)
    requires SameShape(recs, recs') && Layout(recs, end) && Extents(recs, dat)
    ensures Layout(recs', end) && Extents(recs', dat)
  {
    ShapeLayout(recs, recs', end);
    ShapeExtents(recs, recs', dat);
  }

  lemma {:induction false} ShapeLayout(recs: map<nat, IdxRec>, recs': map<nat, IdxRec>, end: nat)
    requires SameShape(recs, recs') && Layout(recs, end)
    ensures Layout(recs', end)
  {
    forall o | o in recs ensures Next(recs', o) == Next(recs, o) {}
  }

  lemma {:induction false} ShapeExtents(recs: map<nat, IdxRec>, recs': map<nat, IdxRec>, dat: string)
    requires SameShape(recs, recs') && Extents(recs, dat)
    ensures Extents(recs', dat)
  {
    forall o | o in recs' ensures ExtentOk(dat, recs'[o]) && IDXLEN_MIN <= recs'[o].len <= IDXLEN_MAX {
      assert ExtentOk(dat, recs[o]);
    }
    forall o, p | o in recs' && p in recs' && o != p ensures Apart(recs'[o], recs'[p]) {
      assert Apart(recs[o], recs[p]);
    }
    ShapeLengths(recs, recs');
  }

  lemma {:induction false} ShapeLengths(recs: map<nat, IdxRec>, recs': map<nat, IdxRec>)
    requires SameShape(recs, recs') && Lengths(recs)
    ensures Lengths(recs')
  {
    forall o | o in recs' ensures recs'[o].len == Len(|recs'[o].key|, recs'[o].datoff, recs'[o].datlen) {
      assert recs[o].len == Len(|recs[o].key|, recs[o].datoff, recs[o].datlen);
    }
  }

  lemma {:induction false} SameList(f: Files, f': Files, c: nat, l: seq<nat>)
    requires c < |f.heads| && c < |f'.heads| && ListOk(f, c, l) && f'.heads[c] == f.heads[c]
    requires forall o :: o in l && o in f.recs ==> o in f'.recs && f'.recs[o].ptr == f.recs[o].ptr
    ensures ListOk(f', c, l)
  {
    forall i | 0 <= i < |l| ensures NodeOk(f', l, i) { assert NodeOk(f, l, i) && l[i] in l; }
  }

  // ----- A record leaves its list -----

  /** Where the pointer to node i of list c is stored: the offset of a record, or of the head of the list. */
  ghost function PtrOff(l: seq<nat>, c: nat, i: nat): nat {
    if i == 0 then c * PTR_SZ else At(l, i - 1)
  }

  /** _db_writeptr. */
  function PutPtr(f: Files, off: nat, ptr: nat): Files {
    if off < START then (if off / PTR_SZ < |f.heads| then f.(heads := f.heads[off / PTR_SZ := ptr]) else f)
    else if off in f.recs then f.(recs := f.recs[off := f.recs[off].(ptr := ptr)]) else f
  }

  lemma HeadOffset(c: nat)
    requires c <= NHASH
    ensures c * PTR_SZ < START && (c * PTR_SZ) / PTR_SZ == c
  {
  }

  /** Node i of list c, record o, is left out of its list. */
  ghost predicate Unlinks(f: Files, b: Books, c: nat, i: nat, o: nat, f': Files, b': Books) {
    c < |b.lists| && c < |f.heads| && i < |b.lists[c]| && o == b.lists[c][i] && o in f.recs &&
      (i > 0 ==> b.lists[c][i - 1] in f.recs) &&
    f' == f.(heads := if i == 0 then f.heads[c := At(b.lists[c], 1)] else f.heads,
             recs := if i == 0 then f.recs
               else f.recs[b.lists[c][i - 1] := f.recs[b.lists[c][i - 1]].(ptr := At(b.lists[c], i + 1))]) &&
    b' == b.(lists := b.lists[c := Without(b.lists[c], i)], owner := b.owner - {o},
             place := if c == FREE then b.place else b.place - {f.recs[o].key})
  }

  /** Writing the pointer of node i where the pointer to it is leaves the node out. */
  lemma {:induction false} PutUnlinks(f: Files, b: Books, loose: set<nat>, c: nat, i: nat)
      returns (o: nat, f': Files, b': Books)
    requires Shelves(f, b, loose) && c <= NHASH && i < |b.lists[c]|
    ensures o == b.lists[c][i] && Unlinks(f, b, c, i, o, f', b')
    ensures f' == PutPtr(f, PtrOff(b.lists[c], c, i), f.recs[o].ptr)
  {
    var l := b.lists[c];
    o := l[i];
    assert ListOk(f, c, l) && NodeOk(f, l, i);
    if i > 0 { assert NodeOk(f, l, i - 1); } else { HeadOffset(c); }
    f' := PutPtr(f, PtrOff(l, c, i), f.recs[o].ptr);
    b' := b.(lists := b.lists[c := Without(l, i)], owner := b.owner - {o},
             place := if c == FREE then b.place else b.place - {f.recs[o].key});
  }

  lemma {:induction false} UnlinkedList(f: Files, b: Books, c: nat, i: nat, o: nat, f': Files, b': Books)
    requires Unlinks(f, b, c, i, o, f', b') && ListOk(f, c, b.lists[c])
    ensures ListOk(f', c, b'.lists[c])
  {
    var l, m := b.lists[c], b'.lists[c];
    forall j | 0 <= j < |m| ensures NodeOk(f', m, j) {
      var k := if j < i then j else j + 1;
      assert m[j] == l[k] && NodeOk(f, l, k);
      assert At(m, j + 1) == if j + 1 == i then At(l, i + 1) else At(l, k + 1);
    }
    forall x, y | 0 <= x < y < |m| ensures m[x] != m[y] {
      assert m[x] == l[if x < i then x else x + 1] && m[y] == l[if y < i then y else y + 1];
    }
  }

  lemma {:induction false} UnlinkGood(f: Files, b: Books, loose: set<nat>, c: nat, i: nat, o: nat, f': Files, b': Books)
    requires Good(f, b, loose) && c <= NHASH && Unlinks(f, b, c, i, o, f', b')
    ensures Good(f', b', loose + {o}) && o !in loose && SameShape(f.recs, f'.recs)
    ensures Places(f.recs, b.place) && Places(f'.recs, b'.place) && Contents(f'.recs, f'.dat, b'.place) == if c == FREE
      then Contents(f.recs, f.dat, b.place) else Contents(f.recs, f.dat, b.place) - {f.recs[o].key}
  {
    UnlinkShape(f, b, c, i, o, f', b');
    ShapeKeeps(f.recs, f'.recs, f.end, f.dat);
    UnlinkShelves(f, b, loose, c, i, o, f', b');
    PlacesInFiles(f, b, loose);
    PlacesInFiles(f', b', loose + {o});
    UnlinkContents(f, b, c, i, o, f', b');
  }

  lemma {:induction false} UnlinkShelves(f: Files, b: Books, loose: set<nat>, c: nat, i: nat, o: nat, f': Files,
      b': Books)
    requires Shelves(f, b, loose) && c <= NHASH && Unlinks(f, b, c, i, o, f', b')
    ensures Shelves(f', b', loose + {o}) && o !in loose
  {
    assert ListOk(f, c, b.lists[c]) && OwnList(b, c) && o in b.lists[c] && Shelved(f, b, o);
    UnlinkShape(f, b, c, i, o, f', b');
    forall d | 0 <= d <= NHASH ensures ListOk(f', d, b'.lists[d]) && OwnList(b', d) {
      UnlinkGoodList(f, b, loose, c, i, o, f', b', d);
    }
    forall p | p in b'.owner ensures Shelved(f', b', p) {
      assert Shelved(f, b, p);
      UnlinkGoodShelf(f, b, c, i, o, f', b', p);
    }
    forall k | k in b'.place ensures KeyOk(f', b', k) { UnlinkGoodKey(f, b, loose, c, i, o, f', b', k); }
  }

  lemma {:induction false} UnlinkShape(f: Files, b: Books, c: nat, i: nat, o: nat, f': Files, b': Books)
    requires Unlinks(f, b, c, i, o, f', b')
    ensures SameShape(f.recs, f'.recs) && |f'.heads| == |f.heads| && |b'.lists| == |b.lists|
  {
  }

  lemma {:induction false} UnlinkGoodList(f: Files, b: Books, loose: set<nat>, c: nat, i: nat, o: nat, f': Files,
      b': Books, d: nat)
    requires Shelves(f, b, loose) && c <= NHASH && Unlinks(f, b, c, i, o, f', b') && d <= NHASH
    ensures ListOk(f', d, b'.lists[d]) && OwnList(b', d)
  {
    var l := b.lists[c];
    assert ListOk(f, c, l) && OwnList(b, c) && ListOk(f, d, b.lists[d]) && OwnList(b, d) && o in l;
    WithoutMembers(l, i);
    if d == c {
      UnlinkedList(f, b, c, i, o, f', b');
    } else {
      if i > 0 { assert l[i - 1] in l; }
      SameList(f, f', d, b.lists[d]);
    }
  }

  lemma {:induction false} UnlinkGoodShelf(f: Files, b: Books, c: nat, i: nat, o: nat, f': Files, b': Books, p: nat)
    requires |b.lists| == NHASH + 1 && c <= NHASH && Unlinks(f, b, c, i, o, f', b') && Distinct(b.lists[c]) &&
      OwnList(b, c)
    requires p in f.recs && p in b.owner && p != o && Shelved(f, b, p) && o in b.owner && Shelved(f, b, o)
    ensures p in f'.recs && Shelved(f', b', p)
  {
    assert b.owner[o] == c by { assert o in b.lists[c]; }
    WithoutMembers(b.lists[c], i);
    assert f'.recs[p].key == f.recs[p].key;
  }

  lemma {:induction false} UnlinkGoodKey(f: Files, b: Books, loose: set<nat>, c: nat, i: nat, o: nat, f': Files,
      b': Books, k: string)
    requires Shelves(f, b, loose) && c <= NHASH && Unlinks(f, b, c, i, o, f', b') && k in b'.place
    ensures KeyOk(f', b', k)
  {
    assert OwnList(b, c) && o in b.lists[c] && KeyOk(f, b, k) && Shelved(f, b, o);
  }

  lemma {:induction false} PlacesInFiles(f: Files, b: Books, loose: set<nat>)
    requires Shelves(f, b, loose)
    ensures Places(f.recs, b.place) && forall k :: k in b.place ==> b.place[k] !in loose && f.recs[b.place[k]].key == k
  {
    forall k | k in b.place ensures b.place[k] in f.recs && b.place[k] !in loose && f.recs[b.place[k]].key == k {
      assert KeyOk(f, b, k);
    }
  }

  /** The map without the key of the record that has left its list. */
  lemma {:induction false} UnlinkContents(f: Files, b: Books, c: nat, i: nat, o: nat, f': Files, b': Books)
    requires Unlinks(f, b, c, i, o, f', b') && Extents(f.recs, f.dat) && Extents(f'.recs, f'.dat) &&
      Places(f.recs, b.place) && Places(f'.recs, b'.place)
    ensures Contents(f'.recs, f'.dat, b'.place) == if c == FREE then Contents(f.recs, f.dat, b.place)
      else Contents(f.recs, f.dat, b.place) - {f.recs[o].key}
  {
    UnlinkShape(f, b, c, i, o, f', b');
    ShapeContents(f.recs, f'.recs, f.dat, b'.place);
    FewerContents(f.recs, f.dat, b.place, f.recs[o].key);
  }

  lemma {:induction false} FewerContents(recs: map<nat, IdxRec>, dat: string, place: map<string, nat>, k: string)
    requires Extents(recs, dat) && Places(recs, place)
    ensures Places(recs, place - {k}) && Contents(recs, dat, place - {k}) == Contents(recs, dat, place) - {k}
  {
  }

  lemma {:induction false} ShapeContents(recs: map<nat, IdxRec>, recs': map<nat, IdxRec>, dat: string,
      place: map<string, nat>)
    requires SameShape(recs, recs') && Extents(recs, dat) && Extents(recs', dat) && Places(recs, place)
    ensures Places(recs', place) && Contents(recs', dat, place) == Contents(recs, dat, place)
  {
    forall k | k in place ensures Data(dat, recs'[place[k]]) == Data(dat, recs[place[k]]) {
      assert ExtentOk(dat, recs[place[k]]) && ExtentOk(dat, recs'[place[k]]);
    }
  }

  /** Lists and keys do not change. */
  lemma {:induction false} SameShelves(f: Files, b: Books, loose: set<nat>, f': Files, loose': set<nat>)
    requires Shelves(f, b, loose) && f'.heads == f.heads && loose' <= f'.recs.Keys && loose' !! b.lost &&
      b.owner.Keys == f'.recs.Keys - loose' - b.lost
    requires forall o :: o in b.owner || o in b.lost ==>
      o in f'.recs && f'.recs[o].ptr == f.recs[o].ptr && f'.recs[o].key == f.recs[o].key
    ensures Shelves(f', b, loose')
  {
    forall c | 0 <= c <= NHASH ensures ListOk(f', c, b.lists[c]) && OwnList(b, c) {
      assert ListOk(f, c, b.lists[c]) && OwnList(b, c);
      SameList(f, f', c, b.lists[c]);
    }
    forall p | p in b.owner ensures Shelved(f', b, p) { assert Shelved(f, b, p); }
    forall k | k in b.place ensures KeyOk(f', b, k) { assert KeyOk(f, b, k); }
  }

  lemma {:induction false} SameContents(f: Files, b: Books, f': Files)
    requires Extents(f.recs, f.dat) && Extents(f'.recs, f'.dat) && Places(f.recs, b.place) && Places(f'.recs, b.place)
    requires forall k :: k in b.place ==> Data(f'.dat, f'.recs[b.place[k]]) == Data(f.dat, f.recs[b.place[k]])
    ensures Contents(f'.recs, f'.dat, b.place) == Contents(f.recs, f.dat, b.place)
  {
  }

  // ----- Data is overwritten in place -----

  /** The extent of a record holds new data of the same length. */
  function PutData(dat: string, r: IdxRec, data: string): string {
    if DatEnd(r) <= |dat| then dat[..r.datoff] + data + "\n" + dat[DatEnd(r)..] else dat
  }

  lemma {:induction false} PutDataParts(dat: string, r: IdxRec, data: string)
    requires DatEnd(r) <= |dat| && |data| + 1 == r.datlen
    ensures |PutData(dat, r, data)| == |dat| && PutData(dat, r, data)[DatEnd(r) - 1] == '\n'
    ensures PutData(dat, r, data)[r.datoff..DatEnd(r) - 1] == data
    ensures forall j :: 0 <= j < |dat| && !(r.datoff <= j < DatEnd(r)) ==> PutData(dat, r, data)[j] == dat[j]
  {
  }

  lemma {:induction false} PutDataExtent(dat: string, r: IdxRec, data: string, q: IdxRec)
    requires ExtentOk(dat, r) && |data| + 1 == r.datlen && ExtentOk(dat, q) && Apart(r, q)
    ensures ExtentOk(PutData(dat, r, data), q) && Data(PutData(dat, r, data), q) == Data(dat, q)
  {
    PutDataParts(dat, r, data);
    var d := PutData(dat, r, data);
    assert d[q.datoff..DatEnd(q) - 1] == dat[q.datoff..DatEnd(q) - 1];
  }

  lemma {:induction false} PutDataExtents(recs: map<nat, IdxRec>, dat: string, o: nat, data: string)
    requires Extents(recs, dat) && o in recs && |data| + 1 == recs[o].datlen
    ensures ExtentOk(dat, recs[o]) && Extents(recs, PutData(dat, recs[o], data))
    ensures ExtentOk(PutData(dat, recs[o], data), recs[o]) && Data(PutData(dat, recs[o], data), recs[o]) == data
    ensures forall p :: p in recs && p != o ==> Data(PutData(dat, recs[o], data), recs[p]) == Data(dat, recs[p])
  {
    assert ExtentOk(dat, recs[o]);
    PutDataParts(dat, recs[o], data);
    var dat' := PutData(dat, recs[o], data);
    forall p | p in recs ensures ExtentOk(dat', recs[p]) && IDXLEN_MIN <= recs[p].len <= IDXLEN_MAX {
      assert ExtentOk(dat, recs[p]);
      if p != o { assert Apart(recs[o], recs[p]); PutDataExtent(dat, recs[o], data, recs[p]); }
    }
    forall p | p in recs && p != o ensures Data(dat', recs[p]) == Data(dat, recs[p]) {
      assert Apart(recs[o], recs[p]) && ExtentOk(dat, recs[p]);
      PutDataExtent(dat, recs[o], data, recs[p]);
    }
  }

  lemma {:induction false} PutDataGood(f: Files, b: Books, loose: set<nat>, o: nat, data: string, f': Files)
    requires Good(f, b, loose) && o in f.recs && |data| + 1 == f.recs[o].datlen && DatEnd(f.recs[o]) <= |f.dat|
    requires f' == f.(dat := PutData(f.dat, f.recs[o], data))
    ensures Good(f', b, loose) && Places(f.recs, b.place) && Places(f'.recs, b.place)
    ensures o in loose ==> Contents(f'.recs, f'.dat, b.place) == Contents(f.recs, f.dat, b.place)
    ensures f.recs[o].key in b.place && b.place[f.recs[o].key] == o ==>
      Contents(f'.recs, f'.dat, b.place) == Contents(f.recs, f.dat, b.place)[f.recs[o].key := data]
    ensures ExtentOk(f'.dat, f.recs[o]) && Data(f'.dat, f.recs[o]) == data
  {
    PutDataExtents(f.recs, f.dat, o, data);
    SameShelves(f, b, loose, f', loose);
    PlacesInFiles(f, b, loose);
    PutDataContents(f, b, o, data, f');
    if o in loose { SameContents(f, b, f'); }
  }

  lemma {:induction false} PutDataContents(f: Files, b: Books, o: nat, data: string, f': Files)
    requires Extents(f.recs, f.dat) && Extents(f.recs, f'.dat) && f'.recs == f.recs && Places(f.recs, b.place) &&
      o in f.recs
    requires Data(f'.dat, f.recs[o]) == data && forall p :: p in f.recs && p != o ==>
      Data(f'.dat, f.recs[p]) == Data(f.dat, f.recs[p])
    requires forall k :: k in b.place ==> f.recs[b.place[k]].key == k
    ensures Places(f'.recs, b.place)
    ensures f.recs[o].key in b.place && b.place[f.recs[o].key] == o ==>
      Contents(f'.recs, f'.dat, b.place) == Contents(f.recs, f.dat, b.place)[f.recs[o].key := data]
  {
  }

  // ----- A loose record goes to the front of a list -----

  ghost predicate Links(f: Files, b: Books, o: nat, c: nat, f': Files, b': Books) {
    c < |b.lists| && c < |f.heads| && o in f.recs && f' == f.(heads := f.heads[c := o]) &&
    b' == b.(lists := b.lists[c := [o] + b.lists[c]], owner := b.owner[o := c],
             place := if c == FREE then b.place else b.place[f.recs[o].key := o])
  }

  lemma {:induction false} LinkedList(f: Files, b: Books, o: nat, c: nat, f': Files, b': Books)
    requires Links(f, b, o, c, f', b') && ListOk(f, c, b.lists[c]) && o !in b.lists[c] && START <= o <= PTR_MAX &&
      f.recs[o].ptr == f.heads[c]
    ensures ListOk(f', c, b'.lists[c])
  {
    var l, m := b.lists[c], b'.lists[c];
    forall j | 0 <= j < |m| ensures NodeOk(f', m, j) {
      if j > 0 {
        assert m[j] == l[j - 1] && NodeOk(f, l, j - 1) && At(m, j + 1) == At(l, j);
      } else { assert At(m, 1) == At(l, 0); }
    }
  }

  lemma {:induction false} LinkGood(f: Files, b: Books, loose: set<nat>, o: nat, c: nat, f': Files, b': Books)
    requires Good(f, b, loose) && o in loose && c <= NHASH && START <= o <= PTR_MAX && Links(f, b, o, c, f', b')
    requires f.recs[o].ptr == f.heads[c] && NoSeparator(f.recs[o].key)
    requires if c == FREE then Blank(f.recs[o].key) else c == b.bucket(f.recs[o].key) && f.recs[o].key !in b.place
    ensures Good(f', b', loose - {o}) && Places(f.recs, b.place) && Places(f'.recs, b'.place) &&
      ExtentOk(f.dat, f.recs[o])
    ensures Contents(f'.recs, f'.dat, b'.place) == if c == FREE then Contents(f.recs, f.dat, b.place)
      else Contents(f.recs, f.dat, b.place)[f.recs[o].key := Data(f.dat, f.recs[o])]
  {
    LinkShelves(f, b, loose, o, c, f', b');
    PlacesInFiles(f, b, loose);
    PlacesInFiles(f', b', loose - {o});
    LinkContents(f, b, o, c, f', b');
  }

  lemma {:induction false} LinkShelves(f: Files, b: Books, loose: set<nat>, o: nat, c: nat, f': Files, b': Books)
    requires Shelves(f, b, loose) && o in loose && c <= NHASH && START <= o <= PTR_MAX && Links(f, b, o, c, f', b')
    requires f.recs[o].ptr == f.heads[c] && NoSeparator(f.recs[o].key)
    requires if c == FREE then Blank(f.recs[o].key) else c == b.bucket(f.recs[o].key) && f.recs[o].key !in b.place
    ensures Shelves(f', b', loose - {o})
  {
    forall d | 0 <= d <= NHASH ensures ListOk(f', d, b'.lists[d]) && OwnList(b', d) {
      assert ListOk(f, d, b.lists[d]) && OwnList(b, d);
      if d == c { LinkedList(f, b, o, c, f', b'); } else { SameList(f, f', d, b.lists[d]); }
    }
    forall p | p in b'.owner ensures Shelved(f', b', p) { LinkGoodShelf(f, b, loose, o, c, f', b', p); }
    forall k | k in b'.place ensures KeyOk(f', b', k) { LinkGoodKey(f, b, loose, o, c, f', b', k); }
  }

  lemma {:induction false} LinkGoodKey(f: Files, b: Books, loose: set<nat>, o: nat, c: nat, f': Files, b': Books,
      k: string)
    requires Shelves(f, b, loose) && o in loose && c <= NHASH && Links(f, b, o, c, f', b') && k in b'.place
    requires if c == FREE then Blank(f.recs[o].key) else c == b.bucket(f.recs[o].key) && f.recs[o].key !in b.place
    ensures KeyOk(f', b', k)
  {
    if k in b.place { assert KeyOk(f, b, k); }
  }

  lemma {:induction false} LinkGoodShelf(f: Files, b: Books, loose: set<nat>, o: nat, c: nat, f': Files, b': Books,
      p: nat)
    requires Shelves(f, b, loose) && o in loose && c <= NHASH && Links(f, b, o, c, f', b') && p in b'.owner &&
      NoSeparator(f.recs[o].key)
    requires if c == FREE then Blank(f.recs[o].key) else c == b.bucket(f.recs[o].key) && f.recs[o].key !in b.place
    ensures p in f'.recs && Shelved(f', b', p)
  {
    if p != o { assert Shelved(f, b, p); }
  }

  lemma {:induction false} LinkContents(f: Files, b: Books, o: nat, c: nat, f': Files, b': Books)
    requires Links(f, b, o, c, f', b') && Extents(f.recs, f.dat) && Places(f.recs, b.place) && Places(f'.recs, b'.place)
    ensures ExtentOk(f.dat, f.recs[o])
    ensures Contents(f'.recs, f'.dat, b'.place) == if c == FREE then Contents(f.recs, f.dat, b.place)
      else Contents(f.recs, f.dat, b.place)[f.recs[o].key := Data(f.dat, f.recs[o])]
  {
  }

  // ----- A record is appended -----

  function Appended(f: Files, r: IdxRec, data: string): Files {
    Files(f.heads, f.recs[f.end := r], f.end + Size(r), f.dat + data + "\n")
  }

  lemma {:induction false} BeforeEnd(recs: map<nat, IdxRec>, end: nat, o: nat)
    requires Layout(recs, end) && o in recs
    ensures START <= o < Next(recs, o) <= end
  {
  }

  lemma {:induction false} AppendLayout(recs: map<nat, IdxRec>, end: nat, r: IdxRec, recs': map<nat, IdxRec>, end': nat)
    requires Layout(recs, end) && recs' == recs[end := r] && end' == end + Size(r)
    ensures end !in recs && Layout(recs', end')
  {
    if end in recs { BeforeEnd(recs, end, end); }
    forall o | o in recs' ensures START <= o &&
      (Next(recs', o) == end' || (Next(recs', o) < end' && Next(recs', o) in recs')) {
      if o != end { BeforeEnd(recs, end, o); assert Next(recs', o) == Next(recs, o); }
    }
    forall o, p | o in recs' && p in recs' && o < p ensures Next(recs', o) <= p {
      if p in recs { BeforeEnd(recs, end, p); }
      if o in recs { BeforeEnd(recs, end, o); assert Next(recs', o) == Next(recs, o); }
    }
  }

  lemma {:induction false} AppendExtents(f: Files, r: IdxRec, data: string)
    requires Extents(f.recs, f.dat) && f.end !in f.recs && r.datoff == |f.dat| && r.datlen == |data| + 1 &&
      DATLEN_MIN <= r.datlen <= DATLEN_MAX
    requires r.len == Len(|r.key|, r.datoff, r.datlen) && IDXLEN_MIN <= r.len <= IDXLEN_MAX
    ensures Extents(Appended(f, r, data).recs, Appended(f, r, data).dat)
    ensures ExtentOk(Appended(f, r, data).dat, r) && Data(Appended(f, r, data).dat, r) == data
    ensures forall o :: o in f.recs ==>
      ExtentOk(Appended(f, r, data).dat, f.recs[o]) &&
      Data(Appended(f, r, data).dat, f.recs[o]) == Data(f.dat, f.recs[o])
  {
    var f' := Appended(f, r, data);
    forall o | o in f.recs ensures ExtentOk(f'.dat, f.recs[o]) && Data(f'.dat, f.recs[o]) == Data(f.dat, f.recs[o]) {
      assert ExtentOk(f.dat, f.recs[o]);
      AppendExtent(f.dat, data, f.recs[o]);
    }
    assert f'.dat[r.datoff..DatEnd(r) - 1] == data;
    forall o | o in f'.recs ensures ExtentOk(f'.dat, f'.recs[o]) && IDXLEN_MIN <= f'.recs[o].len <= IDXLEN_MAX {
      if o != f.end { assert ExtentOk(f.dat, f.recs[o]); }
    }
    AppendApart(f, r);
    AppendLengths(f.recs, f.end, r);
  }

  lemma {:induction false} AppendApart(f: Files, r: IdxRec)
    requires Extents(f.recs, f.dat) && f.end !in f.recs && r.datoff == |f.dat|
    ensures forall o, p {:trigger Apart(f.recs[f.end := r][o], f.recs[f.end := r][p])} ::
      o in f.recs[f.end := r] && p in f.recs[f.end := r] && o != p ==>
        Apart(f.recs[f.end := r][o], f.recs[f.end := r][p])
  {
    var recs' := f.recs[f.end := r];
    forall o, p | o in recs' && p in recs' && o != p ensures Apart(recs'[o], recs'[p]) {
      if o != f.end { assert ExtentOk(f.dat, f.recs[o]); }
      if p != f.end { assert ExtentOk(f.dat, f.recs[p]); }
      if o != f.end && p != f.end { assert Apart(f.recs[o], f.recs[p]); }
    }
  }

  lemma {:induction false} AppendLengths(recs: map<nat, IdxRec>, end: nat, r: IdxRec)
    requires Lengths(recs) && r.len == Len(|r.key|, r.datoff, r.datlen)
    ensures Lengths(recs[end := r])
  {
    var recs' := recs[end := r];
    forall o | o in recs' ensures recs'[o].len == Len(|recs'[o].key|, recs'[o].datoff, recs'[o].datlen) {
      if o != end { assert recs[o].len == Len(|recs[o].key|, recs[o].datoff, recs[o].datlen); }
    }
  }

  lemma {:induction false} AppendExtent(dat: string, data: string, r: IdxRec)
    requires ExtentOk(dat, r)
    ensures ExtentOk(dat + data + "\n", r) && Data(dat + data + "\n", r) == Data(dat, r)
  {
    assert (dat + data + "\n")[r.datoff..DatEnd(r) - 1] == dat[r.datoff..DatEnd(r) - 1];
  }

  lemma {:induction false} AppendGood(f: Files, b: Books, loose: set<nat>, r: IdxRec, data: string, f': Files)
    requires Good(f, b, loose) && r.datoff == |f.dat| && r.datlen == |data| + 1 && DATLEN_MIN <= r.datlen <= DATLEN_MAX
    requires r.len == Len(|r.key|, r.datoff, r.datlen) && IDXLEN_MIN <= r.len <= IDXLEN_MAX &&
      f' == Appended(f, r, data)
    ensures Good(f', b, loose + {f.end}) && f.end !in f.recs && START <= f.end
    ensures Places(f.recs, b.place) && Places(f'.recs, b.place) &&
      Contents(f'.recs, f'.dat, b.place) == Contents(f.recs, f.dat, b.place)
    ensures ExtentOk(f'.dat, r) && Data(f'.dat, r) == data
  {
    AppendLayout(f.recs, f.end, r, f'.recs, f'.end);
    AppendExtents(f, r, data);
    AppendShelves(f, b, loose, r, data, f');
    PlacesInFiles(f, b, loose);
    AppendContents(f, b, r, data, f');
  }

  lemma {:induction false} AppendShelves(f: Files, b: Books, loose: set<nat>, r: IdxRec, data: string, f': Files)
    requires Shelves(f, b, loose) && f' == Appended(f, r, data) && f.end !in f.recs
    ensures Shelves(f', b, loose + {f.end})
  {
    SameShelves(f, b, loose, f', loose + {f.end});
  }

  lemma {:induction false} AppendContents(f: Files, b: Books, r: IdxRec, data: string, f': Files)
    requires f' == Appended(f, r, data) && f.end !in f.recs && Places(f.recs, b.place) && Extents(f.recs, f.dat) &&
      Extents(f'.recs, f'.dat)
    requires forall o :: o in f.recs ==>
      ExtentOk(f'.dat, f.recs[o]) && Data(f'.dat, f.recs[o]) == Data(f.dat, f.recs[o])
    ensures Places(f'.recs, b.place) && Contents(f'.recs, f'.dat, b.place) == Contents(f.recs, f.dat, b.place)
  {
    forall k | k in b.place ensures Data(f'.dat, f'.recs[b.place[k]]) == Data(f.dat, f.recs[b.place[k]]) {
      assert f'.recs[b.place[k]] == f.recs[b.place[k]];
    }
  }
}
