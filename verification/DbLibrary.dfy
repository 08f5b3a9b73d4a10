/** db_store, db_fetch, db_delete, db_rewind and db_nextrec of apue/db/db.c, for one process. */
module DbLibrary {
  import opened Basics
  import opened Lists
  import opened DbFiles

  const DB_INSERT := 1
  const DB_REPLACE := 2
  const DB_STORE := 3

  /** What a call returns, or that it ended the process with err_dump or err_quit. */
  datatype Rc = Code(rc: int) | Halt

  function Spaces(n: nat): (s: string)
    ensures |s| == n && Blank(s) && NoSeparator(s)
  {
    if n == 0 then "" else Spaces(n - 1) + " "
  }

  ghost function Model(f: Files, b: Books): map<string, string>
  {
    Contents(f.recs, f.dat, b.place)
  }

  /** The lists of the keys and the records left behind are the same. */
  ghost predicate SameNames(b: Books, b': Books) {
    b'.bucket == b.bucket && b'.lost == b.lost
  }

  // ----- The three ways to change the files -----

  /** The files after _db_dodelete of record o, node i of list c. */
  ghost function DeletedFiles(f: Files, l: seq<nat>, c: nat, i: nat, o: nat): Files
    requires o in f.recs && DatEnd(f.recs[o]) <= |f.dat| && f.recs[o].datlen >= 1 && |f.heads| > 0
  {
    var r := f.recs[o];
    var f1 := f.(dat := PutData(f.dat, r, Spaces(r.datlen - 1)));
    var f2 := f1.(recs := f1.recs[o := IdxRec(f1.heads[FREE], r.len, Spaces(|r.key|), r.datoff, r.datlen)]);
    PutPtr(PutPtr(f2, FREE, o), PtrOff(l, c, i), r.ptr)
  }

  /** A loose record gets new data, a new key of the same length and a place at the front of list c. */
  ghost function Refiled(f: Files, o: nat, key: string, data: string, c: nat): Files
    requires o in f.recs && c < |f.heads|
  {
    f.(dat := PutData(f.dat, f.recs[o], data), recs :=
      f.recs[o := IdxRec(f.heads[c], f.recs[o].len, key, f.recs[o].datoff, f.recs[o].datlen)],
       heads := f.heads[c := o])
  }

  /** The assignments of _db_dodelete amount to unlinking, blanking and putting the record on the free list. */
  lemma {:induction false} DeleteOrder(f: Files, b: Books, c: nat, i: nat, o: nat, f1: Files, b1: Books, f4: Files)
    requires |f.heads| == |b.lists| == NHASH + 1 && 1 <= c <= NHASH && Unlinks(f, b, c, i, o, f1, b1) &&
      ListOk(f, c, b.lists[c])
    requires DatEnd(f.recs[o]) <= |f.dat| && f.recs[o].datlen >= 1 && f4 == DeletedFiles(f, b.lists[c], c, i, o)
    ensures o in f1.recs && f1.recs[o] == f.recs[o] && f1.dat == f.dat && |f1.heads| == NHASH + 1
    ensures f4 == Refiled(f1, o, Spaces(|f.recs[o].key|), Spaces(f.recs[o].datlen - 1), FREE)
    ensures f4.end == f.end && SameShape(f.recs, f4.recs) &&
      f4.dat == PutData(f.dat, f.recs[o], Spaces(f.recs[o].datlen - 1))
  {
    var l := b.lists[c];
    assert NodeOk(f, l, i);
    if i > 0 { assert NodeOk(f, l, i - 1) && l[i - 1] != o; } else { HeadOffset(c); }
    HeadOffset(FREE);
  }

  /** New data and a new key for record o, in its old extents. */
  lemma {:induction false} RefillPhysical(recs: map<nat, IdxRec>, end: nat, dat: string, o: nat, data: string,
      recs': map<nat, IdxRec>)
    requires Layout(recs, end) && Extents(recs, dat) && o in recs && |data| + 1 == recs[o].datlen &&
      SameShape(recs, recs')
    ensures Layout(recs', end) && Extents(recs', PutData(dat, recs[o], data))
  {
    PutDataExtents(recs, dat, o, data);
    ShapeKeeps(recs, recs', end, PutData(dat, recs[o], data));
  }

  lemma DataAlike(dat: string, r: IdxRec, q: IdxRec)
    requires q.datoff == r.datoff && q.datlen == r.datlen
    ensures Data(dat, q) == Data(dat, r)
  {
  }

  lemma {:induction false} RefillData(recs: map<nat, IdxRec>, dat: string, o: nat, data: string, recs': map<nat,
      IdxRec>, dat': string)
    requires o in recs && SameShape(recs, recs')
    requires Data(dat', recs[o]) == data && forall p :: p in recs && p != o ==>
      Data(dat', recs[p]) == Data(dat, recs[p])
    ensures Data(dat', recs'[o]) == data && forall p :: p in recs && p != o ==>
      Data(dat', recs'[p]) == Data(dat, recs[p])
  {
    forall p | p in recs ensures Data(dat', recs'[p]) == Data(dat', recs[p]) { DataAlike(dat', recs[p], recs'[p]); }
  }

  lemma {:induction false} RefileShelves(f: Files, b: Books, o: nat, key: string, data: string, c: nat)
      returns (b': Books)
    requires Shelves(f, b, {o}) && o in f.recs && c <= NHASH && START <= o <= PTR_MAX && NoSeparator(key) &&
      DatEnd(f.recs[o]) <= |f.dat|
    requires if c == FREE then Blank(key) else c == b.bucket(key) && key !in b.place
    ensures b' == b.(lists := b.lists[c := [o] + b.lists[c]], owner := b.owner[o := c],
                     place := if c == FREE then b.place else b.place[key := o])
    ensures Shelves(Refiled(f, o, key, data, c), b', {})
  {
    var f' := Refiled(f, o, key, data, c);
    var f1 := f.(dat := f'.dat, recs := f'.recs);
    SameShelves(f, b, {o}, f1, {o});
    b' := b.(lists := b.lists[c := [o] + b.lists[c]], owner := b.owner[o := c],
             place := if c == FREE then b.place else b.place[key := o]);
    LinkShelves(f1, b, {o}, o, c, f', b');
    assert {o} - {o} == {};
  }

  lemma {:induction false} SameContentsBut(recs: map<nat, IdxRec>, dat: string, place: map<string, nat>, o: nat,
      recs': map<nat, IdxRec>, dat': string)
    requires o in recs && recs'.Keys == recs.Keys && forall k :: k in place ==> place[k] != o
    requires forall p :: p in recs && p != o ==> Data(dat', recs'[p]) == Data(dat, recs[p])
    ensures Contents(recs', dat', place) == Contents(recs, dat, place)
  {
  }

  lemma {:induction false} MoreContents(recs: map<nat, IdxRec>, dat: string, place: map<string, nat>, o: nat,
      key: string)
    requires o in recs
    ensures Contents(recs, dat, place[key := o]) == Contents(recs, dat, place)[key := Data(dat, recs[o])]
  {
  }

  lemma {:induction false} RefileGood(f: Files, b: Books, o: nat, key: string, data: string, c: nat) returns (b': Books)
    requires Good(f, b, {o}) && o in f.recs && c <= NHASH && START <= o <= PTR_MAX && NoSeparator(key)
    requires |key| == |f.recs[o].key| && |data| + 1 == f.recs[o].datlen && DatEnd(f.recs[o]) <= |f.dat|
    requires if c == FREE then Blank(key) else c == b.bucket(key) && key !in b.place
    ensures Good(Refiled(f, o, key, data, c), b', {}) && SameNames(b, b')
    ensures Model(Refiled(f, o, key, data, c), b') == if c == FREE then Model(f, b) else Model(f, b)[key := data]
  {
    var f' := Refiled(f, o, key, data, c);
    RefillPhysical(f.recs, f.end, f.dat, o, data, f'.recs);
    b' := RefileShelves(f, b, o, key, data, c);
    PlacesInFiles(f, b, {o});
    PutDataExtents(f.recs, f.dat, o, data);
    RefillData(f.recs, f.dat, o, data, f'.recs, f'.dat);
    SameContentsBut(f.recs, f.dat, b.place, o, f'.recs, f'.dat);
    if c != FREE { MoreContents(f'.recs, f'.dat, b.place, o, key); }
  }

  /** The record has left its list and is on the free list. */
  lemma {:induction false} DeleteShelves(f: Files, b: Books, c: nat, i: nat, o: nat, f4: Files) returns (b4: Books)
    requires Shelves(f, b, {}) && 1 <= c <= NHASH && i < |b.lists[c]| && o == b.lists[c][i] && o in f.recs
    requires DatEnd(f.recs[o]) <= |f.dat| && f.recs[o].datlen >= 1 && f4 == DeletedFiles(f, b.lists[c], c, i, o)
    ensures Shelves(f4, b4, {}) && SameNames(b, b4) && b4.place == b.place - {f.recs[o].key}
    ensures f4.end == f.end && SameShape(f.recs, f4.recs) &&
      f4.dat == PutData(f.dat, f.recs[o], Spaces(f.recs[o].datlen - 1))
  {
    var o1, f1, b1 := PutUnlinks(f, b, {}, c, i);
    UnlinkShelves(f, b, {}, c, i, o, f1, b1);
    assert ListOk(f, c, b.lists[c]) && NodeOk(f, b.lists[c], i);
    DeleteOrder(f, b, c, i, o, f1, b1, f4);
    assert {} + {o} == {o};
    b4 := RefileShelves(f1, b1, o, Spaces(|f.recs[o].key|), Spaces(f.recs[o].datlen - 1), FREE);
  }

  lemma {:induction false} DeleteGood(f: Files, b: Books, c: nat, i: nat, o: nat, f4: Files) returns (b4: Books)
    requires Good(f, b, {}) && 1 <= c <= NHASH && i < |b.lists[c]| && o == b.lists[c][i] && o in f.recs
    requires DatEnd(f.recs[o]) <= |f.dat| && f.recs[o].datlen >= 1 && f4 == DeletedFiles(f, b.lists[c], c, i, o)
    ensures Good(f4, b4, {}) && SameNames(b, b4)
    ensures Model(f4, b4) == Model(f, b) - {f.recs[o].key} && f4.end == f.end && |f4.dat| == |f.dat|
  {
    var r := f.recs[o];
    b4 := DeleteShelves(f, b, c, i, o, f4);
    RefillPhysical(f.recs, f.end, f.dat, o, Spaces(r.datlen - 1), f4.recs);
    PlacesInFiles(f, b, {});
    DeleteModel(f, b, o, f4, b4);
  }

  lemma {:induction false} DeleteModel(f: Files, b: Books, o: nat, f4: Files, b4: Books)
    requires Extents(f.recs, f.dat) && o in f.recs && Places(f.recs, b.place) && forall k :: k in b.place ==>
      f.recs[b.place[k]].key == k
    requires SameShape(f.recs, f4.recs) && f.recs[o].datlen >= 1 &&
      f4.dat == PutData(f.dat, f.recs[o], Spaces(f.recs[o].datlen - 1))
    requires b4.place == b.place - {f.recs[o].key}
    ensures Model(f4, b4) == Model(f, b) - {f.recs[o].key} && |f4.dat| == |f.dat|
  {
    var blanks := Spaces(f.recs[o].datlen - 1);
    PutDataExtents(f.recs, f.dat, o, blanks);
    PutDataParts(f.dat, f.recs[o], blanks);
    RefillData(f.recs, f.dat, o, blanks, f4.recs, f4.dat);
    FewerPlaces(f, b, o);
    SameContentsBut(f.recs, f.dat, b4.place, o, f4.recs, f4.dat);
  }

  lemma {:induction false} FewerPlaces(f: Files, b: Books, o: nat)
    requires o in f.recs && Places(f.recs, b.place) && forall k :: k in b.place ==> f.recs[b.place[k]].key == k
    ensures Contents(f.recs, f.dat, b.place - {f.recs[o].key}) == Contents(f.recs, f.dat, b.place) - {f.recs[o].key}
    ensures forall k :: k in b.place - {f.recs[o].key} ==> (b.place - {f.recs[o].key})[k] != o
  {
  }

  /** A new record at the ends of both files goes to the front of its list. */
  ghost function Stored(f: Files, key: string, data: string, c: nat): Files
    requires c < |f.heads|
  {
    Appended(f, IdxRec(f.heads[c], Len(|key|, |f.dat|, |data| + 1), key, |f.dat|, |data| + 1), data).(heads :=
      f.heads[c := f.end])
  }

  lemma {:induction false} StoreGood(f: Files, b: Books, key: string, data: string, c: nat) returns (b': Books)
    requires Good(f, b, {}) && c <= NHASH && f.end <= PTR_MAX && NoSeparator(key) && c == b.bucket(key) &&
      key !in b.place
    requires DATLEN_MIN <= |data| + 1 <= DATLEN_MAX && IDXLEN_MIN <= Len(|key|, |f.dat|, |data| + 1) <= IDXLEN_MAX
    ensures Good(Stored(f, key, data, c), b', {}) && SameNames(b, b')
    ensures Model(Stored(f, key, data, c), b') == Model(f, b)[key := data]
  {
    var r, o := IdxRec(f.heads[c], Len(|key|, |f.dat|, |data| + 1), key, |f.dat|, |data| + 1), f.end;
    var f1 := Appended(f, r, data);
    AppendGood(f, b, {}, r, data, f1);
    b' := b.(lists := b.lists[c := [o] + b.lists[c]], owner := b.owner[o := c], place := b.place[key := o]);
    assert {} + {o} == {o} && {o} - {o} == {};
    LinkGood(f1, b, {o}, o, c, Stored(f, key, data, c), b');
  }

  /** Every index record is on exactly one list, or left behind on none; no two share a byte of the index file or of the
      data file. */
  lemma {:induction false} OneListEach(f: Files, b: Books, o: nat, p: nat)
    requires Good(f, b, {}) && o in f.recs && p in f.recs && o != p
    ensures o !in b.lost ==> o in b.owner && b.owner[o] <= NHASH
    ensures forall c :: 0 <= c <= NHASH ==> (o in b.lists[c] <==> o !in b.lost && c == b.owner[o])
    ensures Apart(f.recs[o], f.recs[p]) && (Next(f.recs, o) <= p || Next(f.recs, p) <= o)
  {
    if o !in b.lost { assert o in b.owner && Shelved(f, b, o); }
    assert Apart(f.recs[o], f.recs[p]);
    forall c | 0 <= c <= NHASH && o in b.lists[c] ensures o in b.owner && c == b.owner[o] { assert OwnList(b, c); }
    BeforeEnd(f.recs, f.end, o);
    BeforeEnd(f.recs, f.end, p);
  }

  // ----- Looking things up -----

  ghost predicate NotAmong(f: Files, l: seq<nat>, n: nat, key: string) {
    n <= |l| && forall j :: 0 <= j < n ==> l[j] in f.recs && f.recs[l[j]].key != key
  }

  lemma {:induction false} KeyListed(f: Files, b: Books, key: string)
    requires Shelves(f, b, {}) && key in b.place
    ensures b.place[key] in b.lists[b.bucket(key)] && b.place[key] in f.recs && f.recs[b.place[key]].key == key
  {
    assert KeyOk(f, b, key) && Shelved(f, b, b.place[key]);
  }

  lemma {:induction false} AbsentKey(f: Files, b: Books, key: string)
    requires Shelves(f, b, {}) && NotAmong(f, b.lists[b.bucket(key)], |b.lists[b.bucket(key)]|, key)
    ensures key !in b.place
  {
    if key in b.place { KeyListed(f, b, key); }
  }

  lemma {:induction false} PresentKey(f: Files, b: Books, c: nat, o: nat)
    requires Good(f, b, {}) && 1 <= c <= NHASH && o in b.lists[c]
    ensures o in f.recs && f.recs[o].key in b.place && b.place[f.recs[o].key] == o && NoSeparator(f.recs[o].key) &&
      c == b.bucket(f.recs[o].key)
    ensures ExtentOk(f.dat, f.recs[o]) && f.recs[o].key in Model(f, b) &&
      Model(f, b)[f.recs[o].key] == Data(f.dat, f.recs[o])
  {
    assert OwnList(b, c) && Shelved(f, b, o) && ExtentOk(f.dat, f.recs[o]);
    PlacesInFiles(f, b, {});
  }

  /** Place i of list c, as the search loops see it. */
  ghost predicate Standing(f: Files, b: Books, c: nat, i: nat, offset: nat, ptroff: nat) {
    c <= NHASH && |b.lists| == NHASH + 1 && i <= |b.lists[c]| && offset == At(b.lists[c], i) &&
      ptroff == PtrOff(b.lists[c], c, i)
  }

  lemma {:induction false} NodeHere(f: Files, b: Books, loose: set<nat>, c: nat, i: nat)
    requires Shelves(f, b, loose) && c <= NHASH && i <= |b.lists[c]|
    ensures At(b.lists[c], i) == 0 <==> i == |b.lists[c]|
    ensures i < |b.lists[c]| ==>
      b.lists[c][i] in f.recs && f.recs[b.lists[c][i]].ptr == At(b.lists[c], i + 1) && START <= b.lists[c][i] <= PTR_MAX
    ensures i < |b.lists[c]| ==> b.lists[c][i] in b.lists[c]
    ensures f.heads[c] == At(b.lists[c], 0) && f.heads[c] <= PTR_MAX
  {
    assert ListOk(f, c, b.lists[c]);
    if i < |b.lists[c]| { assert NodeOk(f, b.lists[c], i); }
    if 0 < |b.lists[c]| { assert NodeOk(f, b.lists[c], 0); }
  }

  function PtrAt(f: Files, off: nat): nat
    requires if off < START then off / PTR_SZ < |f.heads| else off in f.recs
  {
    if off < START then f.heads[off / PTR_SZ] else f.recs[off].ptr
  }

  /** The loop of _db_find_and_lock along list c. */
  method SearchKey(f: Files, c: nat, ghost l: seq<nat>, key: string) returns (offset: nat, ptroff: nat, ghost i: nat)
    requires c <= NHASH && |f.heads| == NHASH + 1 && ListOk(f, c, l)
    ensures i <= |l| && offset == At(l, i) && ptroff == PtrOff(l, c, i) && NotAmong(f, l, i, key)
    ensures if offset == 0 then i == |l| else i < |l| && offset in f.recs && f.recs[offset].key == key
  {
    HeadOffset(c);
    i, ptroff := 0, c * PTR_SZ;
    offset := PtrAt(f, ptroff);
    while offset != 0
      invariant i <= |l| && offset == At(l, i) && ptroff == PtrOff(l, c, i) && NotAmong(f, l, i, key)
      decreases |l| - i
    {
      assert NodeOk(f, l, i);
      if f.recs[offset].key == key {
        return;
      }
      ptroff, offset := offset, f.recs[offset].ptr;
      i := i + 1;
    }
    assert i < |l| ==> NodeOk(f, l, i);
  }

  /** The last record that a search along the whole list has read. */
  lemma {:induction false} LastRead(f: Files, c: nat, l: seq<nat>, ptroff: nat)
    requires c <= NHASH && c < |f.heads| && ListOk(f, c, l) && ptroff == PtrOff(l, c, |l|)
    ensures ptroff >= START <==> l != []
    ensures l != [] ==> ptroff == l[|l| - 1] && ptroff in f.recs
  {
    if l != [] { assert NodeOk(f, l, |l| - 1); } else { HeadOffset(c); }
  }

  lemma {:induction false} KeysOfMap(f: Files, b: Books)
    requires Good(f, b, {})
    ensures Model(f, b).Keys == b.place.Keys
  {
    PlacesInFiles(f, b, {});
  }

  lemma {:induction false} AbsentFromModel(f: Files, b: Books, key: string)
    requires Good(f, b, {}) && key !in Model(f, b)
    ensures key !in b.place
  {
    KeysOfMap(f, b);
  }

  /** What _db_dodelete reads and writes is in range. */
  lemma {:induction false} DeleteReady(f: Files, b: Books, c: nat, i: nat)
    requires Good(f, b, {}) && 1 <= c <= NHASH && i < |b.lists[c]|
    ensures b.lists[c][i] in f.recs && b.lists[c][i] <= PTR_MAX && f.recs[b.lists[c][i]].ptr <= PTR_MAX &&
      f.heads[FREE] <= PTR_MAX
    ensures ExtentOk(f.dat, f.recs[b.lists[c][i]]) && |f.heads| == NHASH + 1
    ensures IDXLEN_MIN <= f.recs[b.lists[c][i]].len <= IDXLEN_MAX
    ensures f.recs[b.lists[c][i]].len ==
      Len(|f.recs[b.lists[c][i]].key|, f.recs[b.lists[c][i]].datoff, f.recs[b.lists[c][i]].datlen)
  {
    NodeHere(f, b, {}, c, i);
    assert ExtentOk(f.dat, f.recs[b.lists[c][i]]);
    LengthOf(f.recs, b.lists[c][i]);
    NodeHere(f, b, {}, c, i + 1);
    NodeHere(f, b, {}, FREE, 0);
  }

  /** The index record of new data at the end of the data file has a length within the limits. */
  predicate IdxFits(f: Files, key: string, data: string) {
    IDXLEN_MIN <= Len(|key|, |f.dat|, |data| + 1) <= IDXLEN_MAX
  }

  ghost predicate HasRecord(f: Files, o: nat, key: string, data: string) {
    o in f.recs && f.recs[o].key == key && Data(f.dat, f.recs[o]) == data
  }

  /** Appending would break a limit: the length of the index record or the size of a pointer. */
  ghost predicate NoRoom(f: Files, key: string, data: string) {
    !IdxFits(f, key, data) || f.end > PTR_MAX
  }

  /** The free list has a record with both lengths. */
  ghost predicate Reusable(f: Files, b: Books, keylen: nat, len: nat) {
    |b.lists| > FREE && exists i :: 0 <= i < |b.lists[FREE]| && HasLengths(f, b.lists[FREE][i], keylen, len)
  }

  predicate HasLengths(f: Files, o: nat, keylen: nat, len: nat) {
    o in f.recs && |f.recs[o].key| == keylen && f.recs[o].datlen == len
  }

  predicate DataFits(data: string) {
    DATLEN_MIN <= |data| + 1 <= DATLEN_MAX
  }

  /** When db_store ends the process: the data has a bad length, or a new record is needed, at the ends of the files,
      and does not fit there. */
  ghost predicate StoreHalts(f: Files, b: Books, key: string, data: string, flag: int) {
    (flag == DB_INSERT || flag == DB_REPLACE || flag == DB_STORE) &&
    (!DataFits(data) ||
     (NoRoom(f, key, data) &&
      if key in b.place then flag != DB_INSERT && b.place[key] in f.recs && f.recs[b.place[key]].datlen != |data| + 1
      else flag != DB_REPLACE && !Reusable(f, b, |key|, |data| + 1)))
  }

  /** At most the record at end, the last of the file, is on no list. */
  ghost function Unlisted(f: Files, end: nat): set<nat> {
    if end in f.recs then {end} else {}
  }

  /** Data at the end of the data file that no index record knows of. */
  lemma {:induction false} LongerData(f: Files, b: Books, data: string, f': Files)
    requires Good(f, b, {}) && f' == f.(dat := f.dat + data + "\n")
    ensures Good(f', b, {}) && Model(f', b) == Model(f, b) && f.end !in f.recs
  {
    forall o | o in f.recs ensures ExtentOk(f'.dat, f.recs[o]) && Data(f'.dat, f.recs[o]) == Data(f.dat, f.recs[o]) {
      assert ExtentOk(f.dat, f.recs[o]);
      AppendExtent(f.dat, data, f.recs[o]);
    }
    LongerExtents(f.recs, f.dat, f'.dat);
    LongerContents(f.recs, f.dat, f'.dat, b.place);
    SameShelves(f, b, {}, f', {});
    if f.end in f.recs { BeforeEnd(f.recs, f.end, f.end); }
  }

  lemma {:induction false} LongerContents(recs: map<nat, IdxRec>, dat: string, dat': string, place: map<string, nat>)
    requires forall o :: o in recs ==> Data(dat', recs[o]) == Data(dat, recs[o])
    ensures Contents(recs, dat', place) == Contents(recs, dat, place)
  {
  }

  lemma {:induction false} LongerExtents(recs: map<nat, IdxRec>, dat: string, dat': string)
    requires Extents(recs, dat) && forall o :: o in recs ==> ExtentOk(dat', recs[o])
    ensures Extents(recs, dat')
  {
    forall o | o in recs ensures ExtentOk(dat', recs[o]) && IDXLEN_MIN <= recs[o].len <= IDXLEN_MAX {
      assert ExtentOk(dat, recs[o]);
    }
  }

  /** The files when appending has met a limit. */
  ghost function Abandoned(f: Files, key: string, data: string, c: nat): Files
    requires c < |f.heads|
  {
    if IdxFits(f, key, data) then
      Appended(f, IdxRec(f.heads[c], Len(|key|, |f.dat|, |data| + 1), key, |f.dat|, |data| + 1), data)
    else f.(dat := f.dat + data + "\n")
  }

  lemma {:induction false} AbandonedGood(f: Files, b: Books, key: string, data: string, c: nat, f': Files)
      returns (b': Books)
    requires Good(f, b, {}) && c <= NHASH && DataFits(data) && NoSeparator(key) && NoRoom(f, key, data)
    requires f' == Abandoned(f, key, data, c)
    ensures b' == b.(lost := b.lost + Unlisted(f', f.end)) && Good(f', b', {}) && Model(f', b') == Model(f, b)
    ensures if IdxFits(f, key, data) then HasRecord(f', f.end, key, data) else f.end !in f'.recs
  {
    var len := Len(|key|, |f.dat|, |data| + 1);
    b' := b.(lost := b.lost + Unlisted(f', f.end));
    if IDXLEN_MIN <= len <= IDXLEN_MAX {
      AppendGood(f, b, {}, IdxRec(f.heads[c], len, key, |f.dat|, |data| + 1), data, f');
      NodeHere(f, b, {}, c, 0);
      assert {} + {f.end} == {f.end};
      LeftBehind(f', b, f.end, b');
    } else {
      LongerData(f, b, data, f');
      assert b.lost + {} == b.lost;
    }
  }

  lemma {:induction false} LeftBehind(f: Files, b: Books, o: nat, b': Books)
    requires Shelves(f, b, {o}) && LostOk(f, o) && b' == b.(lost := b.lost + {o})
    ensures Shelves(f, b', {})
  {
    forall c | 0 <= c <= NHASH ensures ListOk(f, c, b'.lists[c]) && OwnList(b', c) {
      assert ListOk(f, c, b.lists[c]) && OwnList(b, c);
    }
    forall p | p in b'.owner ensures Shelved(f, b', p) { assert Shelved(f, b, p); }
    forall k | k in b'.place ensures KeyOk(f, b', k) { assert KeyOk(f, b, k); }
  }

  /** What db_store does to the map and what it returns. */
  ghost predicate StoreSpec(m: map<string, string>, key: string, data: string, flag: int, rc: int, m': map<string,
      string>) {
    if flag != DB_INSERT && flag != DB_REPLACE && flag != DB_STORE then rc == -1 && m' == m
    else if key in m && flag == DB_INSERT then rc == 1 && m' == m
    else if key !in m && flag == DB_REPLACE then rc == -1 && m' == m
    else rc == 0 && m' == m[key := data]
  }

  lemma {:induction false} LooseReady(f: Files, b: Books, o: nat, c: nat)
    requires Good(f, b, {o}) && o in f.recs && c <= NHASH
    ensures ExtentOk(f.dat, f.recs[o]) && |f.heads| == NHASH + 1 && f.heads[c] <= PTR_MAX
    ensures f.recs[o].len == Len(|f.recs[o].key|, f.recs[o].datoff, f.recs[o].datlen) &&
      IDXLEN_MIN <= f.recs[o].len <= IDXLEN_MAX
    ensures forall k :: 1 <= b.bucket(k) <= NHASH
  {
    assert ExtentOk(f.dat, f.recs[o]);
    LengthOf(f.recs, o);
    NodeHere(f, b, {o}, c, 0);
  }

  /** The loop of _db_findfree along the free list. */
  method SearchFree(f: Files, ghost l: seq<nat>, keylen: nat, datlen: nat)
      returns (offset: nat, saveoffset: nat, ghost i: nat)
    requires |f.heads| == NHASH + 1 && ListOk(f, FREE, l)
    ensures i <= |l| && offset == At(l, i) && saveoffset == PtrOff(l, FREE, i)
    ensures offset != 0 ==> i < |l| && HasLengths(f, offset, keylen, datlen)
    ensures forall j :: 0 <= j < i ==> !HasLengths(f, l[j], keylen, datlen)
    ensures offset == 0 ==> i == |l|
  {
    HeadOffset(FREE);
    i, saveoffset := 0, FREE;
    offset := PtrAt(f, saveoffset);
    while offset != 0
      invariant i <= |l| && offset == At(l, i) && saveoffset == PtrOff(l, FREE, i)
      invariant forall j :: 0 <= j < i ==> !HasLengths(f, l[j], keylen, datlen)
      decreases |l| - i
    {
      assert NodeOk(f, l, i);
      if |f.recs[offset].key| == keylen && f.recs[offset].datlen == datlen {
        return;
      }
      saveoffset, offset := offset, f.recs[offset].ptr;
      i := i + 1;
    }
    assert i < |l| ==> NodeOk(f, l, i);
  }

  /** Record i of the free list is taken off it. */
  lemma {:induction false} TakeFree(f: Files, b: Books, i: nat) returns (b': Books)
    requires Good(f, b, {}) && i < |b.lists[FREE]|
    ensures b.lists[FREE][i] in f.recs && f.recs[b.lists[FREE][i]].ptr <= PTR_MAX &&
      START <= b.lists[FREE][i] <= PTR_MAX
    ensures var o := b.lists[FREE][i];
      var f' := PutPtr(f, PtrOff(b.lists[FREE], FREE, i), f.recs[o].ptr);
      Good(f', b', {o}) && SameNames(b, b') && b'.place == b.place && Model(f', b') == Model(f, b) &&
        f'.end == f.end && f'.dat == f.dat &&
      SameShape(f.recs, f'.recs) && forall c :: 1 <= c <= NHASH ==> f'.heads[c] == f.heads[c]
  {
    NodeHere(f, b, {}, FREE, i);
    NodeHere(f, b, {}, FREE, i + 1);
    var o, f';
    o, f', b' := PutUnlinks(f, b, {}, FREE, i);
    UnlinkGood(f, b, {}, FREE, i, o, f', b');
    assert {} + {o} == {o};
  }

  lemma WithoutAbsent(m: map<string, string>, key: string)
    requires key !in m
    ensures m - {key} == m
  {
  }

  lemma RemovedAndAdded(m: map<string, string>, key: string, data: string)
    ensures (m - {key})[key := data] == m[key := data]
  {
  }

  lemma {:induction false} OverwriteGood(f: Files, b: Books, c: nat, i: nat, data: string, f': Files)
    requires Good(f, b, {}) && 1 <= c <= NHASH && i < |b.lists[c]| && b.lists[c][i] in f.recs &&
      f.recs[b.lists[c][i]].datlen == |data| + 1
    requires f' == f.(dat := PutData(f.dat, f.recs[b.lists[c][i]], data))
    ensures Good(f', b, {}) && Model(f', b) == Model(f, b)[f.recs[b.lists[c][i]].key := data]
  {
    var o := b.lists[c][i];
    NodeHere(f, b, {}, c, i);
    PresentKey(f, b, c, o);
    PutLive(f, b, o, data, f');
  }

  lemma {:induction false} PutLive(f: Files, b: Books, o: nat, data: string, f': Files)
    requires Good(f, b, {}) && o in f.recs && f.recs[o].datlen == |data| + 1 && f.recs[o].key in b.place &&
      b.place[f.recs[o].key] == o
    requires f' == f.(dat := PutData(f.dat, f.recs[o], data))
    ensures Good(f', b, {}) && Model(f', b) == Model(f, b)[f.recs[o].key := data]
  {
    assert ExtentOk(f.dat, f.recs[o]);
    PutDataGood(f, b, {}, o, data, f');
  }

  // ----- The records in the order of the file -----

  /** The offsets of the records from o on. */
  ghost function Scan(recs: map<nat, IdxRec>, end: nat, o: nat): seq<nat>
    decreases if o <= end then end - o else 0
  {
    if o in recs && Next(recs, o) <= end then [o] + Scan(recs, end, Next(recs, o)) else []
  }

  ghost function NonBlank(recs: map<nat, IdxRec>, l: seq<nat>): seq<nat> {
    if l == [] then []
    else (if l[0] in recs && !Blank(recs[l[0]].key) then [l[0]] else []) + NonBlank(recs, l[1..])
  }

  /** The records with keys that are not blank, from offset o on. */
  ghost function Ahead(f: Files, o: nat): seq<nat> {
    NonBlank(f.recs, Scan(f.recs, f.end, o))
  }

  ghost predicate AtRecord(f: Files, o: nat) {
    o == f.end || o in f.recs
  }

  lemma {:induction false} AheadStep(f: Files, o: nat)
    requires Layout(f.recs, f.end) && o in f.recs
    ensures START <= o < Next(f.recs, o) <= f.end && AtRecord(f, Next(f.recs, o))
    ensures Blank(f.recs[o].key) ==> Ahead(f, o) == Ahead(f, Next(f.recs, o))
    ensures !Blank(f.recs[o].key) ==> Ahead(f, o) == [o] + Ahead(f, Next(f.recs, o))
  {
    BeforeEnd(f.recs, f.end, o);
    var l := Scan(f.recs, f.end, o);
    assert l[0] == o && l[1..] == Scan(f.recs, f.end, Next(f.recs, o));
    assert [] + Ahead(f, Next(f.recs, o)) == Ahead(f, Next(f.recs, o));
  }

  /** The loop of db_nextrec over a key: it stops behind the first character that is no space, or behind the NUL. */
  method OnlySpaces(key: string) returns (blank: bool)
    ensures blank <==> forall i :: 0 <= i < |key| ==> key[i] == ' '
  {
    var ptr := 0;
    while ptr < |key| && key[ptr] == ' '
      invariant ptr <= |key| && forall i :: 0 <= i < ptr ==> key[i] == ' '
    {
      ptr := ptr + 1;
    }
    blank := ptr == |key|;
  }

  /** The loop of db_nextrec over records: every record passed over has nothing but spaces in its key. */
  method NextNonBlank(f: Files, from: nat) returns (o: nat)
    requires Layout(f.recs, f.end) && AtRecord(f, from)
    ensures AtRecord(f, o) && Ahead(f, from) == Ahead(f, o)
    ensures if o == f.end then Ahead(f, from) == []
      else o in f.recs && exists i :: 0 <= i < |f.recs[o].key| && f.recs[o].key[i] != ' '
    ensures forall q, i :: q in f.recs && from <= q < o && 0 <= i < |f.recs[q].key| ==> f.recs[q].key[i] == ' '
  {
    o := from;
    AtEnd(f);
    ghost var ahead := Ahead(f, from);
    while o != f.end
      invariant AtRecord(f, o) && ahead == Ahead(f, o)
      invariant forall q, i :: q in f.recs && from <= q < o && 0 <= i < |f.recs[q].key| ==> f.recs[q].key[i] == ' '
      decreases if o < f.end then f.end - o else 0
    {
      var blank := OnlySpaces(f.recs[o].key);
      if !blank {
        return;
      }
      AheadStep(f, o);
      forall q | q in f.recs && o < q ensures Next(f.recs, o) <= q { BeforeEnd(f.recs, f.end, q); }
      o := o + Size(f.recs[o]);
    }
  }

  /** What db_nextrec finds at record o. */
  lemma {:induction false} FoundNext(f: Files, b: Books, from: nat, o: nat)
    requires Good(f, b, {}) && o in f.recs && !Blank(f.recs[o].key) && Ahead(f, from) == Ahead(f, o)
    ensures Ahead(f, from) == [o] + Ahead(f, Next(f.recs, o)) && AtRecord(f, Next(f.recs, o))
    ensures ExtentOk(f.dat, f.recs[o])
    ensures o !in b.lost ==> f.recs[o].key in Model(f, b) && Model(f, b)[f.recs[o].key] == Data(f.dat, f.recs[o])
  {
    assert ExtentOk(f.dat, f.recs[o]);
    if o !in b.lost { LiveRecord(f, b, o); }
    AheadStep(f, o);
  }

  lemma {:induction false} AtEnd(f: Files)
    requires Layout(f.recs, f.end)
    ensures f.end !in f.recs && Ahead(f, f.end) == []
  {
    if f.end in f.recs { BeforeEnd(f.recs, f.end, f.end); }
  }

  lemma {:induction false} AheadComplete(f: Files, o: nat)
    requires Layout(f.recs, f.end) && AtRecord(f, o) && o <= f.end
    ensures forall p :: p in Ahead(f, o) <==> p in f.recs && o <= p && !Blank(f.recs[p].key)
    ensures Distinct(Ahead(f, o))
    decreases f.end - o
  {
    if o in f.recs {
      AheadStep(f, o);
      var n := Next(f.recs, o);
      AheadComplete(f, n);
      forall p | p in f.recs && o < p ensures n <= p { BeforeEnd(f.recs, f.end, p); }
    } else {
      assert Ahead(f, o) == [];
      forall p | p in f.recs ensures p < f.end { BeforeEnd(f.recs, f.end, p); }
    }
  }

  lemma {:induction false} LiveRecord(f: Files, b: Books, o: nat)
    requires Good(f, b, {}) && o in f.recs && !Blank(f.recs[o].key) && o !in b.lost
    ensures f.recs[o].key in b.place && b.place[f.recs[o].key] == o && ExtentOk(f.dat, f.recs[o])
    ensures f.recs[o].key in Model(f, b) && Model(f, b)[f.recs[o].key] == Data(f.dat, f.recs[o])
  {
    assert o in b.owner && Shelved(f, b, o);
  }

  /** From the start, the records ahead are those of the keys of the map that are not blank, one each, and the records
      left behind whose keys are not blank. */
  lemma {:induction false} EachKeyOnce(f: Files, b: Books)
    requires Good(f, b, {})
    ensures Distinct(Ahead(f, START))
    ensures forall p :: p in Ahead(f, START) ==> p in f.recs && !Blank(f.recs[p].key)
    ensures forall p :: p in Ahead(f, START) && p !in b.lost ==>
      f.recs[p].key in Model(f, b) && Model(f, b)[f.recs[p].key] == Data(f.dat, f.recs[p]) &&
      f.recs[p].key in b.place && b.place[f.recs[p].key] == p
    ensures forall k :: k in Model(f, b) && !Blank(k) ==>
      b.place[k] in Ahead(f, START) && b.place[k] !in b.lost && f.recs[b.place[k]].key == k
    ensures forall o :: o in b.lost && !Blank(f.recs[o].key) ==> o in Ahead(f, START)
  {
    AheadComplete(f, START);
    forall p | p in Ahead(f, START) && p !in b.lost
      ensures f.recs[p].key in Model(f, b) && Model(f, b)[f.recs[p].key] == Data(f.dat, f.recs[p])
      ensures f.recs[p].key in b.place && b.place[f.recs[p].key] == p
    {
      LiveRecord(f, b, p);
    }
    PlacesInFiles(f, b, {});
    forall k | k in Model(f, b) && !Blank(k) ensures b.place[k] in Ahead(f, START) && b.place[k] !in b.lost {
      assert KeyOk(f, b, k);
      BeforeEnd(f.recs, f.end, b.place[k]);
    }
    forall o | o in b.lost && !Blank(f.recs[o].key) ensures o in Ahead(f, START) { BeforeEnd(f.recs, f.end, o); }
  }

  /** What has been collected from the records at offs. */
  ghost predicate Collected(f: Files, offs: seq<nat>, all: seq<(string, string)>) {
    |all| == |offs| &&
    forall i :: 0 <= i < |all| ==>
      offs[i] in f.recs && all[i].0 == f.recs[offs[i]].key && all[i].1 == Data(f.dat, f.recs[offs[i]])
  }

  /** A scan of the whole file meets every key of the map that is not blank once, with its data, and besides only
      records left behind. */
  ghost predicate WholeScan(f: Files, b: Books, offs: seq<nat>, all: seq<(string, string)>) {
    Collected(f, offs, all) && Distinct(offs) && (forall i :: 0 <= i < |all| ==> !Blank(all[i].0)) &&
    (forall i :: 0 <= i < |all| && offs[i] !in b.lost ==>
      all[i].0 in Model(f, b) && all[i].1 == Model(f, b)[all[i].0]) &&
    (forall i, j :: 0 <= i < j < |all| && offs[i] !in b.lost && offs[j] !in b.lost ==> all[i].0 != all[j].0) &&
    (forall k :: k in Model(f, b) && !Blank(k) ==>
      exists i :: 0 <= i < |all| && offs[i] !in b.lost && all[i].0 == k) &&
    (forall o :: o in b.lost && o in f.recs && !Blank(f.recs[o].key) ==> o in offs)
  }

  lemma {:induction false} CollectedAll(f: Files, b: Books, offs: seq<nat>, all: seq<(string, string)>)
    requires Good(f, b, {}) && offs == Ahead(f, START) && Collected(f, offs, all)
    ensures WholeScan(f, b, offs, all)
  {
    EachKeyOnce(f, b);
    forall i | 0 <= i < |all| ensures !Blank(all[i].0) { assert offs[i] in offs; }
    forall i | 0 <= i < |all| && offs[i] !in b.lost
      ensures all[i].0 in Model(f, b) && all[i].1 == Model(f, b)[all[i].0] && all[i].0 in b.place
      ensures b.place[all[i].0] == offs[i]
    {
      assert offs[i] in offs;
    }
    forall k | k in Model(f, b) && !Blank(k) ensures exists i :: 0 <= i < |all| && offs[i] !in b.lost && all[i].0 == k {
      var i :| 0 <= i < |offs| && offs[i] == b.place[k];
      assert all[i].0 == k;
    }
  }

  lemma {:induction false} FoundKey(f: Files, b: Books, c: nat, i: nat)
    requires Good(f, b, {}) && 1 <= c <= NHASH && i < |b.lists[c]|
    ensures b.lists[c][i] in f.recs && ExtentOk(f.dat, f.recs[b.lists[c][i]]) &&
      f.recs[b.lists[c][i]].key in Model(f, b)
    ensures Model(f, b)[f.recs[b.lists[c][i]].key] == Data(f.dat, f.recs[b.lists[c][i]])
  {
    NodeHere(f, b, {}, c, i);
    PresentKey(f, b, c, b.lists[c][i]);
  }

  /** The list of every key is the one its hash value gives. */
  ghost predicate Hashes(bucket: string -> nat) {
    forall k {:trigger Bucket(k)} :: bucket(k) == Bucket(k)
  }

  class Database {
    var files: Files
    var idxoff: nat
    var idxbuf: string
    var datoff: nat
    var datlen: nat
    var ptrval: nat
    var ptroff: nat
    var chainoff: nat
    var pos: nat
    ghost var books: Books

    ghost predicate Valid()
      reads this
    {
      Good(files, books, {}) && Hashes(books.bucket)
    }

    /** At most the new record, at the old end of the file, has been left behind, and only if it could be written. */
    ghost predicate Stranded(f: Files, b: Books, key: string, data: string)
      reads this
    {
      books.bucket == b.bucket && books.lost == b.lost + Unlisted(files, f.end) &&
      if DataFits(data) && IdxFits(f, key, data) then HasRecord(files, f.end, key, data) else f.end !in files.recs
    }

    ghost function Map(): map<string, string>
      reads this
    {
      Model(files, books)
    }

    /** A new database, as db_open creates it. */
    constructor ()
      ensures Valid() && Map() == map[] && files.recs == map[] && files.end == START && files.dat == "" &&
        books.lost == {}
    {
      files := Files(seq(NHASH + 1, i => 0), map[], START, "");
      books := Books(seq(NHASH + 1, i => []), map[], map[], Bucket, {});
      idxoff, idxbuf, datoff, datlen, ptrval, ptroff, chainoff, pos := 0, "", 0, 0, 0, 0, 0, START;
    }

    /** db_open of files that some other process left in order. */
    constructor Reopen(f: Files, ghost b: Books)
      requires Good(f, b, {}) && Hashes(b.bucket)
      ensures Valid() && files == f && books == b && pos == START
    {
      files, books := f, b;
      idxoff, idxbuf, datoff, datlen, ptrval, ptroff, chainoff, pos := START, "", 0, 0, 0, 0, 0, START;
    }

    // ----- Reading -----

    /** The current record is the one at off. */
    ghost predicate Current(off: nat)
      reads this
    {
      off in files.recs && idxoff == off && idxbuf == files.recs[off].key && datoff == files.recs[off].datoff &&
      datlen == files.recs[off].datlen && ptrval == files.recs[off].ptr
    }

    /** The current record is the last of a list. */
    ghost predicate ReadThrough(l: seq<nat>)
      reads this
    {
      l != [] ==> Current(l[|l| - 1])
    }

    method ReadIdx(off: nat) returns (p: nat)
      requires off in files.recs
      modifies this`idxoff, this`idxbuf, this`datoff, this`datlen, this`ptrval, this`pos
      ensures Current(off) && p == files.recs[off].ptr && pos == off + Size(files.recs[off])
    {
      var r := files.recs[off];
      idxoff, idxbuf, datoff, datlen, ptrval := off, r.key, r.datoff, r.datlen, r.ptr;
      pos := off + Size(r);
      p := ptrval;
    }

    /** _db_readdat of the current record, which is r. */
    method ReadDat(ghost r: IdxRec) returns (data: string)
      requires datoff == r.datoff && datlen == r.datlen && ExtentOk(files.dat, r)
      ensures data == Data(files.dat, r)
    {
      data := files.dat[datoff..datoff + datlen - 1];
    }

    // ----- Writing -----

    method WritePtr(off: nat, p: nat) returns (ok: bool)
      modifies this`files, this`pos
      ensures ok <==> p <= PTR_MAX
      ensures files == if ok then PutPtr(old(files), off, p) else old(files)
    {
      ok := p <= PTR_MAX;
      if ok {
        files := PutPtr(files, off, p);
        pos := off + PTR_SZ;
      }
    }

    /** Overwrites data at an offset. */
    method WriteDatAt(data: string, off: nat)
      requires off + |data| + 1 <= |files.dat|
      modifies this`files, this`datoff, this`datlen
      ensures datoff == off && datlen == |data| + 1
      ensures files == old(files).(dat := old(files).dat[..off] + data + "\n" + old(files).dat[off + |data| + 1..])
    {
      datoff, datlen := off, |data| + 1;
      files := files.(dat := files.dat[..off] + data + "\n" + files.dat[off + |data| + 1..]);
    }

    method WriteDatEnd(data: string)
      modifies this`files, this`datoff, this`datlen
      ensures datoff == |old(files).dat| && datlen == |data| + 1 &&
        files == old(files).(dat := old(files).dat + data + "\n")
    {
      datoff, datlen := |files.dat|, |data| + 1;
      files := files.(dat := files.dat + data + "\n");
    }

    /** Writes an index record over the one at off; its length must not change. */
    method WriteIdxAt(key: string, off: nat, p: nat) returns (ok: bool)
      requires off in files.recs && Len(|key|, datoff, datlen) == files.recs[off].len
      modifies this`files, this`ptrval, this`idxoff, this`idxbuf, this`pos
      ensures ok <==> p <= PTR_MAX && IDXLEN_MIN <= Len(|key|, datoff, datlen) <= IDXLEN_MAX
      ensures ok ==> files == old(files).(recs :=
        old(files).recs[off := IdxRec(p, Len(|key|, datoff, datlen), key, datoff, datlen)]) && idxoff == off
    {
      ptrval := p;
      ok := p <= PTR_MAX && IDXLEN_MIN <= Len(|key|, datoff, datlen) <= IDXLEN_MAX;
      if ok {
        idxoff, idxbuf := off, key;
        files := files.(recs := files.recs[off := IdxRec(p, Len(|key|, datoff, datlen), key, datoff, datlen)]);
        pos := off + Size(files.recs[off]);
      }
    }

    method WriteIdxEnd(key: string, p: nat) returns (ok: bool)
      modifies this`files, this`ptrval, this`idxoff, this`idxbuf, this`pos
      ensures ok <==> p <= PTR_MAX && IDXLEN_MIN <= Len(|key|, datoff, datlen) <= IDXLEN_MAX
      ensures ok ==> idxoff == old(files).end
      ensures !ok ==> files == old(files)
      ensures ok ==> files == old(files).(recs :=
        old(files).recs[old(files).end := IdxRec(p, Len(|key|, datoff, datlen), key, datoff, datlen)],
                                          end := old(files).end + Size(IdxRec(p, Len(|key|, datoff, datlen), key,
                                            datoff, datlen)))
    {
      ptrval := p;
      ok := p <= PTR_MAX && IDXLEN_MIN <= Len(|key|, datoff, datlen) <= IDXLEN_MAX;
      if ok {
        idxoff, idxbuf := files.end, key;
        var r := IdxRec(p, Len(|key|, datoff, datlen), key, datoff, datlen);
        files := files.(recs := files.recs[files.end := r], end := files.end + Size(r));
        pos := files.end;
      }
    }

    // ----- Searching -----

    /** _db_find_and_lock: the record of a key, with the place of the pointer to it. */
    method FindAndLock(key: string) returns (found: bool, ghost c: nat, ghost i: nat)
      requires Valid()
      modifies this`idxoff, this`idxbuf, this`datoff, this`datlen, this`ptrval, this`ptroff, this`chainoff, this`pos
      ensures 1 <= c <= NHASH && c == books.bucket(key) && chainoff == c * PTR_SZ
      ensures found <==> key in books.place
      ensures found ==>
        i < |books.lists[c]| && Current(books.lists[c][i]) && idxbuf == key &&
        Standing(files, books, c, i, idxoff, ptroff)
      ensures !found ==> ReadThrough(books.lists[c])
    {
      var h := ComputeHash(key);
      c := 1 + h;
      assert c == Bucket(key);
      chainoff := (1 + h) * PTR_SZ;
      pos := chainoff + PTR_SZ;
      found, i := Search(key, 1 + h);
    }

    method Search(key: string, c: nat) returns (found: bool, ghost i: nat)
      requires Good(files, books, {}) && 1 <= c <= NHASH && c == books.bucket(key)
      modifies this`idxoff, this`idxbuf, this`datoff, this`datlen, this`ptrval, this`ptroff, this`pos
      ensures found <==> key in books.place
      ensures found ==>
        i < |books.lists[c]| && Current(books.lists[c][i]) && idxbuf == key &&
        Standing(files, books, c, i, idxoff, ptroff)
      ensures !found ==> ReadThrough(books.lists[c])
    {
      assert ListOk(files, c, books.lists[c]);
      var offset;
      offset, ptroff, i := SearchKey(files, c, books.lists[c], key);
      found := offset != 0;
      if found {
        var p := ReadIdx(offset);
        assert books.lists[c][i] in books.lists[c];
        PresentKey(files, books, c, offset);
      } else {
        AbsentKey(files, books, key);
        LastRead(files, c, books.lists[c], ptroff);
        if ptroff >= START {
          var p := ReadIdx(ptroff);
        }
      }
    }

    // ----- Deleting -----

    /** _db_dodelete of the current record. */
    method DoDelete(ghost c: nat, ghost i: nat)
      requires Good(files, books, {}) && 1 <= c <= NHASH && i < |books.lists[c]|
      requires Current(books.lists[c][i]) && Standing(files, books, c, i, idxoff, ptroff)
      modifies this`files, this`books, this`datoff, this`datlen, this`ptrval, this`idxoff, this`idxbuf, this`pos
      ensures Good(files, books, {}) && SameNames(old(books), books) && Map() == old(Map()) - {old(idxbuf)}
      ensures old(idxbuf) !in books.place && files.end == old(files).end && |files.dat| == |old(files).dat|
    {
      ghost var f, o := files, idxoff;
      DeleteReady(files, books, c, i);
      BlankOut(books.lists[c], c, i);
      ghost var b := DeleteGood(f, books, c, i, o, files);
      AbsentFromModel(files, b, old(idxbuf));
      books := b;
    }

    /** The writes of _db_dodelete. */
    method BlankOut(ghost l: seq<nat>, ghost c: nat, ghost i: nat)
      requires |files.heads| == NHASH + 1 && Current(idxoff) && ptroff == PtrOff(l, c, i) && idxoff <= PTR_MAX &&
        ptrval <= PTR_MAX
      requires files.heads[FREE] <= PTR_MAX && datlen >= 1 && datoff + datlen <= |files.dat|
      requires files.recs[idxoff].len == Len(|idxbuf|, datoff, datlen) &&
        IDXLEN_MIN <= files.recs[idxoff].len <= IDXLEN_MAX
      modifies this`files, this`datoff, this`datlen, this`ptrval, this`idxoff, this`idxbuf, this`pos
      ensures files == DeletedFiles(old(files), l, c, i, old(idxoff))
    {
      HeadOffset(FREE);
      WriteDatAt(Spaces(datlen - 1), datoff);
      var freeptr := PtrAt(files, FREE);
      var saveptr := ptrval;
      var ok := WriteIdxAt(Spaces(|idxbuf|), idxoff, freeptr);
      ok := WritePtr(FREE, idxoff);
      ok := WritePtr(ptroff, saveptr);
    }

    /** db_delete: 0 if the key was there, -1 if not. */
    method Delete(key: string) returns (rc: int)
      requires Valid()
      modifies this
      ensures Valid() && SameNames(old(books), books) && Map() == old(Map()) - {key}
      ensures rc == if key in old(Map()) then 0 else -1
    {
      KeysOfMap(files, books);
      var found;
      ghost var c, i;
      found, c, i := FindAndLock(key);
      if found {
        DoDelete(c, i);
        rc := 0;
      } else {
        rc := -1;
        assert Map() - {key} == Map();
      }
    }

    /** db_fetch: the data stored for the key. */
    method Fetch(key: string) returns (data: Option<string>)
      requires Valid()
      modifies this`idxoff, this`idxbuf, this`datoff, this`datlen, this`ptrval, this`ptroff, this`chainoff, this`pos
      ensures data == if key in Map() then Some(Map()[key]) else None
    {
      var found;
      ghost var c, i;
      found, c, i := FindAndLock(key);
      if found {
        FoundKey(files, books, c, i);
        var d := ReadDat(files.recs[books.lists[c][i]]);
        data := Some(d);
      } else {
        KeysOfMap(files, books);
        data := None;
      }
    }

    // ----- Storing -----

    /** _db_findfree: takes a record with the wanted lengths off the free list. */
    method FindFree(keylen: nat, len: nat) returns (found: bool)
      requires Good(files, books, {})
      modifies this`files, this`books, this`idxoff, this`idxbuf, this`datoff, this`datlen, this`ptrval, this`pos
      ensures found <==> Reusable(old(files), old(books), keylen, len)
      ensures SameNames(old(books), books) && books.place == old(books).place && Map() == old(Map())
      ensures files.end == old(files).end && files.dat == old(files).dat
      ensures !found ==> files == old(files) && books == old(books)
      ensures found ==> Good(files, books, {idxoff}) && idxoff in files.recs && START <= idxoff <= PTR_MAX
      ensures found ==>
        |files.recs[idxoff].key| == keylen && files.recs[idxoff].datlen == len == datlen &&
        files.recs[idxoff].datoff == datoff
      ensures found ==> forall c :: 1 <= c <= NHASH ==> files.heads[c] == old(files).heads[c]
    {
      assert ListOk(files, FREE, books.lists[FREE]);
      ghost var i;
      var offset, saveoffset;
      pos := FREE + PTR_SZ;
      offset, saveoffset, i := SearchFree(files, books.lists[FREE], keylen, len);
      found := offset != 0;
      if found {
        ghost var b' := TakeFree(files, books, i);
        var next := ReadIdx(offset);
        var ok := WritePtr(saveoffset, ptrval);
        books := b';
      } else {
        LastRead(files, FREE, books.lists[FREE], saveoffset);
        if saveoffset >= START {
          var next := ReadIdx(saveoffset);
        }
      }
    }

    /** Writes a new record to the front of the chain, in a free record of the right lengths or at the ends of the
        files. */
    method InsertNew(key: string, data: string, ghost c: nat) returns (ok: bool)
      requires Good(files, books, {}) && c == books.bucket(key) && chainoff == c * PTR_SZ && key !in books.place &&
        NoSeparator(key)
      requires DataFits(data)
      modifies this
      ensures ok <==> Reusable(old(files), old(books), |key|, |data| + 1) || !NoRoom(old(files), key, data)
      ensures ok ==> Good(files, books, {}) && SameNames(old(books), books) && Map() == old(Map())[key := data]
      ensures !ok ==> Good(files, books, {}) && Stranded(old(files), old(books), key, data) && Map() == old(Map())
    {
      HeadOffset(c);
      var found := FindFree(|key|, |data| + 1);
      if found {
        Reuse(key, data, c);
        ok := true;
      } else {
        ok := AppendNew(key, data, c);
      }
    }

    /** The record taken from the free list is rewritten in place. */
    method Reuse(key: string, data: string, ghost c: nat)
      requires Good(files, books, {idxoff}) && idxoff in files.recs && START <= idxoff <= PTR_MAX &&
        datoff == files.recs[idxoff].datoff
      requires c == books.bucket(key) && chainoff == c * PTR_SZ && key !in books.place && NoSeparator(key)
      requires |files.recs[idxoff].key| == |key| && files.recs[idxoff].datlen == |data| + 1
      modifies this`files, this`books, this`datoff, this`datlen, this`ptrval, this`idxoff, this`idxbuf, this`pos
      ensures Good(files, books, {}) && SameNames(old(books), books) && Map() == old(Map())[key := data]
    {
      ghost var f, o := files, idxoff;
      LooseReady(files, books, o, c);
      RewriteRecord(key, data, c);
      ghost var b := RefileGood(f, books, o, key, data, c);
      books := b;
    }

    method RewriteRecord(key: string, data: string, ghost c: nat)
      requires |files.heads| == NHASH + 1 && 1 <= c <= NHASH && chainoff == c * PTR_SZ && idxoff in files.recs &&
        idxoff <= PTR_MAX
      requires files.heads[c] <= PTR_MAX && datoff == files.recs[idxoff].datoff && datoff + |data| + 1 <= |files.dat|
      requires |files.recs[idxoff].key| == |key| && files.recs[idxoff].datlen == |data| + 1
      requires files.recs[idxoff].len == Len(|key|, datoff, |data| + 1) &&
        IDXLEN_MIN <= files.recs[idxoff].len <= IDXLEN_MAX
      modifies this`files, this`datoff, this`datlen, this`ptrval, this`idxoff, this`idxbuf, this`pos
      ensures files == Refiled(old(files), old(idxoff), key, data, c)
    {
      HeadOffset(c);
      var first := PtrAt(files, chainoff);
      WriteDatAt(data, datoff);
      var ok := WriteIdxAt(key, idxoff, first);
      ok := WritePtr(chainoff, idxoff);
    }

    method AppendNew(key: string, data: string, ghost c: nat) returns (ok: bool)
      requires Good(files, books, {}) && c == books.bucket(key) && chainoff == c * PTR_SZ && key !in books.place &&
        NoSeparator(key)
      requires DataFits(data)
      modifies this`files, this`books, this`datoff, this`datlen, this`ptrval, this`idxoff, this`idxbuf, this`pos
      ensures ok <==> !NoRoom(old(files), key, data)
      ensures ok ==> Good(files, books, {}) && SameNames(old(books), books) && Map() == old(Map())[key := data]
      ensures !ok ==> Good(files, books, {}) && Stranded(old(files), old(books), key, data) && Map() == old(Map())
    {
      ghost var f := files;
      NodeHere(files, books, {}, c, 0);
      ok := AppendRecord(key, data, c);
      if ok {
        ghost var b := StoreGood(f, books, key, data, c);
        books := b;
      } else {
        ghost var b := AbandonedGood(f, books, key, data, c, files);
        books := b;
      }
    }

    method AppendRecord(key: string, data: string, ghost c: nat) returns (ok: bool)
      requires |files.heads| == NHASH + 1 && 1 <= c <= NHASH && chainoff == c * PTR_SZ && files.heads[c] <= PTR_MAX
      modifies this`files, this`datoff, this`datlen, this`ptrval, this`idxoff, this`idxbuf, this`pos
      ensures ok <==> !NoRoom(old(files), key, data)
      ensures files == if ok then Stored(old(files), key, data, c) else Abandoned(old(files), key, data, c)
    {
      HeadOffset(c);
      var first := PtrAt(files, chainoff);
      WriteDatEnd(data);
      ok := WriteIdxEnd(key, first);
      if ok {
        ok := WritePtr(chainoff, idxoff);
      }
    }

    /** db_store: 0 if the data was stored, 1 or -1 if the flag does not allow it. A call that ends the process because
        a new record does not fit leaves the map without the key, although it may have had it before. */
    method Store(key: string, data: string, flag: int) returns (r: Rc)
      requires Valid() && NoSeparator(key)
      modifies this
      ensures Valid() && if r.Code? then SameNames(old(books), books) else Stranded(old(files), old(books), key, data)
      ensures r.Code? ==> StoreSpec(old(Map()), key, data, flag, r.rc, Map())
      ensures r.Halt? <==> StoreHalts(old(files), old(books), key, data, flag)
      ensures r.Halt? ==> Map() == if DataFits(data) then old(Map()) - {key} else old(Map())
    {
      if flag != DB_INSERT && flag != DB_REPLACE && flag != DB_STORE {
        return Code(-1);
      }
      if |data| + 1 < DATLEN_MIN || |data| + 1 > DATLEN_MAX {
        AtEnd(files);
        return Halt;
      }
      r := StoreData(key, data, flag);
    }

    method StoreData(key: string, data: string, flag: int) returns (r: Rc)
      requires Valid() && NoSeparator(key) && DataFits(data) &&
        (flag == DB_INSERT || flag == DB_REPLACE || flag == DB_STORE)
      modifies this
      ensures Valid() && if r.Code? then SameNames(old(books), books) else Stranded(old(files), old(books), key, data)
      ensures r.Code? ==> StoreSpec(old(Map()), key, data, flag, r.rc, Map())
      ensures r.Halt? <==> StoreHalts(old(files), old(books), key, data, flag)
      ensures r.Halt? ==> Map() == old(Map()) - {key}
    {
      KeysOfMap(files, books);
      var found;
      ghost var c, i;
      found, c, i := FindAndLock(key);
      if !found && flag == DB_REPLACE {
        r := Code(-1);
      } else if !found {
        WithoutAbsent(Map(), key);
        var ok := InsertNew(key, data, c);
        r := if ok then Code(0) else Halt;
      } else if flag == DB_INSERT {
        r := Code(1);
      } else {
        PresentKey(files, books, c, books.lists[c][i]);
        var ok := Replace(key, data, c, i);
        r := if ok then Code(0) else Halt;
      }
    }

    /** The record of the key gets new data, in place if the length is the same. */
    method Replace(key: string, data: string, ghost c: nat, ghost i: nat) returns (ok: bool)
      requires Good(files, books, {}) && 1 <= c <= NHASH && i < |books.lists[c]| && chainoff == c * PTR_SZ &&
        c == books.bucket(key)
      requires Current(books.lists[c][i]) && idxbuf == key && Standing(files, books, c, i, idxoff, ptroff) &&
        NoSeparator(key)
      requires DataFits(data)
      modifies this
      ensures ok <==> old(datlen) == |data| + 1 || !NoRoom(old(files), key, data)
      ensures ok ==> Good(files, books, {}) && SameNames(old(books), books) && Map() == old(Map())[key := data]
      ensures !ok ==> Good(files, books, {}) && Stranded(old(files), old(books), key, data)
      ensures !ok ==> Map() == old(Map()) - {key}
    {
      if |data| + 1 != datlen {
        ok := ReplaceAnew(key, data, c, i);
      } else {
        Overwrite(key, data, c, i);
        ok := true;
      }
    }

    method ReplaceAnew(key: string, data: string, ghost c: nat, ghost i: nat) returns (ok: bool)
      requires Good(files, books, {}) && 1 <= c <= NHASH && i < |books.lists[c]| && chainoff == c * PTR_SZ &&
        c == books.bucket(key)
      requires Current(books.lists[c][i]) && idxbuf == key && Standing(files, books, c, i, idxoff, ptroff) &&
        NoSeparator(key)
      requires DataFits(data)
      modifies this`files, this`books, this`datoff, this`datlen, this`ptrval, this`idxoff, this`idxbuf, this`pos
      ensures ok <==> !NoRoom(old(files), key, data)
      ensures ok ==> Good(files, books, {}) && SameNames(old(books), books) && Map() == old(Map())[key := data]
      ensures !ok ==> Good(files, books, {}) && Stranded(old(files), old(books), key, data)
      ensures !ok ==> Map() == old(Map()) - {key}
    {
      RemovedAndAdded(Map(), key, data);
      DoDelete(c, i);
      ok := AppendNew(key, data, c);
    }

    /** Data of the same length. */
    method Overwrite(key: string, data: string, ghost c: nat, ghost i: nat)
      requires Good(files, books, {}) && 1 <= c <= NHASH && i < |books.lists[c]| && datlen == |data| + 1
      requires Current(books.lists[c][i]) && idxbuf == key
      modifies this`files, this`datoff, this`datlen
      ensures Good(files, books, {}) && Map() == old(Map())[key := data]
    {
      ghost var f := files;
      DeleteReady(files, books, c, i);
      WriteDatAt(data, datoff);
      assert files.dat == PutData(f.dat, f.recs[books.lists[c][i]], data);
      OverwriteGood(f, books, c, i, data, files);
    }

    // ----- Stepping through the index file -----

    /** db_rewind. */
    method Rewind()
      modifies this`idxoff, this`pos
      ensures pos == START
    {
      idxoff := START;
      pos := START;
    }

    /** db_nextrec: the next record in the file whose key is not blank. */
    method NextRec() returns (r: Option<(string, string)>)
      requires Valid() && AtRecord(files, pos)
      modifies this`idxoff, this`idxbuf, this`datoff, this`datlen, this`ptrval, this`pos
      ensures AtRecord(files, pos)
      ensures r.None? ==> Ahead(files, old(pos)) == [] == Ahead(files, pos)
      ensures r.Some? ==> Ahead(files, old(pos)) == [idxoff] + Ahead(files, pos) && idxoff in files.recs
      ensures r.Some? ==> r.value == (files.recs[idxoff].key, Data(files.dat, files.recs[idxoff]))
      ensures r.Some? && idxoff !in books.lost ==> r.value.0 in Map() && r.value.1 == Map()[r.value.0]
    {
      var o := NextNonBlank(files, pos);
      if o == files.end {
        pos := o;
        return None;
      }
      FoundNext(files, books, old(pos), o);
      var p := ReadIdx(o);
      var d := ReadDat(files.recs[o]);
      return Some((idxbuf, d));
    }

    /** A caller that rewinds and asks for the next record until there is none gets every key that is not blank, once,
        with its data, and the records that a process left behind. */
    method AllRecords() returns (all: seq<(string, string)>, ghost offs: seq<nat>)
      requires Valid()
      modifies this`idxoff, this`idxbuf, this`datoff, this`datlen, this`ptrval, this`pos
      ensures WholeScan(files, books, offs, all)
    {
      Rewind();
      all, offs := [], [];
      assert [] + Ahead(files, START) == Ahead(files, START);
      var more := true;
      while more
        invariant AtRecord(files, pos) && Collected(files, offs, all) && Ahead(files, START) == offs + Ahead(files, pos)
        invariant !more ==> Ahead(files, pos) == []
        decreases more, |Ahead(files, pos)|
      {
        all, more, offs := Collect(all, offs);
      }
      assert Ahead(files, START) == offs;
      CollectedAll(files, books, offs, all);
    }

    method Collect(all: seq<(string, string)>, ghost offs: seq<nat>)
        returns (all': seq<(string, string)>, more: bool, ghost offs': seq<nat>)
      requires Valid() && AtRecord(files, pos) && Collected(files, offs, all) &&
        Ahead(files, START) == offs + Ahead(files, pos)
      modifies this`idxoff, this`idxbuf, this`datoff, this`datlen, this`ptrval, this`pos
      ensures AtRecord(files, pos) && Collected(files, offs', all') &&
        Ahead(files, START) == offs' + Ahead(files, pos)
      ensures if more then |Ahead(files, pos)| < |old(Ahead(files, pos))| else Ahead(files, pos) == []
    {
      ghost var ahead := Ahead(files, pos);
      var r := NextRec();
      more, all', offs' := r.Some?, all, offs;
      if more {
        all', offs' := all + [r.value], offs + [idxoff];
        assert ahead == [idxoff] + Ahead(files, pos);
        assert offs + ([idxoff] + Ahead(files, pos)) == offs' + Ahead(files, pos);
      }
    }
  }

  lemma {:induction false} RoomForOne(f: Files, data: string)
    requires 1 <= |data| <= 9 && f.dat == "" && f.end == START
    ensures !NoRoom(f, " ", data) && NoSeparator(" ") && Blank(" ") && DataFits(data)
  {
    assert Digits(0) == 1 && 1 <= Digits(|data| + 1) <= 2;
  }

  /** A key of spaces is stored and fetched like any other, but no scan of the file meets it. */
  method BlankKeySkipped(data: string) returns (rc: Rc, fetched: Option<string>, all: seq<(string, string)>)
    requires 1 <= |data| <= 9
    ensures rc == Code(0) && fetched == Some(data) && forall i :: 0 <= i < |all| ==> all[i].0 != " "
  {
    var db := new Database();
    RoomForOne(db.files, data);
    rc := db.Store(" ", data, DB_INSERT);
    assert db.Map() == map[" " := data];
    fetched := db.Fetch(" ");
    ghost var offs;
    all, offs := db.AllRecords();
  }

  lemma {:induction false} LongestKey(f: Files, key: string, data: string)
    requires |key| == 1018 && f.dat == "" && f.end == START && |data| == 9
    ensures !NoRoom(f, key, data)
  {
    assert Digits(0) == 1 && Digits(10) == 1 + Digits(1) == 2;
  }

  /** With its data stored, a longer record for the same key does not fit. */
  lemma {:induction false} TooLongNow(f: Files, b: Books, key: string, data: string, longer: string)
    requires Good(f, b, {}) && key in Model(f, b) && Model(f, b)[key] == data
    requires |key| == 1018 && |data| == 9 && |longer| == 10
    ensures StoreHalts(f, b, key, longer, DB_REPLACE)
  {
    KeysOfMap(f, b);
    assert KeyOk(f, b, key);
    var r := f.recs[b.place[key]];
    assert ExtentOk(f.dat, r);
    assert r.datlen == 10 && |f.dat| >= 10;
    assert Digits(|f.dat|) == 1 + Digits(|f.dat| / 10) && Digits(11) == 1 + Digits(1) == 2;
  }

  /** A key is lost by replacing its data: a record of the greatest length fits at offset 0 of the data file, but not at
      an offset of two digits. */
  method ReplaceLosesKey(key: string, data: string, longer: string) returns (a: Rc, b: Rc, ghost m: map<string, string>)
    requires |key| == 1018 && NoSeparator(key) && |data| == 9 && |longer| == 10
    ensures a == Code(0) && b == Halt && key !in m
  {
    var db := new Database();
    LongestKey(db.files, key, data);
    a := db.Store(key, data, DB_INSERT);
    TooLongNow(db.files, db.books, key, data, longer);
    b := db.Store(key, longer, DB_REPLACE);
    m := db.Map();
  }

  /** Once the index file is longer than a pointer can say, a process that stores a new key ends, and whoever opens the
      database next does not find the key, although a scan meets it. */
  method LostKeyScanned(db: Database, key: string, data: string)
      returns (rc: Rc, fetched: Option<string>, all: seq<(string, string)>)
    requires db.Valid() && NoSeparator(key) && !Blank(key) && DataFits(data) && key !in db.Map()
    requires db.files.end > PTR_MAX && !Reusable(db.files, db.books, |key|, |data| + 1)
    requires IdxFits(db.files, key, data)
    modifies db
    ensures rc == Halt && db.Valid() && fetched == None && (key, data) in all
  {
    ghost var o := db.files.end;
    KeysOfMap(db.files, db.books);
    rc := db.Store(key, data, DB_INSERT);
    var again := new Database.Reopen(db.files, db.books);
    fetched := again.Fetch(key);
    ghost var offs;
    all, offs := again.AllRecords();
    assert o in again.books.lost;
    ghost var i :| 0 <= i < |offs| && offs[i] == o;
    assert all[i] == (key, data);
  }
}
