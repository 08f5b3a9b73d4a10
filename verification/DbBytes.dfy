/** The index file of apue/db/db.c as bytes: what the records of the model mean on disk, and what each write changes. */
module DbBytes {
  import opened DbFiles
  import opened DbCodec

  /** A pointer as it is stored. */
  function PtrField(ptr: nat): string {
    Padded(Decimal(ptr), PTR_SZ)
  }

  function Heads(heads: seq<nat>): string {
    if heads == [] then "" else Heads(heads[..|heads| - 1]) + PtrField(heads[|heads| - 1])
  }

  /** The records from offset o on. */
  ghost function Records(recs: map<nat, IdxRec>, end: nat, o: nat): string
    decreases if o <= end then end - o else 0
  {
    if o in recs && Next(recs, o) <= end then Encode(recs[o]) + Records(recs, end, Next(recs, o)) else ""
  }

  /** The free-list pointer, the hash table, a newline and the records. */
  ghost function IndexBytes(f: Files): string {
    Heads(f.heads) + "\n" + Records(f.recs, f.end, START)
  }

  /** A record within the limits of its fields. */
  ghost predicate Fits(r: IdxRec) {
    NoSeparator(r.key) && r.ptr <= PTR_MAX && 0 < r.datlen <= DATLEN_MAX &&
    r.len == Len(|r.key|, r.datoff, r.datlen) && IDXLEN_MIN <= r.len <= IDXLEN_MAX
  }

  ghost predicate AllFit(recs: map<nat, IdxRec>) {
    forall o :: o in recs ==> Fits(recs[o])
  }

  /** What the bytes need of the files; it also holds between the writes of one call. */
  ghost predicate Writable(f: Files) {
    |f.heads| == NHASH + 1 && (forall c :: 0 <= c <= NHASH ==> f.heads[c] <= PTR_MAX) && Layout(f.recs, f.end) &&
      AllFit(f.recs)
  }

  lemma {:induction false} GoodWritable(f: Files, b: Books)
    requires Good(f, b, {})
    ensures Writable(f)
  {
    forall c | 0 <= c <= NHASH ensures f.heads[c] <= PTR_MAX {
      assert ListOk(f, c, b.lists[c]);
      if b.lists[c] != [] { assert NodeOk(f, b.lists[c], 0); }
    }
    forall o | o in f.recs ensures Fits(f.recs[o]) {
      assert ExtentOk(f.dat, f.recs[o]);
      LengthOf(f.recs, o);
      if o in b.lost {
        assert LostOk(f, o);
      } else {
        assert o in b.owner && Shelved(f, b, o);
        ListedPtr(f, b.owner[o], b.lists[b.owner[o]], o);
      }
    }
  }

  lemma {:induction false} ListedPtr(f: Files, c: nat, l: seq<nat>, o: nat)
    requires c < |f.heads| && ListOk(f, c, l) && o in l
    ensures o in f.recs && f.recs[o].ptr <= PTR_MAX
  {
    var i :| 0 <= i < |l| && l[i] == o;
    assert NodeOk(f, l, i);
    if i + 1 < |l| { assert NodeOk(f, l, i + 1); }
  }

  // ----- The pointers in front -----

  lemma {:induction false} PtrWidth(ptr: nat)
    requires ptr <= PTR_MAX
    ensures |PtrField(ptr)| == PTR_SZ && Atol(PtrField(ptr)) == ptr
  {
    FieldWidths(ptr, 0);
    NumberRoundTrip(ptr, PTR_SZ);
  }

  lemma {:induction false} HeadsLength(heads: seq<nat>)
    requires forall c :: 0 <= c < |heads| ==> heads[c] <= PTR_MAX
    ensures |Heads(heads)| == |heads| * PTR_SZ
  {
    if heads != [] {
      var n := |heads| - 1;
      HeadsLength(heads[..n]);
      PtrWidth(heads[n]);
    }
  }

  /** The field of head c in the bytes. */
  lemma {:induction false} HeadField(heads: seq<nat>, c: nat)
    requires c < |heads| && forall d :: 0 <= d < |heads| ==> heads[d] <= PTR_MAX
    ensures c * PTR_SZ + PTR_SZ <= |Heads(heads)| && Heads(heads)[c * PTR_SZ..c * PTR_SZ + PTR_SZ] == PtrField(heads[c])
  {
    var n := |heads| - 1;
    HeadsLength(heads);
    HeadsLength(heads[..n]);
    if c < n { HeadField(heads[..n], c); } else { PtrWidth(heads[n]); }
  }

  /** lseek and write: the bytes at an offset are replaced by as many others. */
  function Spliced(bytes: string, off: nat, s: string): string {
    if off + |s| <= |bytes| then bytes[..off] + s + bytes[off + |s|..] else bytes
  }

  lemma {:induction false} SplicedFront(a: string, b: string, off: nat, s: string)
    requires off + |s| <= |a|
    ensures Spliced(a + b, off, s) == Spliced(a, off, s) + b
  {
    var c, front, back := a + b, a[..off] + s, a[off + |s|..];
    assert c[..off] == a[..off] && c[off + |s|..] == back + b;
    Regroup(front, back, b);
  }

  lemma {:induction false} SplicedBack(a: string, b: string, off: nat, k: nat, s: string)
    requires off == |a| + k && k + |s| <= |b|
    ensures Spliced(a + b, off, s) == a + Spliced(b, k, s)
  {
    var c := a + b;
    assert c[..off] == a + b[..k] && c[off + |s|..] == b[k + |s|..];
  }

  lemma {:induction false} SplicedWhole(a: string, b: string, s: string)
    requires |s| == |a|
    ensures Spliced(a + b, 0, s) == s + b
  {
  }

  /** Writing one head changes its field and nothing else. */
  lemma {:induction false} HeadPut(heads: seq<nat>, c: nat, ptr: nat)
    requires c < |heads| && ptr <= PTR_MAX && forall d :: 0 <= d < |heads| ==> heads[d] <= PTR_MAX
    ensures c * PTR_SZ + PTR_SZ <= |Heads(heads)| &&
      Heads(heads[c := ptr]) == Spliced(Heads(heads), c * PTR_SZ, PtrField(ptr))
  {
    var n := |heads| - 1;
    var front, last := Heads(heads[..n]), PtrField(heads[n]);
    HeadsLength(heads[..n]);
    PtrWidth(ptr);
    PtrWidth(heads[n]);
    if c < n {
      HeadPut(heads[..n], c, ptr);
      assert heads[c := ptr][..n] == heads[..n][c := ptr];
      SplicedFront(front, last, c * PTR_SZ, PtrField(ptr));
    } else {
      assert heads[c := ptr][..n] == heads[..n];
      SplicedBack(front, last, c * PTR_SZ, 0, PtrField(ptr));
    }
  }

  // ----- The records behind -----

  /** The next record, or the end of the file, is at o. */
  ghost predicate Bound(recs: map<nat, IdxRec>, end: nat, o: nat) {
    o == end || o in recs
  }

  lemma {:induction false} RecordSize(r: IdxRec)
    requires Fits(r)
    ensures |Encode(r)| == Size(r)
  {
    RecordRoundTrip(r, "");
  }

  lemma {:induction false} OneRecord(recs: map<nat, IdxRec>, end: nat, o: nat)
    requires Layout(recs, end) && AllFit(recs) && o in recs
    ensures o < Next(recs, o) <= end && Bound(recs, end, Next(recs, o)) && |Encode(recs[o])| == Next(recs, o) - o
    ensures Records(recs, end, o) == Encode(recs[o]) + Records(recs, end, Next(recs, o))
  {
    BeforeEnd(recs, end, o);
    assert Fits(recs[o]);
    RecordSize(recs[o]);
  }

  lemma {:induction false} NoRecord(recs: map<nat, IdxRec>, end: nat)
    requires Layout(recs, end)
    ensures end !in recs && Records(recs, end, end) == ""
  {
    if end in recs { BeforeEnd(recs, end, end); }
  }

  lemma {:induction false} InOrder(recs: map<nat, IdxRec>, end: nat, o: nat, p: nat)
    requires Layout(recs, end) && o in recs && p in recs && o < p
    ensures Next(recs, o) <= p && Next(recs, o) in recs
  {
    BeforeEnd(recs, end, p);
    assert Next(recs, p) > p;
  }

  lemma {:induction false} RecordsLength(recs: map<nat, IdxRec>, end: nat, o: nat)
    requires Layout(recs, end) && AllFit(recs) && Bound(recs, end, o)
    ensures o <= end && |Records(recs, end, o)| == end - o
    decreases if o <= end then end - o else 0
  {
    NoRecord(recs, end);
    if o in recs {
      OneRecord(recs, end, o);
      RecordsLength(recs, end, Next(recs, o));
    }
  }

  /** The record k bytes behind offset o. */
  lemma {:induction false} RecordsFrom(recs: map<nat, IdxRec>, end: nat, o: nat, p: nat, k: nat)
    requires Layout(recs, end) && AllFit(recs) && o in recs && p in recs && p == o + k
    ensures k <= |Records(recs, end, o)| && Records(recs, end, o)[k..] == Records(recs, end, p)
    decreases if o <= end then end - o else 0
  {
    if k > 0 {
      var n := Next(recs, o);
      OneRecord(recs, end, o);
      InOrder(recs, end, o, p);
      var j := p - n;
      RecordsFrom(recs, end, n, p, j);
      DropFront(Encode(recs[o]), Records(recs, end, n), k, j);
    }
  }

  lemma DropFront(a: string, b: string, k: nat, j: nat)
    requires k == |a| + j && j <= |b|
    ensures (a + b)[k..] == b[j..]
  {
  }

  /** A record k bytes behind offset o, rewritten in its length, changes its own bytes and nothing else. */
  lemma {:induction false} RecordsPut(recs: map<nat, IdxRec>, recs': map<nat, IdxRec>, end: nat, o: nat, p: nat,
      k: nat, r: IdxRec)
    requires Layout(recs, end) && AllFit(recs) && o in recs && p in recs && p == o + k && Fits(r) &&
      Size(r) == Size(recs[p])
    requires recs' == recs[p := r]
    ensures k + |Encode(r)| <= |Records(recs, end, o)| &&
      Records(recs', end, o) == Spliced(Records(recs, end, o), k, Encode(r))
    decreases if o <= end then end - o else 0
  {
    var n := Next(recs, o);
    var e, rest := Encode(recs[o]), Records(recs, end, n);
    OneRecord(recs, end, o);
    if k == 0 {
      RecordSize(r);
      RecordsBehind(recs, recs', end, n, p, r);
      SplicedWhole(e, rest, Encode(r));
    } else {
      InOrder(recs, end, o, p);
      var j := p - n;
      RecordsPut(recs, recs', end, n, p, j, r);
      SplicedBack(e, rest, k, j, Encode(r));
    }
    RecordsStep(recs', end, o, n);
  }

  lemma {:induction false} RecordsStep(recs: map<nat, IdxRec>, end: nat, o: nat, n: nat)
    requires o in recs && Next(recs, o) == n <= end
    ensures Records(recs, end, o) == Encode(recs[o]) + Records(recs, end, n)
  {
  }

  /** A record has no effect on the bytes behind it. */
  lemma {:induction false} RecordsBehind(recs: map<nat, IdxRec>, recs': map<nat, IdxRec>, end: nat, o: nat, p: nat,
      r: IdxRec)
    requires Layout(recs, end) && Bound(recs, end, o) && p < o && recs' == recs[p := r]
    ensures Records(recs', end, o) == Records(recs, end, o)
    decreases if o <= end then end - o else 0
  {
    NoRecord(recs, end);
    if o in recs {
      BeforeEnd(recs, end, o);
      RecordsBehind(recs, recs', end, Next(recs, o), p, r);
    }
  }

  // ----- The whole file -----

  lemma {:induction false} FrontLength(f: Files)
    requires Writable(f)
    ensures |Heads(f.heads) + "\n"| == START && Bound(f.recs, f.end, START)
  {
    HeadsLength(f.heads);
  }

  /** _db_readptr and _db_readidx read from the bytes what the model has at the offset. */
  lemma {:induction false} BytesHoldRecords(f: Files, b: Books)
    requires Good(f, b, {})
    ensures |IndexBytes(f)| == f.end
    ensures forall c :: 0 <= c <= NHASH ==>
      c * PTR_SZ + PTR_SZ <= f.end && Atol(IndexBytes(f)[c * PTR_SZ..c * PTR_SZ + PTR_SZ]) == f.heads[c]
    ensures forall o :: o in f.recs ==> o <= f.end && Decode(IndexBytes(f)[o..]) == Record(f.recs[o])
  {
    GoodWritable(f, b);
    FrontLength(f);
    RecordsLength(f.recs, f.end, START);
    forall c | 0 <= c <= NHASH
      ensures c * PTR_SZ + PTR_SZ <= f.end && Atol(IndexBytes(f)[c * PTR_SZ..c * PTR_SZ + PTR_SZ]) == f.heads[c]
    {
      BytesOfHead(f, c);
    }
    forall o | o in f.recs ensures o <= f.end && Decode(IndexBytes(f)[o..]) == Record(f.recs[o]) {
      BytesOfRecord(f, o);
    }
  }

  lemma {:induction false} BytesOfHead(f: Files, c: nat)
    requires Writable(f) && c <= NHASH
    ensures c * PTR_SZ + PTR_SZ < START <= |IndexBytes(f)| &&
      Atol(IndexBytes(f)[c * PTR_SZ..c * PTR_SZ + PTR_SZ]) == f.heads[c]
  {
    FrontLength(f);
    HeadField(f.heads, c);
    PtrWidth(f.heads[c]);
    var heads := Heads(f.heads);
    assert IndexBytes(f)[c * PTR_SZ..c * PTR_SZ + PTR_SZ] == heads[c * PTR_SZ..c * PTR_SZ + PTR_SZ];
  }

  lemma {:induction false} BytesOfRecord(f: Files, o: nat)
    requires Writable(f) && o in f.recs
    ensures START <= o <= |IndexBytes(f)| && IndexBytes(f)[o..] == Records(f.recs, f.end, o)
    ensures Decode(IndexBytes(f)[o..]) == Record(f.recs[o]) && o + Size(f.recs[o]) <= |IndexBytes(f)|
  {
    FrontLength(f);
    BeforeEnd(f.recs, f.end, o);
    var k := o - START;
    RecordsFrom(f.recs, f.end, START, o, k);
    DropFront(Heads(f.heads) + "\n", Records(f.recs, f.end, START), o, k);
    OneRecord(f.recs, f.end, o);
    RecordRoundTrip(f.recs[o], Records(f.recs, f.end, Next(f.recs, o)));
  }

  /** _db_writeidx over a record: its bytes are replaced, whole. */
  lemma {:induction false} BytesOfRewrite(f: Files, o: nat, r: IdxRec, f': Files)
    requires Writable(f) && o in f.recs && Fits(r) && Size(r) == Size(f.recs[o]) && f' == f.(recs := f.recs[o := r])
    ensures Writable(f') && IndexBytes(f') == Spliced(IndexBytes(f), o, Encode(r)) &&
      |IndexBytes(f')| == |IndexBytes(f)|
  {
    FrontLength(f);
    BeforeEnd(f.recs, f.end, o);
    SameSize(f.recs, f.end, o, r);
    var k, front, s := o - START, Heads(f.heads) + "\n", Encode(r);
    var recs := Records(f.recs, f.end, START);
    RecordsPut(f.recs, f'.recs, f.end, START, o, k, r);
    SplicedBack(front, recs, o, k, s);
  }

  lemma {:induction false} SameSize(recs: map<nat, IdxRec>, end: nat, o: nat, r: IdxRec)
    requires Layout(recs, end) && AllFit(recs) && o in recs && Fits(r) && Size(r) == Size(recs[o])
    ensures Layout(recs[o := r], end) && AllFit(recs[o := r])
  {
    var recs' := recs[o := r];
    forall p | p in recs' ensures START <= p &&
      (Next(recs', p) == end || (Next(recs', p) < end && Next(recs', p) in recs')) {
      assert Next(recs', p) == Next(recs, p);
    }
    forall p, q | p in recs' && q in recs' && p < q ensures Next(recs', p) <= q {
      assert Next(recs', p) == Next(recs, p) && Next(recs', q) == Next(recs, q);
    }
  }

  /** _db_writeidx at the end: the bytes of the record are added. */
  lemma {:induction false} BytesOfAppend(f: Files, r: IdxRec, f': Files)
    requires Writable(f) && Fits(r) && f' == f.(recs := f.recs[f.end := r], end := f.end + Size(r))
    ensures Writable(f') && IndexBytes(f') == IndexBytes(f) + Encode(r)
  {
    AppendLayout(f.recs, f.end, r, f'.recs, f'.end);
    FrontLength(f);
    assert AllFit(f'.recs);
    RecordsAppended(f.recs, f.end, r, f'.recs, f'.end, START);
    assert Heads(f.heads) + "\n" + (Records(f.recs, f.end, START) + Encode(r)) == IndexBytes(f) + Encode(r);
  }

  lemma {:induction false} RecordsAppended(recs: map<nat, IdxRec>, end: nat, r: IdxRec, recs': map<nat, IdxRec>,
      end': nat, o: nat)
    requires Layout(recs, end) && AllFit(recs) && recs' == recs[end := r] && end' == end + Size(r) &&
      Layout(recs', end') && AllFit(recs')
    requires Bound(recs, end, o)
    ensures Records(recs', end', o) == Records(recs, end, o) + Encode(r)
    decreases if o <= end then end - o else 0
  {
    NoRecord(recs, end);
    NoRecord(recs', end');
    OneRecord(recs', end', o);
    if o == end {
      assert Next(recs', o) == end';
    } else {
      var n := Next(recs, o);
      OneRecord(recs, end, o);
      assert Next(recs', o) == n;
      RecordsAppended(recs, end, r, recs', end', n);
      Regroup(Encode(recs[o]), Records(recs, end, n), Encode(r));
    }
  }

  lemma Regroup(a: string, b: string, c: string)
    ensures a + (b + c) == a + b + c
  {
  }

  /** _db_writeptr: exactly the seven bytes of the pointer change, whether it is a head or the pointer of a record. */
  lemma {:induction false} BytesOfPtr(f: Files, off: nat, ptr: nat)
    requires Writable(f) && ptr <= PTR_MAX && (off in f.recs || exists c :: 0 <= c <= NHASH && off == c * PTR_SZ)
    ensures Writable(PutPtr(f, off, ptr)) && off + PTR_SZ <= |IndexBytes(f)| && |PtrField(ptr)| == PTR_SZ
    ensures IndexBytes(PutPtr(f, off, ptr)) == Spliced(IndexBytes(f), off, PtrField(ptr))
  {
    PtrWidth(ptr);
    if off in f.recs {
      BytesOfRecordPtr(f, off, ptr);
    } else {
      var c :| 0 <= c <= NHASH && off == c * PTR_SZ;
      HeadOffset(c);
      HeadPut(f.heads, c, ptr);
      FrontLength(f);
      var rest := "\n" + Records(f.recs, f.end, START);
      Regroup(Heads(f.heads), "\n", Records(f.recs, f.end, START));
      Regroup(Heads(f.heads[c := ptr]), "\n", Records(f.recs, f.end, START));
      SplicedFront(Heads(f.heads), rest, off, PtrField(ptr));
    }
  }

  lemma {:induction false} BytesOfRecordPtr(f: Files, o: nat, ptr: nat)
    requires Writable(f) && ptr <= PTR_MAX && o in f.recs
    ensures Writable(PutPtr(f, o, ptr)) && o + PTR_SZ <= |IndexBytes(f)|
    ensures IndexBytes(PutPtr(f, o, ptr)) == Spliced(IndexBytes(f), o, PtrField(ptr))
  {
    var r := f.recs[o];
    var r' := r.(ptr := ptr);
    assert Fits(r) && Fits(r');
    BytesOfRecord(f, o);
    BytesOfRewrite(f, o, r', PutPtr(f, o, ptr));
    OneRecord(f.recs, f.end, o);
    PtrWidth(ptr);
    PtrWidth(r.ptr);
    EncodeParts(r);
    EncodeParts(r');
    SplicedPart(IndexBytes(f), o, PtrField(r.ptr), Tail(r), PtrField(ptr), Records(f.recs, f.end, Next(f.recs, o)));
  }

  /** A record behind its pointer. */
  function Tail(r: IdxRec): string {
    Padded(Decimal(|Body(r)|), IDXLEN_SZ) + Body(r)
  }

  lemma {:induction false} EncodeParts(r: IdxRec)
    ensures Encode(r) == PtrField(r.ptr) + Tail(r)
    ensures forall ptr :: Tail(r.(ptr := ptr)) == Tail(r)
  {
    Regroup(PtrField(r.ptr), Padded(Decimal(|Body(r)|), IDXLEN_SZ), Body(r));
    forall ptr ensures Tail(r.(ptr := ptr)) == Tail(r) { assert Body(r.(ptr := ptr)) == Body(r); }
  }

  /** Only the first part of what is written differs from what was there. */
  lemma {:induction false} SplicedPart(bytes: string, off: nat, s: string, rest: string, s': string, tail: string)
    requires off <= |bytes| && bytes[off..] == s + rest + tail && |s'| == |s|
    ensures Spliced(bytes, off, s' + rest) == Spliced(bytes, off, s')
  {
    assert bytes == bytes[..off] + (s + rest + tail);
  }
}
