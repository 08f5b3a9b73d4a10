/** Any number of processes on one database, apue/db/db.c, step by step between system calls. Keys and data are left
    out: whether a record matches is open, what counts is the pointers and the locks. */
module DbLocks {
  import opened Lists
  import opened DbFiles

  type Pid = nat

  /** A lock on a byte range: readers, or one writer. */
  datatype Lock = Lock(readers: set<Pid>, writer: Writer)
  datatype Writer = NoOne | By(pid: Pid)

  /** Locks 0 to NHASH are those of the free list and the chains; then come the two append locks. */
  const DAT: nat := NHASH + 1
  const IDX: nat := NHASH + 2
  const LOCKS: nat := NHASH + 3

  /** db_fetch, db_delete, db_store of a key that may be new, db_store that replaces by data of another length. */
  datatype Op = Fetch | Delete | Insert | Replace

  /** The next system call of a process. */
  datatype Pc =
    | Idle
    | FindWait | FindHead | FindTest | ChainUnlock
    | DelWait | DelFree | DelIdx | DelHead | DelPtr | DelUnlock
    | NewRead
    | FreeWait | FreeHead | FreeTest | FreeTake | TakenUnlock | NoneUnlock | ReuseIdx
    | DatWait | DatUnlock | IdxWait | IdxSeek | IdxWrite | IdxUnlock | Link
    | NextWait | NextRead | NextUnlock

  /** A process: its chain c, its place (offset, ptroff, number i) in the list it walks, its record o, and the pointers
      it has read: ptrval, and freeptr from the free list. */
  datatype Proc = Proc(pc: Pc, op: Op, c: nat, offset: nat, ptroff: nat, i: nat, o: nat, ptrval: nat, freeptr: nat)

  datatype State = State(f: Files, lists: seq<seq<nat>>, owner: map<nat, nat>, loose: map<nat, Pid>, locks: seq<Lock>,
    procs: map<Pid, Proc>)

  // ----- Which locks a process has -----

  predicate ChainHeld(pc: Pc) {
    !pc.Idle? && !pc.FindWait? && !pc.NextWait? && !pc.NextRead? && !pc.NextUnlock?
  }

  predicate FreeHeld(pc: Pc) {
    pc.DelFree? || pc.DelIdx? || pc.DelHead? || pc.DelPtr? || pc.DelUnlock? ||
    pc.FreeHead? || pc.FreeTest? || pc.FreeTake? || pc.TakenUnlock? || pc.NoneUnlock?
  }

  predicate IdxHeld(pc: Pc) {
    pc.IdxSeek? || pc.IdxWrite? || pc.IdxUnlock?
  }

  predicate Writes(q: Proc, k: nat) {
    (ChainHeld(q.pc) && q.op != Fetch && k == q.c) || (FreeHeld(q.pc) && k == FREE) || (q.pc.DatUnlock? && k == DAT) ||
      (IdxHeld(q.pc) && k == IDX)
  }

  predicate Reads(q: Proc, k: nat) {
    (ChainHeld(q.pc) && q.op == Fetch && k == q.c) || ((q.pc.NextRead? || q.pc.NextUnlock?) && k == FREE)
  }

  // ----- Steps -----

  function Put(s: State, p: Pid, q: Proc): State {
    s.(procs := s.procs[p := q])
  }

  /** Lock k can be had for writing, or for reading. */
  predicate CanWrite(s: State, k: nat) {
    k < |s.locks| && s.locks[k] == Lock({}, NoOne)
  }

  predicate CanRead(s: State, k: nat) {
    k < |s.locks| && s.locks[k].writer == NoOne
  }

  function Acquire(s: State, p: Pid, k: nat, write: bool): State {
    if k >= |s.locks| then s
    else s.(locks := s.locks[k := if write then Lock({}, By(p)) else Lock(s.locks[k].readers + {p}, NoOne)])
  }

  function Release(s: State, p: Pid, k: nat): State {
    if k >= |s.locks| then s
    else s.(locks := s.locks[k :=
      Lock(s.locks[k].readers - {p}, if s.locks[k].writer == By(p) then NoOne else s.locks[k].writer)])
  }

  ghost predicate LockStep(s: State, p: Pid, k: nat, write: bool, pc: Pc, s': State)
    requires p in s.procs
  {
    (if write then CanWrite(s, k) else CanRead(s, k)) && s' == Put(Acquire(s, p, k, write), p, s.procs[p].(pc := pc))
  }

  ghost predicate UnlockStep(s: State, p: Pid, k: nat, pc: Pc, s': State)
    requires p in s.procs
  {
    s' == Put(Release(s, p, k), p, s.procs[p].(pc := pc))
  }

  /** The head of list k. */
  function HeadOf(s: State, k: nat): nat {
    if k < |s.f.heads| then s.f.heads[k] else 0
  }

  function SetPtr(s: State, o: nat, ptr: nat): State {
    if o in s.f.recs then s.(f := s.f.(recs := s.f.recs[o := s.f.recs[o].(ptr := ptr)])) else s
  }

  function Drop(s: State, p: Pid, k: nat, i: nat, o: nat): State {
    if k < |s.lists| then
      s.(lists := s.lists[k := Without(s.lists[k], i)], owner := s.owner - {o}, loose := s.loose[o := p])
    else s
  }

  function Push(s: State, k: nat, o: nat): State {
    if k < |s.lists| && k < |s.f.heads| then
      s.(f := s.f.(heads := s.f.heads[k := o]), lists := s.lists[k := [o] + s.lists[k]], owner := s.owner[o := k],
         loose := s.loose - {o})
    else s
  }

  /** _db_find_and_lock, up to the record or the end of the chain. */
  ghost predicate FindStep(s: State, p: Pid, s': State)
    requires p in s.procs
  {
    var q := s.procs[p];
    match q.pc
    case FindWait => LockStep(s, p, q.c, q.op != Fetch, FindHead, s')
    case FindHead => s' == Put(s, p, q.(pc := FindTest, offset := HeadOf(s, q.c), ptroff := q.c * PTR_SZ, i := 0))
    case FindTest =>
      if q.offset == 0 then s' == Put(s, p, q.(pc := if q.op == Insert then NewRead else ChainUnlock))
      else
        q.offset in s.f.recs &&
        (s' == Put(s, p, q.(offset := s.f.recs[q.offset].ptr, ptroff := q.offset, i := q.i + 1)) ||
         s' == Put(s, p, q.(pc := if q.op == Delete || q.op == Replace then DelWait
           else ChainUnlock, o := q.offset, ptrval := s.f.recs[q.offset].ptr)))
    case ChainUnlock => UnlockStep(s, p, q.c, Idle, s')
    case _ => false
  }

  /** _db_dodelete. */
  ghost predicate DeleteStep(s: State, p: Pid, s': State)
    requires p in s.procs
  {
    var q := s.procs[p];
    match q.pc
    case DelWait => LockStep(s, p, FREE, true, DelFree, s')
    case DelFree => s' == Put(s, p, q.(pc := DelIdx, freeptr := HeadOf(s, FREE)))
    case DelIdx => q.o in s.f.recs && s' == Put(Drop(SetPtr(s, q.o, q.freeptr), p, q.c, q.i, q.o), p, q.(pc := DelHead))
    case DelHead => s' == Put(Push(s, FREE, q.o), p, q.(pc := DelPtr))
    case DelPtr => s' == Put(s.(f := PutPtr(s.f, q.ptroff, q.ptrval)), p, q.(pc := DelUnlock))
    case DelUnlock => UnlockStep(s, p, FREE, if q.op == Delete then ChainUnlock else NewRead, s')
    case _ => false
  }

  /** _db_findfree, and the rewriting of the record it finds. */
  ghost predicate ReuseStep(s: State, p: Pid, s': State)
    requires p in s.procs
  {
    var q := s.procs[p];
    match q.pc
    case NewRead => s' == Put(s, p, q.(pc := if q.op == Replace then DatWait else FreeWait, ptrval := HeadOf(s, q.c)))
    case FreeWait => LockStep(s, p, FREE, true, FreeHead, s')
    case FreeHead => s' == Put(s, p, q.(pc := FreeTest, offset := HeadOf(s, FREE), ptroff := FREE * PTR_SZ, i := 0))
    case FreeTest =>
      if q.offset == 0 then s' == Put(s, p, q.(pc := NoneUnlock))
      else
        q.offset in s.f.recs &&
        (s' == Put(s, p, q.(offset := s.f.recs[q.offset].ptr, ptroff := q.offset, i := q.i + 1)) ||
         s' == Put(s, p, q.(pc := FreeTake, o := q.offset, freeptr := s.f.recs[q.offset].ptr)))
    case FreeTake =>
      s' == Put(Drop(s.(f := PutPtr(s.f, q.ptroff, q.freeptr)), p, FREE, q.i, q.o), p, q.(pc := TakenUnlock))
    case TakenUnlock => UnlockStep(s, p, FREE, ReuseIdx, s')
    case NoneUnlock => UnlockStep(s, p, FREE, DatWait, s')
    case ReuseIdx => q.o in s.f.recs && s' == Put(SetPtr(s, q.o, q.ptrval), p, q.(pc := Link))
    case Link => q.o <= PTR_MAX && s' == Put(Push(s, q.c, q.o), p, q.(pc := ChainUnlock))
    case _ => false
  }

  /** The index file with the new record of p at the place found by the seek. */
  function Appended(s: State, p: Pid, r: IdxRec): State
    requires p in s.procs
  {
    var q := s.procs[p];
    Put(s.(f := s.f.(recs := s.f.recs[q.o := r], end := q.o + Size(r)), loose := s.loose[q.o := p]), p,
      q.(pc := IdxUnlock))
  }

  /** Appending to the data file and to the index file, each under its lock. */
  ghost predicate AppendStep(s: State, p: Pid, s': State)
    requires p in s.procs
  {
    var q := s.procs[p];
    match q.pc
    case DatWait => LockStep(s, p, DAT, true, DatUnlock, s')
    case DatUnlock => UnlockStep(s, p, DAT, IdxWait, s')
    case IdxWait => LockStep(s, p, IDX, true, IdxSeek, s')
    case IdxSeek => s' == Put(s, p, q.(pc := IdxWrite, o := s.f.end))
    case IdxWrite =>
      exists r: IdxRec :: r.ptr == q.ptrval && s' == Appended(s, p, r)
    case IdxUnlock => UnlockStep(s, p, IDX, Link, s')
    case _ => false
  }

  /** db_nextrec. */
  ghost predicate NextStep(s: State, p: Pid, s': State)
    requires p in s.procs
  {
    var q := s.procs[p];
    match q.pc
    case NextWait => LockStep(s, p, FREE, false, NextRead, s')
    case NextRead => s' == Put(s, p, q.(pc := NextUnlock))
    case NextUnlock => UnlockStep(s, p, FREE, Idle, s')
    case _ => false
  }

  /** A process that is in none of the functions calls one. */
  ghost predicate CallStep(s: State, p: Pid, s': State)
    requires p in s.procs
  {
    s.procs[p].pc.Idle? &&
    ((exists op, c :: 1 <= c <= NHASH && s' == Put(s, p, Proc(FindWait, op, c, 0, 0, 0, 0, 0, 0))) ||
     s' == Put(s, p, Proc(NextWait, Fetch, 0, 0, 0, 0, 0, 0, 0)))
  }

  /** A process ends at a limit, which frees its locks: _db_writeidx finds the record too long, before it writes it, or
      _db_writeptr finds the offset of the new record too large, and the record stays where no pointer leads. Another
      process may get the number. */
  ghost predicate QuitStep(s: State, p: Pid, s': State)
    requires p in s.procs
  {
    var q := s.procs[p];
    match q.pc
    case IdxWait => UnlockStep(s, p, q.c, Idle, s')
    case Link => q.o > PTR_MAX && UnlockStep(Abandon(s, p), p, q.c, Idle, s')
    case _ => false
  }

  /** Process p forgets its record. */
  function Abandon(s: State, p: Pid): State
    requires p in s.procs
  {
    Put(s.(loose := s.loose - {s.procs[p].o}), p, s.procs[p].(pc := ChainUnlock))
  }

  ghost predicate Step(s: State, p: Pid, s': State) {
    p in s.procs &&
    (FindStep(s, p, s') || DeleteStep(s, p, s') || ReuseStep(s, p, s') || AppendStep(s, p, s') || NextStep(s, p, s') ||
      CallStep(s, p, s') || QuitStep(s, p, s'))
  }

  // ----- The invariant -----

  /** A record of its own that is on no list. */
  predicate OwnsRecord(pc: Pc) {
    pc.DelHead? || pc.TakenUnlock? || pc.ReuseIdx? || pc.IdxUnlock? || pc.Link?
  }

  /** Deletion has taken the record off the chain, but the pointer to it is still in the file. */
  predicate Pending(pc: Pc) {
    pc.DelHead? || pc.DelPtr?
  }

  predicate Found(pc: Pc) {
    pc.DelWait? || pc.DelFree? || pc.DelIdx?
  }

  /** The head of the chain has been read for a new record. */
  predicate HeadRead(pc: Pc) {
    pc.FreeWait? || pc.FreeHead? || pc.FreeTest? || pc.FreeTake? || pc.TakenUnlock? || pc.NoneUnlock? || pc.ReuseIdx? ||
    pc.DatWait? || pc.DatUnlock? || pc.IdxWait? || pc.IdxSeek? || pc.IdxWrite?
  }

  ghost predicate At3(s: State, k: nat, q: Proc)
    requires k < |s.lists|
  {
    q.i <= |s.lists[k]| && q.offset == At(s.lists[k], q.i) && q.ptroff == PtrOff(s.lists[k], k, q.i)
  }

  ghost predicate On(s: State, k: nat, q: Proc)
    requires k < |s.lists|
  {
    q.i < |s.lists[k]| && q.o == s.lists[k][q.i] && q.ptroff == PtrOff(s.lists[k], k, q.i)
  }

  /** The files with the pending pointer of the process that has list k for writing. */
  ghost function View(s: State, k: nat): Files
    requires k < |s.locks|
  {
    match s.locks[k].writer
    case NoOne => s.f
    case By(p) =>
      if p in s.procs && Pending(s.procs[p].pc) && s.procs[p].c == k
        then PutPtr(s.f, s.procs[p].ptroff, s.procs[p].ptrval) else s.f
  }

  ghost predicate LocksOk(s: State, p: Pid)
    requires p in s.procs && |s.locks| == LOCKS
  {
    forall k :: 0 <= k < LOCKS ==>
      (s.locks[k].writer == By(p) <==> Writes(s.procs[p], k)) && (p in s.locks[k].readers <==> Reads(s.procs[p], k))
  }

  ghost predicate Sized(s: State) {
    |s.f.heads| == |s.lists| == NHASH + 1 && |s.locks| == LOCKS
  }

  /** What a process relies on. */
  ghost predicate ProcOk(s: State, p: Pid)
    requires p in s.procs && Sized(s)
  {
    LocksOk(s, p) && PlaceOk(s, p)
  }

  /** Where a process is in the lists, and which pointers it has read. */
  ghost predicate PlaceOk(s: State, p: Pid)
    requires p in s.procs && Sized(s)
  {
    var q := s.procs[p];
    (!q.pc.Idle? && !q.pc.NextWait? && !q.pc.NextRead? && !q.pc.NextUnlock? ==> 1 <= q.c <= NHASH) &&
    (ChainHeld(q.pc) && q.op == Fetch ==> q.pc.FindHead? || q.pc.FindTest? || q.pc.ChainUnlock?) &&
    (q.pc.FindTest? ==> At3(s, q.c, q)) &&
    (Found(q.pc) ==> On(s, q.c, q) && q.o in s.f.recs && q.ptrval == s.f.recs[q.o].ptr) &&
    (q.pc.DelIdx? ==> q.freeptr == s.f.heads[FREE]) &&
    (OwnsRecord(q.pc) ==> q.o in s.loose && s.loose[q.o] == p && q.o in s.f.recs && START <= q.o) &&
    (OwnsRecord(q.pc) && q.o > PTR_MAX ==> q.pc.IdxUnlock? || q.pc.Link?) &&
    (q.pc.DelHead? ==> s.f.recs[q.o].ptr == s.f.heads[FREE]) &&
    (Pending(q.pc) ==> q.ptroff < START ==> q.ptroff == q.c * PTR_SZ) &&
    (Pending(q.pc) ==> q.ptroff >= START ==> q.ptroff in s.lists[q.c]) &&
    (q.pc.FreeTest? ==> At3(s, FREE, q)) &&
    (q.pc.FreeTake? ==> On(s, FREE, q) && q.o in s.f.recs && q.freeptr == s.f.recs[q.o].ptr) &&
    (HeadRead(q.pc) ==> q.ptrval == s.f.heads[q.c]) &&
    (q.pc.IdxWrite? ==> q.o == s.f.end) &&
    (q.pc.IdxUnlock? || q.pc.Link? ==> s.f.recs[q.o].ptr == s.f.heads[q.c])
  }

  /** A record is on a list, or a process has it, or it lies behind every offset that fits a pointer. */
  ghost predicate OnLists(s: State, o: nat)
    requires |s.lists| == NHASH + 1
  {
    if o in s.owner then o !in s.loose && s.owner[o] <= NHASH && o in s.lists[s.owner[o]]
    else if o in s.loose then
      s.loose[o] in s.procs && OwnsRecord(s.procs[s.loose[o]].pc) && s.procs[s.loose[o]].o == o
    else o > PTR_MAX
  }

  ghost predicate MembersOk(s: State, k: nat)
    requires k < |s.lists|
  {
    forall o :: o in s.lists[k] ==> o in s.owner && s.owner[o] == k
  }

  ghost predicate LockOk(l: Lock, s: State) {
    (l.writer != NoOne ==> l.readers == {} && l.writer.pid in s.procs) && forall p :: p in l.readers ==> p in s.procs
  }

  /** Locks, lists and records are in order. */
  ghost predicate FilesOk(s: State) {
    Sized(s) && START <= s.f.end &&
    (forall k :: 0 <= k < LOCKS ==> LockOk(s.locks[k], s)) &&
    (forall k :: 0 <= k <= NHASH ==> ListOk(View(s, k), k, s.lists[k]) && MembersOk(s, k)) &&
    (forall o :: o in s.f.recs ==> START <= o < s.f.end && OnLists(s, o)) &&
    (forall o :: o in s.owner || o in s.loose ==> o in s.f.recs)
  }

  ghost predicate Inv(s: State) {
    FilesOk(s) && forall p :: p in s.procs ==> ProcOk(s, p)
  }

  // ----- Exclusion -----

  predicate Holds(q: Proc, k: nat) {
    Writes(q, k) || Reads(q, k)
  }

  /** What one process may write no other process holds. */
  lemma {:induction false} Exclusive(s: State, p: Pid, u: Pid, k: nat)
    requires Inv(s) && p in s.procs && u in s.procs && p != u && k < LOCKS && Writes(s.procs[p], k)
    ensures !Holds(s.procs[u], k)
  {
    assert ProcOk(s, p) && ProcOk(s, u) && LockOk(s.locks[k], s);
  }

  lemma {:induction false} OkProc(s: State, p: Pid)
    requires Inv(s) && p in s.procs
    ensures ProcOk(s, p)
  {
  }

  /** The locks of u are as before. */
  ghost predicate SameLocks(s: State, s': State, u: Pid)
    requires |s.locks| == |s'.locks| == LOCKS
  {
    forall k :: 0 <= k < LOCKS ==>
      (s'.locks[k].writer == By(u) <==> s.locks[k].writer == By(u)) &&
        (u in s'.locks[k].readers <==> u in s.locks[k].readers)
  }

  ghost predicate SameList(s: State, s': State, k: nat)
    requires k < |s.lists| && k < |s'.lists| && k < |s.f.heads| && k < |s'.f.heads|
  {
    s'.lists[k] == s.lists[k] && s'.f.heads[k] == s.f.heads[k] &&
    forall o :: o in s.lists[k] && o in s.f.recs ==> o in s'.f.recs && s'.f.recs[o].ptr == s.f.recs[o].ptr
  }

  /** What the step of another process leaves as it was for u. */
  ghost predicate Spares(s: State, s': State, u: Pid)
    requires u in s.procs && Sized(s)
  {
    var q := s.procs[u];
    Sized(s') && u in s'.procs && s'.procs[u] == q && SameLocks(s, s', u) &&
    (ChainHeld(q.pc) && q.c <= NHASH ==> SameList(s, s', q.c)) && (FreeHeld(q.pc) ==> SameList(s, s', FREE)) &&
    (IdxHeld(q.pc) ==> s'.f.end == s.f.end) &&
    (OwnsRecord(q.pc) && q.o in s.loose && q.o in s.f.recs ==>
      q.o in s'.loose && s'.loose[q.o] == s.loose[q.o] && q.o in s'.f.recs && s'.f.recs[q.o].ptr == s.f.recs[q.o].ptr)
  }

  lemma {:induction false} SparedProc(s: State, s': State, u: Pid)
    requires u in s.procs && Sized(s) && ProcOk(s, u) && Spares(s, s', u)
    ensures ProcOk(s', u)
  {
    SparedPlace(s, s', u);
  }

  lemma {:induction false} SparedPlace(s: State, s': State, u: Pid)
    requires u in s.procs && Sized(s) && PlaceOk(s, u) && Spares(s, s', u)
    ensures PlaceOk(s', u)
  {
    var q := s.procs[u];
    if Found(q.pc) { assert q.o in s.lists[q.c]; }
    if q.pc.FreeTake? { assert q.o in s.lists[FREE]; }
  }

  lemma {:induction false} ViewOfFree(s: State)
    requires Inv(s)
    ensures View(s, FREE) == s.f
  {
    assert LockOk(s.locks[FREE], s);
    if s.locks[FREE].writer != NoOne { assert ProcOk(s, s.locks[FREE].writer.pid); }
  }

  lemma {:induction false} FreeListOk(s: State)
    requires Inv(s)
    ensures ListOk(s.f, FREE, s.lists[FREE])
  {
    ViewOfFree(s);
    assert ListOk(View(s, FREE), FREE, s.lists[FREE]);
  }

  /** A process that holds a chain, and is not between the two writes of a deletion, sees the chain as it is. */
  lemma {:induction false} ViewOfChain(s: State, p: Pid)
    requires Inv(s) && p in s.procs && ChainHeld(s.procs[p].pc) && !Pending(s.procs[p].pc)
    ensures View(s, s.procs[p].c) == s.f && s.procs[p].c <= NHASH && ListOk(s.f, s.procs[p].c, s.lists[s.procs[p].c])
  {
    var q := s.procs[p];
    assert ProcOk(s, p) && LockOk(s.locks[q.c], s);
    assert Writes(q, q.c) || Reads(q, q.c);
    assert ListOk(View(s, q.c), q.c, s.lists[q.c]);
  }

  // ----- Steps without effect on the files -----

  lemma {:induction false} LocalKeeps(s: State, p: Pid, q: Proc, s': State)
    requires Inv(s) && p in s.procs && s' == Put(s, p, q)
    requires !Pending(s.procs[p].pc) && !Pending(q.pc)
    requires OwnsRecord(s.procs[p].pc) ==> OwnsRecord(q.pc) && q.o == s.procs[p].o
    ensures FilesOk(s') && forall u :: u in s.procs && u != p ==> ProcOk(s', u)
  {
    forall k | 0 <= k < LOCKS ensures LockOk(s'.locks[k], s') { assert LockOk(s.locks[k], s); }
    forall k | 0 <= k <= NHASH ensures ListOk(View(s', k), k, s'.lists[k]) && MembersOk(s', k) {
      assert ListOk(View(s, k), k, s.lists[k]) && MembersOk(s, k) && View(s', k) == View(s, k);
    }
    LocalRecords(s, p, q, s');
    forall u | u in s.procs && u != p ensures ProcOk(s', u) { LocalOther(s, p, q, s', u); }
  }

  lemma {:induction false} LocalRecords(s: State, p: Pid, q: Proc, s': State)
    requires Inv(s) && p in s.procs && s' == Put(s, p, q) &&
      (OwnsRecord(s.procs[p].pc) ==> OwnsRecord(q.pc) && q.o == s.procs[p].o)
    ensures forall o :: o in s'.f.recs ==> OnLists(s', o)
  {
    forall o | o in s'.f.recs ensures OnLists(s', o) { assert OnLists(s, o); }
  }

  lemma {:induction false} LocalOther(s: State, p: Pid, q: Proc, s': State, u: Pid)
    requires Inv(s) && p in s.procs && s' == Put(s, p, q) && u in s.procs && u != p
    ensures ProcOk(s', u)
  {
    assert ProcOk(s, u);
    SparedProc(s, s', u);
  }

  /** A lock is taken or given back. */
  lemma {:induction false} LocksKeep(s: State, p: Pid, k: nat, l: Lock, q: Proc, s': State)
    requires Inv(s) && p in s.procs && k < LOCKS && s' == Put(s.(locks := s.locks[k := l]), p, q)
    requires !Pending(s.procs[p].pc) && !Pending(q.pc) && LockOk(l, s)
    requires OwnsRecord(s.procs[p].pc) ==> OwnsRecord(q.pc) && q.o == s.procs[p].o
    requires forall u :: u in s.procs && u != p ==> SameFor(s.locks[k], l, u)
    ensures FilesOk(s') && forall u :: u in s.procs && u != p ==> ProcOk(s', u)
  {
    forall j | 0 <= j < LOCKS ensures LockOk(s'.locks[j], s') { assert LockOk(s.locks[j], s); }
    forall j | 0 <= j <= NHASH ensures ListOk(View(s', j), j, s'.lists[j]) && MembersOk(s', j) {
      assert ListOk(View(s, j), j, s.lists[j]) && MembersOk(s, j) && LockOk(s.locks[j], s);
      LocksView(s, p, k, l, q, s', j);
    }
    LocksRecords(s, p, k, l, q, s');
    forall u | u in s.procs && u != p ensures ProcOk(s', u) { LocksProc(s, p, k, l, q, s', u); }
  }

  /** A lock means the same to u as before. */
  predicate SameFor(l: Lock, l': Lock, u: Pid) {
    (l'.writer == By(u) <==> l.writer == By(u)) && (u in l'.readers <==> u in l.readers)
  }

  lemma {:induction false} LocksRecords(s: State, p: Pid, k: nat, l: Lock, q: Proc, s': State)
    requires FilesOk(s) && p in s.procs && k < LOCKS && s' == Put(s.(locks := s.locks[k := l]), p, q)
    requires OwnsRecord(s.procs[p].pc) ==> OwnsRecord(q.pc) && q.o == s.procs[p].o
    ensures forall o :: o in s'.f.recs ==> START <= o < s'.f.end && OnLists(s', o)
  {
    forall o | o in s'.f.recs ensures START <= o < s'.f.end && OnLists(s', o) { assert OnLists(s, o); }
  }

  lemma {:induction false} LocksProc(s: State, p: Pid, k: nat, l: Lock, q: Proc, s': State, u: Pid)
    requires Inv(s) && p in s.procs && k < LOCKS && s' == Put(s.(locks := s.locks[k := l]), p, q)
    requires u in s.procs && u != p && SameFor(s.locks[k], l, u)
    ensures ProcOk(s', u)
  {
    assert ProcOk(s, u);
    SparedProc(s, s', u);
  }

  lemma {:induction false} LocksView(s: State, p: Pid, k: nat, l: Lock, q: Proc, s': State, j: nat)
    requires Sized(s) && p in s.procs && k < LOCKS && s' == Put(s.(locks := s.locks[k := l]), p, q) && j <= NHASH
    requires ListOk(View(s, j), j, s.lists[j]) && MembersOk(s, j) && LockOk(s.locks[j], s)
    requires !Pending(s.procs[p].pc) && !Pending(q.pc) && LockOk(l, s)
    requires forall u :: u in s.procs && u != p ==> SameFor(s.locks[k], l, u)
    ensures ListOk(View(s', j), j, s'.lists[j]) && MembersOk(s', j)
  {
    assert View(s', j) == View(s, j);
  }

  // ----- Lists in the files -----

  ghost function AsBooks(lists: seq<seq<nat>>): Books {
    Books(lists, map[], map[], (k: string) => 1, {})
  }

  /** Writing the pointer of node i over the pointer to it. */
  lemma {:induction false} LeftOut(f: Files, c: nat, l: seq<nat>, i: nat, f': Files)
    requires c <= NHASH && |f.heads| == NHASH + 1 && ListOk(f, c, l) && i < |l| && l[i] in f.recs &&
      f' == PutPtr(f, PtrOff(l, c, i), f.recs[l[i]].ptr)
    ensures ListOk(f', c, Without(l, i)) && f'.end == f.end && f'.recs.Keys == f.recs.Keys && |f'.heads| == |f.heads|
    ensures forall k :: 0 <= k <= NHASH && k != c ==> f'.heads[k] == f.heads[k]
    ensures forall o :: o in f.recs && o !in l ==> f'.recs[o] == f.recs[o]
    ensures f'.recs[l[i]] == f.recs[l[i]]
  {
    assert NodeOk(f, l, i);
    if i > 0 { assert NodeOk(f, l, i - 1) && l[i - 1] in l && l[i - 1] != l[i]; } else { HeadOffset(c); }
    var b := AsBooks(seq(NHASH + 1, k => if k == c then l else []));
    var b' := b.(lists := b.lists[c := Without(l, i)], owner := b.owner - {l[i]},
                 place := if c == FREE then b.place else b.place - {f.recs[l[i]].key});
    UnlinkedList(f, b, c, i, l[i], f', b');
  }

  /** A record at the front of a list. */
  lemma {:induction false} PutFirst(f: Files, c: nat, l: seq<nat>, o: nat, f': Files)
    requires c <= NHASH && |f.heads| == NHASH + 1 && ListOk(f, c, l) && o in f.recs && o !in l && START <= o <= PTR_MAX
    requires f.recs[o].ptr == f.heads[c] && f' == f.(heads := f.heads[c := o])
    ensures ListOk(f', c, [o] + l)
  {
    var b := AsBooks(seq(NHASH + 1, k => if k == c then l else []));
    var b' := b.(lists := b.lists[c := [o] + b.lists[c]], owner := b.owner[o := c],
                 place := if c == FREE then b.place else b.place[f.recs[o].key := o]);
    LinkedList(f, b, o, c, f', b');
  }

  /** The list that nobody has touched. */
  lemma {:induction false} ViewFrame(s: State, s': State, k: nat)
    requires Sized(s) && Sized(s') && k <= NHASH && s'.locks[k] == s.locks[k] && SameList(s, s', k) &&
      s.f.recs.Keys <= s'.f.recs.Keys
    requires s.locks[k].writer != NoOne && s.locks[k].writer.pid in s.procs ==>
      var p := s.locks[k].writer.pid;
      p in s'.procs && (s.procs[p].c == k ==> (Pending(s'.procs[p].pc) <==> Pending(s.procs[p].pc))) &&
        s'.procs[p].c == s.procs[p].c &&
      s'.procs[p].ptroff == s.procs[p].ptroff && s'.procs[p].ptrval == s.procs[p].ptrval && ProcOk(s, p)
    requires s.locks[k].writer != NoOne ==> s.locks[k].writer.pid in s.procs
    requires ListOk(View(s, k), k, s.lists[k])
    ensures ListOk(View(s', k), k, s'.lists[k])
  {
    var v, v' := View(s, k), View(s', k);
    HeadOffset(k);
    DbFiles.SameList(v, v', k, s.lists[k]);
  }

  // ----- Steps with effect on the files -----

  /** A step of p that writes the files: only lists in touched change, all of them held by p for writing. */
  ghost predicate FileStep(s: State, p: Pid, s': State, touched: set<nat>)
    requires Sized(s)
  {
    p in s.procs && p in s'.procs && Sized(s') && s'.locks == s.locks && s'.procs == s.procs[p := s'.procs[p]] &&
    (forall k :: k in touched ==> k <= NHASH && Writes(s.procs[p], k)) &&
    (forall k :: 0 <= k <= NHASH && k !in touched ==> SameList(s, s', k)) &&
    s.f.recs.Keys <= s'.f.recs.Keys && s.f.end <= s'.f.end && (s'.f.end != s.f.end ==> Writes(s.procs[p], IDX)) &&
    (forall o :: o in s.loose && s.loose[o] != p && o in s.f.recs ==>
      o in s'.loose && s'.loose[o] == s.loose[o] && s'.f.recs[o].ptr == s.f.recs[o].ptr) &&
    s'.procs[p].c == s.procs[p].c && s'.procs[p].ptroff == s.procs[p].ptroff &&
      s'.procs[p].ptrval == s.procs[p].ptrval &&
    ((Pending(s.procs[p].pc) <==> Pending(s'.procs[p].pc)) || s.procs[p].c in touched)
  }

  lemma {:induction false} FileProc(s: State, p: Pid, s': State, touched: set<nat>, u: Pid)
    requires Inv(s) && FileStep(s, p, s', touched) && u in s.procs && u != p
    ensures ProcOk(s', u)
  {
    var q := s.procs[u];
    assert ProcOk(s, u);
    if ChainHeld(q.pc) && q.c in touched { Exclusive(s, p, u, q.c); }
    if FreeHeld(q.pc) && FREE in touched { Exclusive(s, p, u, FREE); }
    if IdxHeld(q.pc) && s'.f.end != s.f.end { Exclusive(s, p, u, IDX); }
    assert ChainHeld(q.pc) ==> Holds(q, q.c);
    SparedProc(s, s', u);
  }

  lemma {:induction false} FileList(s: State, p: Pid, s': State, touched: set<nat>, k: nat)
    requires Inv(s) && FileStep(s, p, s', touched) && k <= NHASH && k !in touched
    ensures ListOk(View(s', k), k, s'.lists[k])
  {
    assert ListOk(View(s, k), k, s.lists[k]) && LockOk(s.locks[k], s) && SameList(s, s', k);
    if s.locks[k].writer != NoOne { assert ProcOk(s, s.locks[k].writer.pid); }
    ViewFrame(s, s', k);
  }

  lemma {:induction false} FilesKeep(s: State, p: Pid, s': State, touched: set<nat>)
    requires Inv(s) && FileStep(s, p, s', touched)
    requires forall k :: k in touched && k <= NHASH ==> ListOk(View(s', k), k, s'.lists[k])
    requires forall k :: 0 <= k <= NHASH ==> MembersOk(s', k)
    requires forall o :: o in s'.f.recs ==> START <= o < s'.f.end && OnLists(s', o)
    requires forall o :: o in s'.owner || o in s'.loose ==> o in s'.f.recs
    ensures FilesOk(s') && forall u :: u in s.procs && u != p ==> ProcOk(s', u)
  {
    forall k | 0 <= k < LOCKS ensures LockOk(s'.locks[k], s') { assert LockOk(s.locks[k], s); }
    forall k | 0 <= k <= NHASH ensures ListOk(View(s', k), k, s'.lists[k]) {
      if k !in touched { FileList(s, p, s', touched, k); }
    }
    forall u | u in s.procs && u != p ensures ProcOk(s', u) { FileProc(s, p, s', touched, u); }
  }

  /** The record of another list is not on this one. */
  lemma {:induction false} ElsewhereListed(s: State, k: nat, o: nat)
    requires FilesOk(s) && k <= NHASH && (o in s.loose || (o in s.owner && s.owner[o] != k)) && o in s.f.recs
    ensures o !in s.lists[k]
  {
    assert MembersOk(s, k) && OnLists(s, o);
  }

  /** Taking a record off a list changes the books as it should. */
  lemma {:induction false} DropBooks(s: State, p: Pid, k: nat, i: nat, o: nat, s': State, q: Proc)
    requires FilesOk(s) && p in s.procs && k <= NHASH && i < |s.lists[k]| && o == s.lists[k][i] && Distinct(s.lists[k])
    requires s'.lists == s.lists[k := Without(s.lists[k], i)] && s'.owner == s.owner - {o} &&
      s'.loose == s.loose[o := p]
    requires s'.procs == s.procs[p := q] && OwnsRecord(q.pc) && q.o == o && !OwnsRecord(s.procs[p].pc)
    requires s'.f.recs.Keys == s.f.recs.Keys && s'.f.end == s.f.end
    ensures forall j :: 0 <= j <= NHASH ==> MembersOk(s', j)
    ensures forall x :: x in s'.f.recs ==> START <= x < s'.f.end && OnLists(s', x)
    ensures forall x :: x in s'.owner || x in s'.loose ==> x in s'.f.recs
  {
    assert MembersOk(s, k) && o in s.lists[k];
    WithoutMembers(s.lists[k], i);
    forall j | 0 <= j <= NHASH ensures MembersOk(s', j) { assert MembersOk(s, j); }
    forall x | x in s'.f.recs ensures OnLists(s', x) {
      assert OnLists(s, x);
      DropRecord(s, p, k, o, s', q, x);
    }
  }

  lemma {:induction false} DropRecord(s: State, p: Pid, k: nat, o: nat, s': State, q: Proc, x: nat)
    requires |s.lists| == |s'.lists| == NHASH + 1 && p in s.procs && k <= NHASH && OnLists(s, x) && o in s.owner &&
      s.owner[o] == k
    requires s'.owner == s.owner - {o} && s'.loose == s.loose[o := p] && s'.procs == s.procs[p := q] &&
      OwnsRecord(q.pc) && q.o == o
    requires !OwnsRecord(s.procs[p].pc) && (forall j :: 0 <= j <= NHASH && j != k ==> s'.lists[j] == s.lists[j])
    requires forall y :: y in s'.lists[k] <==> y in s.lists[k] && y != o
    ensures OnLists(s', x)
  {
  }

  lemma {:induction false} PushBooks(s: State, p: Pid, k: nat, o: nat, s': State, q: Proc)
    requires FilesOk(s) && p in s.procs && k <= NHASH && o in s.loose && s.loose[o] == p && OwnsRecord(s.procs[p].pc) &&
      s.procs[p].o == o
    requires s'.lists == s.lists[k := [o] + s.lists[k]] && s'.owner == s.owner[o := k] && s'.loose == s.loose - {o}
    requires s'.procs == s.procs[p := q] && s'.f.recs.Keys == s.f.recs.Keys && s'.f.end == s.f.end
    ensures forall j :: 0 <= j <= NHASH ==> MembersOk(s', j)
    ensures forall x :: x in s'.f.recs ==> START <= x < s'.f.end && OnLists(s', x)
    ensures forall x :: x in s'.owner || x in s'.loose ==> x in s'.f.recs
  {
    forall j | 0 <= j <= NHASH ensures MembersOk(s', j) { assert MembersOk(s, j); ElsewhereListed(s, j, o); }
    forall x | x in s'.f.recs ensures OnLists(s', x) {
      assert OnLists(s, x);
      PushRecord(s, p, k, o, s', q, x);
    }
  }

  lemma {:induction false} PushRecord(s: State, p: Pid, k: nat, o: nat, s': State, q: Proc, x: nat)
    requires |s.lists| == |s'.lists| == NHASH + 1 && p in s.procs && k <= NHASH && OnLists(s, x) && o in s.loose &&
      s.procs[p].o == o
    requires s'.owner == s.owner[o := k] && s'.loose == s.loose - {o} && s'.procs == s.procs[p := q] && s.loose[o] == p
    requires s'.lists == s.lists[k := [o] + s.lists[k]]
    ensures OnLists(s', x)
  {
  }

  /** A process that works on a chain for writing has its lock. */
  lemma {:induction false} WritesChain(s: State, p: Pid)
    requires Inv(s) && p in s.procs && ChainHeld(s.procs[p].pc) && !s.procs[p].pc.FindHead? &&
      !s.procs[p].pc.FindTest? && !s.procs[p].pc.ChainUnlock?
    ensures 1 <= s.procs[p].c <= NHASH && Writes(s.procs[p], s.procs[p].c) && s.locks[s.procs[p].c].writer == By(p)
  {
    OkProc(s, p);
  }

  /** _db_writeidx in a deletion: the record leaves its chain, with one pointer still to be written. */
  lemma {:induction false} DelIdxKeeps(s: State, p: Pid, s': State)
    requires Inv(s) && p in s.procs && DeleteStep(s, p, s') && s.procs[p].pc.DelIdx?
    ensures Inv(s') && FileStep(s, p, s', {s.procs[p].c})
  {
    var c := s.procs[p].c;
    OkProc(s, p);
    WritesChain(s, p);
    ViewOfChain(s, p);
    DelIdxView(s, p, c, s');
    DelIdxFileStep(s, p, c, s.procs[p].o, s');
    DropKeeps(s, p, c, s');
    DelIdxProc(s, p, s');
  }

  /** A record that is taken off a list belongs to the process from then on. */
  lemma {:induction false} DropKeeps(s: State, p: Pid, k: nat, s': State)
    requires Sized(s) && Sized(s') && p in s.procs && p in s'.procs && k <= NHASH
    requires On(s, k, s.procs[p]) && Distinct(s.lists[k]) && !OwnsRecord(s.procs[p].pc)
    requires var o := s.procs[p].o;
      s'.lists == s.lists[k := Without(s.lists[k], s.procs[p].i)] && s'.owner == s.owner - {o} &&
        s'.loose == s.loose[o := p] &&
      OwnsRecord(s'.procs[p].pc) && s'.procs[p].o == o
    requires s'.f.recs.Keys == s.f.recs.Keys && s'.f.end == s.f.end && ListOk(View(s', k), k, s'.lists[k])
    requires Inv(s) && FileStep(s, p, s', {k})
    ensures FilesOk(s') && forall u :: u in s.procs && u != p ==> ProcOk(s', u)
  {
    DropBooks(s, p, k, s.procs[p].i, s.procs[p].o, s', s'.procs[p]);
    FilesKeep(s, p, s', {k});
  }

  lemma {:induction false} DelIdxFileStep(s: State, p: Pid, c: nat, o: nat, s': State)
    requires FilesOk(s) && p in s.procs && 1 <= c <= NHASH && c == s.procs[p].c && o == s.procs[p].o &&
      Writes(s.procs[p], c)
    requires On(s, c, s.procs[p]) && o in s.f.recs && DeleteStep(s, p, s') && s.procs[p].pc.DelIdx?
    ensures FileStep(s, p, s', {c})
  {
    assert o in s.lists[c];
    forall k | 0 <= k <= NHASH && k != c ensures SameList(s, s', k) { OnlyOn(s, c, o, k); }
    assert MembersOk(s, c) && OnLists(s, o);
  }

  lemma {:induction false} OnlyOn(s: State, c: nat, o: nat, k: nat)
    requires FilesOk(s) && c <= NHASH && o in s.lists[c] && k <= NHASH && k != c
    ensures o !in s.lists[k]
  {
    assert MembersOk(s, c) && MembersOk(s, k);
  }

  lemma {:induction false} DelIdxView(s: State, p: Pid, c: nat, s': State)
    requires Sized(s) && p in s.procs && ProcOk(s, p) && DeleteStep(s, p, s') && s.procs[p].pc.DelIdx? &&
      c == s.procs[p].c <= NHASH
    requires ListOk(s.f, c, s.lists[c]) && s.locks[c].writer == By(p)
    ensures Sized(s') && ListOk(View(s', c), c, s'.lists[c])
  {
    var q := s.procs[p];
    var l, m := s.lists[c], Without(s.lists[c], q.i);
    var g := PutPtr(s.f, q.ptroff, q.ptrval);
    LeftOut(s.f, c, l, q.i, g);
    WithoutMembers(l, q.i);
    DelIdxFiles(s.f, c, l, q.i, q.freeptr, g, s'.f);
    assert View(s', c) == PutPtr(s'.f, q.ptroff, q.ptrval);
    DbFiles.SameList(g, View(s', c), c, m);
  }

  /** The two writes of the deletion may come in either order. */
  lemma {:induction false} DelIdxFiles(f: Files, c: nat, l: seq<nat>, i: nat, x: nat, g: Files, f': Files)
    requires c <= NHASH && |f.heads| == NHASH + 1 && ListOk(f, c, l) && i < |l| && l[i] in f.recs
    requires g == PutPtr(f, PtrOff(l, c, i), f.recs[l[i]].ptr) &&
      f' == f.(recs := f.recs[l[i] := f.recs[l[i]].(ptr := x)])
    ensures var h := PutPtr(f', PtrOff(l, c, i), f.recs[l[i]].ptr);
      h.heads == g.heads && h.recs.Keys == g.recs.Keys && forall o :: o in g.recs && o != l[i] ==>
        h.recs[o] == g.recs[o]
  {
    if i > 0 { assert NodeOk(f, l, i - 1) && l[i - 1] != l[i]; } else { HeadOffset(c); }
  }

  lemma {:induction false} DelIdxProc(s: State, p: Pid, s': State)
    requires Sized(s) && p in s.procs && ProcOk(s, p) && DeleteStep(s, p, s') && s.procs[p].pc.DelIdx?
    requires ListOk(s.f, s.procs[p].c, s.lists[s.procs[p].c])
    ensures ProcOk(s', p)
  {
    var q := s.procs[p];
    var l := s.lists[q.c];
    assert NodeOk(s.f, l, q.i);
    WithoutMembers(l, q.i);
    HeadOffset(q.c);
    if q.i > 0 { assert NodeOk(s.f, l, q.i - 1) && l[q.i - 1] in l && l[q.i - 1] != l[q.i]; }
  }

  /** The record becomes the head of the free list. */
  lemma {:induction false} DelHeadKeeps(s: State, p: Pid, s': State)
    requires Inv(s) && p in s.procs && DeleteStep(s, p, s') && s.procs[p].pc.DelHead?
    ensures Inv(s') && FileStep(s, p, s', {FREE})
  {
    OkProc(s, p);
    ViewOfFree(s);
    assert ListOk(View(s, FREE), FREE, s.lists[FREE]);
    PushKeeps(s, p, FREE, s.procs[p].o, DelPtr, s');
    DelHeadProc(s, p, s');
  }

  /** The loose record of p becomes the head of list k. */
  lemma {:induction false} PushKeeps(s: State, p: Pid, k: nat, o: nat, pc: Pc, s': State)
    requires Sized(s) && p in s.procs && k <= NHASH && OwnsRecord(s.procs[p].pc) && Writes(s.procs[p], k) &&
      s.locks[k].writer == By(p)
    requires o == s.procs[p].o && o in s.loose && s.loose[o] == p && o in s.f.recs && START <= o <= PTR_MAX
    requires ListOk(s.f, k, s.lists[k]) && s.f.recs[o].ptr == s.f.heads[k]
    requires s' == Put(Push(s, k, o), p, s.procs[p].(pc := pc))
    requires if k == FREE then s.procs[p].c >= 1 && (Pending(pc) <==> Pending(s.procs[p].pc))
      else k == s.procs[p].c && !Pending(pc)
    requires Inv(s)
    ensures FilesOk(s') && FileStep(s, p, s', {k}) && forall u :: u in s.procs && u != p ==> ProcOk(s', u)
  {
    ElsewhereListed(s, k, o);
    PutFirst(s.f, k, s.lists[k], o, s'.f);
    PushBooks(s, p, k, o, s', s'.procs[p]);
    PushView(s, p, k, s');
    PushFiles(s, p, k, pc, s');
    FilesKeep(s, p, s', {k});
  }

  lemma {:induction false} PushView(s: State, p: Pid, k: nat, s': State)
    requires Sized(s) && Sized(s') && p in s.procs && k <= NHASH && s.locks[k].writer == By(p) &&
      s'.locks == s.locks && p in s'.procs
    requires s'.procs[p].c == s.procs[p].c && (if k == FREE then 1 <= s.procs[p].c else !Pending(s'.procs[p].pc))
    ensures View(s', k) == s'.f
  {
  }

  lemma {:induction false} PushFiles(s: State, p: Pid, k: nat, pc: Pc, s': State)
    requires Sized(s) && p in s.procs && s.procs[p].o in s.loose && s.loose[s.procs[p].o] == p && k <= NHASH &&
      Writes(s.procs[p], k)
    requires s' == Put(Push(s, k, s.procs[p].o), p, s.procs[p].(pc := pc))
    requires (Pending(pc) <==> Pending(s.procs[p].pc)) || k == s.procs[p].c
    ensures FileStep(s, p, s', {k})
  {
  }

  lemma {:induction false} DelHeadProc(s: State, p: Pid, s': State)
    requires Sized(s) && p in s.procs && ProcOk(s, p) && DeleteStep(s, p, s') && s.procs[p].pc.DelHead?
    ensures ProcOk(s', p)
  {
    SameLocksHeld(s, p, s');
  }

  lemma {:induction false} LinkProc(s: State, p: Pid, s': State)
    requires Sized(s) && p in s.procs && ProcOk(s, p) && ReuseStep(s, p, s') && s.procs[p].pc.Link?
    ensures ProcOk(s', p)
  {
    SameLocksHeld(s, p, s');
  }

  /** The pointer to the deleted record is overwritten at last. */
  lemma {:induction false} DelPtrKeeps(s: State, p: Pid, s': State)
    requires Inv(s) && p in s.procs && DeleteStep(s, p, s') && s.procs[p].pc.DelPtr?
    ensures Inv(s') && FileStep(s, p, s', {s.procs[p].c})
  {
    var q := s.procs[p];
    OkProc(s, p);
    WritesChain(s, p);
    assert ListOk(View(s, q.c), q.c, s.lists[q.c]) && View(s, q.c) == s'.f && View(s', q.c) == s'.f;
    DelPtrFiles(s, p, s');
    DelPtrBooks(s, p, s');
    FilesKeep(s, p, s', {q.c});
    DelPtrProc(s, p, s');
  }

  lemma {:induction false} DelPtrBooks(s: State, p: Pid, s': State)
    requires FilesOk(s) && p in s.procs && !OwnsRecord(s.procs[p].pc) && p in s'.procs &&
      s'.procs == s.procs[p := s'.procs[p]]
    requires s'.f.recs.Keys == s.f.recs.Keys && s'.f.end == s.f.end && s'.lists == s.lists && s'.owner == s.owner &&
      s'.loose == s.loose
    ensures forall k :: 0 <= k <= NHASH ==> MembersOk(s', k)
    ensures forall o :: o in s'.f.recs ==> START <= o < s'.f.end && OnLists(s', o)
  {
    forall k | 0 <= k <= NHASH ensures MembersOk(s', k) { assert MembersOk(s, k); }
    forall o | o in s'.f.recs ensures START <= o < s'.f.end && OnLists(s', o) { assert OnLists(s, o); }
  }

  lemma {:induction false} DelPtrFiles(s: State, p: Pid, s': State)
    requires Inv(s) && p in s.procs && DeleteStep(s, p, s') && s.procs[p].pc.DelPtr?
    ensures FileStep(s, p, s', {s.procs[p].c}) && s'.f.recs.Keys == s.f.recs.Keys && s'.f.end == s.f.end
  {
    var q := s.procs[p];
    OkProc(s, p);
    WritesChain(s, p);
    HeadOffset(q.c);
    forall k | 0 <= k <= NHASH && k != q.c ensures SameList(s, s', k) {
      if q.ptroff >= START { OnlyOn(s, q.c, q.ptroff, k); }
    }
    if q.ptroff >= START { assert MembersOk(s, q.c); assert OnLists(s, q.ptroff); }
  }

  lemma {:induction false} DelPtrProc(s: State, p: Pid, s': State)
    requires Sized(s) && p in s.procs && ProcOk(s, p) && DeleteStep(s, p, s') && s.procs[p].pc.DelPtr?
    ensures ProcOk(s', p)
  {
  }

  /** _db_findfree takes a record off the free list. */
  lemma {:induction false} FreeTakeKeeps(s: State, p: Pid, s': State)
    requires Inv(s) && p in s.procs && ReuseStep(s, p, s') && s.procs[p].pc.FreeTake?
    ensures Inv(s') && FileStep(s, p, s', {FREE})
  {
    FreeTakeSelf(s, p, s');
    FreeTakeFiles(s, p, s');
    DropKeeps(s, p, FREE, s');
  }

  lemma {:induction false} FreeTakeSelf(s: State, p: Pid, s': State)
    requires Sized(s) && p in s.procs && ReuseStep(s, p, s') && s.procs[p].pc.FreeTake?
    requires Inv(s)
    ensures Distinct(s.lists[FREE]) && On(s, FREE, s.procs[p])
    ensures s'.f.recs.Keys == s.f.recs.Keys && s'.f.end == s.f.end && |s'.f.heads| == NHASH + 1
    ensures forall k :: 0 <= k <= NHASH && k != FREE ==> s'.f.heads[k] == s.f.heads[k]
    ensures forall o :: o in s.f.recs && o !in s.lists[FREE] ==> s'.f.recs[o] == s.f.recs[o]
    ensures Sized(s') && ListOk(View(s', FREE), FREE, s'.lists[FREE]) && ProcOk(s', p)
  {
    var q, l := s.procs[p], s.lists[FREE];
    OkProc(s, p);
    FreeListOk(s);
    assert NodeOk(s.f, l, q.i);
    LeftOut(s.f, FREE, l, q.i, s'.f);
    FreeTakeView(s, p, s');
    FreeTakeProc(s, p, s');
  }

  lemma {:induction false} FreeTakeView(s: State, p: Pid, s': State)
    requires Sized(s) && p in s.procs && ProcOk(s, p) && ReuseStep(s, p, s') && s.procs[p].pc.FreeTake? &&
      |s'.f.heads| == NHASH + 1
    requires ListOk(s'.f, FREE, Without(s.lists[FREE], s.procs[p].i))
    ensures Sized(s') && ListOk(View(s', FREE), FREE, s'.lists[FREE])
  {
    assert View(s', FREE) == s'.f;
  }

  lemma {:induction false} FreeTakeFiles(s: State, p: Pid, s': State)
    requires Inv(s) && p in s.procs && ReuseStep(s, p, s') && s.procs[p].pc.FreeTake?
    requires s'.f.recs.Keys == s.f.recs.Keys && s'.f.end == s.f.end && |s'.f.heads| == NHASH + 1
    requires forall k :: 0 <= k <= NHASH && k != FREE ==> s'.f.heads[k] == s.f.heads[k]
    requires forall o :: o in s.f.recs && o !in s.lists[FREE] ==> s'.f.recs[o] == s.f.recs[o]
    ensures FileStep(s, p, s', {FREE})
  {
    forall k | 0 <= k <= NHASH && k != FREE ensures SameList(s, s', k) { FreeTakeList(s, p, s', k); }
    forall o | o in s.loose && o in s.f.recs ensures o != s.procs[p].o && s'.f.recs[o] == s.f.recs[o] {
      ElsewhereListed(s, FREE, o);
      FreeTakeOther(s, p, o);
    }
    FreeTakeStep(s, p, s');
  }

  lemma {:induction false} FreeTakeStep(s: State, p: Pid, s': State)
    requires Sized(s) && p in s.procs && ReuseStep(s, p, s') && s.procs[p].pc.FreeTake?
    requires s'.f.recs.Keys == s.f.recs.Keys && s'.f.end == s.f.end && |s'.f.heads| == NHASH + 1
    requires forall k :: 0 <= k <= NHASH && k != FREE ==> SameList(s, s', k)
    requires forall o :: o in s.loose && o in s.f.recs ==> o != s.procs[p].o && s'.f.recs[o] == s.f.recs[o]
    ensures FileStep(s, p, s', {FREE})
  {
  }

  /** The record that is taken belonged to nobody. */
  lemma {:induction false} FreeTakeOther(s: State, p: Pid, o: nat)
    requires Inv(s) && p in s.procs && s.procs[p].pc.FreeTake? && o in s.loose
    ensures o != s.procs[p].o
  {
    var q := s.procs[p];
    assert ProcOk(s, p) && MembersOk(s, FREE) && q.o in s.lists[FREE];
    assert OnLists(s, q.o);
  }

  lemma {:induction false} FreeTakeList(s: State, p: Pid, s': State, k: nat)
    requires Inv(s) && p in s.procs && ReuseStep(s, p, s') && s.procs[p].pc.FreeTake? && 0 < k <= NHASH
    requires s'.f.recs.Keys == s.f.recs.Keys && |s'.f.heads| == NHASH + 1 && s'.f.heads[k] == s.f.heads[k]
    requires forall o :: o in s.f.recs && o !in s.lists[FREE] ==> s'.f.recs[o] == s.f.recs[o]
    ensures SameList(s, s', k)
  {
    assert MembersOk(s, k) && MembersOk(s, FREE);
  }

  lemma {:induction false} FreeTakeProc(s: State, p: Pid, s': State)
    requires Sized(s) && p in s.procs && ProcOk(s, p) && ReuseStep(s, p, s') && s.procs[p].pc.FreeTake?
    requires s.procs[p].o in s'.f.recs && |s'.f.heads| == NHASH + 1 && START <= s.procs[p].o <= PTR_MAX
    requires s'.f.heads[s.procs[p].c] == s.f.heads[s.procs[p].c]
    ensures ProcOk(s', p)
  {
    SameLocksHeld(s, p, s');
  }

  /** A loose record gets the pointer to the first record of the chain. */
  lemma {:induction false} ReuseIdxKeeps(s: State, p: Pid, s': State)
    requires Inv(s) && p in s.procs && ReuseStep(s, p, s') && s.procs[p].pc.ReuseIdx?
    ensures Inv(s') && FileStep(s, p, s', {})
  {
    var q := s.procs[p];
    OkProc(s, p);
    ReuseIdxBooks(s, p, q.o, s');
    ReuseIdxFiles(s, p, s');
    FilesKeep(s, p, s', {});
    ReuseIdxProc(s, p, s');
  }

  lemma {:induction false} ReuseIdxFiles(s: State, p: Pid, s': State)
    requires Sized(s) && p in s.procs && ReuseStep(s, p, s') && s.procs[p].pc.ReuseIdx? && s.procs[p].o in s.loose &&
      s.loose[s.procs[p].o] == p
    requires forall k :: 0 <= k <= NHASH ==> SameList(s, s', k)
    ensures FileStep(s, p, s', {})
  {
  }

  lemma {:induction false} ReuseIdxBooks(s: State, p: Pid, o: nat, s': State)
    requires Sized(s) && p in s.procs && o == s.procs[p].o && o in s.f.recs && o in s.loose && OwnsRecord(s.procs[p].pc)
    requires s' == Put(SetPtr(s, o, s.procs[p].ptrval), p, s.procs[p].(pc := Link))
    requires FilesOk(s)
    ensures forall k :: 0 <= k <= NHASH ==> MembersOk(s', k) && SameList(s, s', k)
    ensures forall x :: x in s'.f.recs ==> START <= x < s'.f.end && OnLists(s', x)
  {
    forall k | 0 <= k <= NHASH ensures MembersOk(s', k) && SameList(s, s', k) {
      assert MembersOk(s, k);
      ElsewhereListed(s, k, o);
    }
    forall x | x in s'.f.recs ensures START <= x < s'.f.end && OnLists(s', x) { assert OnLists(s, x); }
  }

  lemma {:induction false} ReuseIdxProc(s: State, p: Pid, s': State)
    requires Sized(s) && p in s.procs && ProcOk(s, p) && ReuseStep(s, p, s') && s.procs[p].pc.ReuseIdx?
    ensures ProcOk(s', p)
  {
  }

  /** The record becomes the head of its chain. */
  lemma {:induction false} LinkKeeps(s: State, p: Pid, s': State)
    requires Inv(s) && p in s.procs && ReuseStep(s, p, s') && s.procs[p].pc.Link?
    ensures Inv(s') && FileStep(s, p, s', {s.procs[p].c})
  {
    OkProc(s, p);
    WritesChain(s, p);
    ViewOfChain(s, p);
    PushKeeps(s, p, s.procs[p].c, s.procs[p].o, ChainUnlock, s');
    LinkProc(s, p, s');
  }

  /** A record is appended to the index file. */
  lemma {:induction false} IdxWriteKeeps(s: State, p: Pid, s': State)
    requires Inv(s) && p in s.procs && AppendStep(s, p, s') && s.procs[p].pc.IdxWrite?
    ensures Inv(s') && FileStep(s, p, s', {})
  {
    var q := s.procs[p];
    OkProc(s, p);
    var r: IdxRec :| r.ptr == q.ptrval && s' == Appended(s, p, r);
    IdxWriteMost(s, p, r, s');
    IdxWriteProc(s, p, r, s');
  }

  lemma {:induction false} IdxWriteMost(s: State, p: Pid, r: IdxRec, s': State)
    requires Inv(s) && p in s.procs && s.procs[p].pc.IdxWrite? && s.procs[p].o == s.f.end
    requires s' == Appended(s, p, r)
    ensures FilesOk(s') && FileStep(s, p, s', {}) && forall u :: u in s.procs && u != p ==> ProcOk(s', u)
  {
    assert s.f.end !in s.f.recs;
    IdxWriteFiles(s, p, r, s');
    IdxWriteRecords(s, p, r, s');
    FilesKeep(s, p, s', {});
  }

  lemma {:induction false} IdxWriteFiles(s: State, p: Pid, r: IdxRec, s': State)
    requires Sized(s) && p in s.procs && s.procs[p].pc.IdxWrite? && s.procs[p].o == s.f.end && s.f.end !in s.f.recs
    requires s' == Appended(s, p, r)
    ensures FileStep(s, p, s', {})
  {
  }

  lemma {:induction false} IdxWriteRecords(s: State, p: Pid, r: IdxRec, s': State)
    requires FilesOk(s) && p in s.procs && s.procs[p].pc.IdxWrite? && s.procs[p].o == s.f.end && s.f.end !in s.f.recs
    requires s' == Appended(s, p, r)
    ensures forall k :: 0 <= k <= NHASH ==> MembersOk(s', k)
    ensures forall o :: o in s'.f.recs ==> START <= o < s'.f.end && OnLists(s', o)
    ensures forall o :: o in s'.owner || o in s'.loose ==> o in s'.f.recs
  {
    forall k | 0 <= k <= NHASH ensures MembersOk(s', k) { assert MembersOk(s, k); }
    forall o | o in s'.f.recs ensures START <= o < s'.f.end && OnLists(s', o) {
      if o in s.f.recs { assert OnLists(s, o); }
      IdxWriteRecord(s, p, r, s', o);
    }
  }

  lemma {:induction false} IdxWriteRecord(s: State, p: Pid, r: IdxRec, s': State, o: nat)
    requires Sized(s) && p in s.procs && s.procs[p].pc.IdxWrite? && s.procs[p].o == s.f.end && s.f.end !in s.f.recs &&
      s.f.end !in s.owner
    requires s' == Appended(s, p, r)
    requires o == s.f.end || (o in s.f.recs && OnLists(s, o))
    ensures OnLists(s', o)
  {
  }

  lemma {:induction false} IdxWriteProc(s: State, p: Pid, r: IdxRec, s': State)
    requires Sized(s) && START <= s.f.end && p in s.procs && ProcOk(s, p) && s.procs[p].pc.IdxWrite?
    requires r.ptr == s.procs[p].ptrval && s' == Appended(s, p, r)
    ensures ProcOk(s', p)
  {
    SameLocksHeld(s, p, s');
  }

  // ----- Reading -----

  /** The same locks are held at both places. */
  predicate SameClass(q: Proc, q': Proc) {
    q'.op == q.op && q'.c == q.c && (ChainHeld(q.pc) <==> ChainHeld(q'.pc)) && (FreeHeld(q.pc) <==> FreeHeld(q'.pc)) &&
    (IdxHeld(q.pc) <==> IdxHeld(q'.pc)) && (q.pc.DatUnlock? <==> q'.pc.DatUnlock?) &&
    (q.pc.NextRead? || q.pc.NextUnlock? <==> q'.pc.NextRead? || q'.pc.NextUnlock?)
  }

  predicate FreeOfLocks(pc: Pc) {
    pc.Idle? || pc.FindWait? || pc.NextWait?
  }

  lemma {:induction false} SameLocksHeld(s: State, p: Pid, s': State)
    requires |s.locks| == LOCKS && s'.locks == s.locks && p in s.procs && p in s'.procs && LocksOk(s, p)
    requires SameClass(s.procs[p], s'.procs[p]) || (FreeOfLocks(s.procs[p].pc) && FreeOfLocks(s'.procs[p].pc))
    ensures LocksOk(s', p)
  {
    forall k | 0 <= k < LOCKS
      ensures Writes(s'.procs[p], k) == Writes(s.procs[p], k) && Reads(s'.procs[p], k) == Reads(s.procs[p], k)
    {
    }
  }

  lemma {:induction false} LocalLocks(s: State, p: Pid, q: Proc, s': State)
    requires Sized(s) && p in s.procs && LocksOk(s, p) && SameClass(s.procs[p], q) && s' == Put(s, p, q)
    ensures LocksOk(s', p)
  {
    SameLocksHeld(s, p, s');
  }

  lemma {:induction false} HeadProc(s: State, p: Pid, s': State)
    requires Sized(s) && p in s.procs && ProcOk(s, p) && FindStep(s, p, s') && s.procs[p].pc.FindHead?
    requires ListOk(s.f, s.procs[p].c, s.lists[s.procs[p].c])
    ensures ProcOk(s', p) && s' == Put(s, p, s'.procs[p]) && p in s'.procs && !Pending(s'.procs[p].pc)
  {
    LocalLocks(s, p, s'.procs[p], s');
  }

  lemma {:induction false} LookProc(s: State, p: Pid, s': State)
    requires Sized(s) && p in s.procs && ProcOk(s, p) && FindStep(s, p, s') && s.procs[p].pc.FindTest?
    requires ListOk(s.f, s.procs[p].c, s.lists[s.procs[p].c])
    ensures p in s'.procs && s' == Put(s, p, s'.procs[p]) && ProcOk(s', p) && !Pending(s'.procs[p].pc)
  {
    var q := s.procs[p];
    LookLocks(s, p, s');
    if q.offset != 0 { assert NodeOk(s.f, s.lists[q.c], q.i); }
    LookPlace(s, p, s');
  }

  lemma {:induction false} LookLocks(s: State, p: Pid, s': State)
    requires Sized(s) && p in s.procs && LocksOk(s, p) && FindStep(s, p, s') && s.procs[p].pc.FindTest?
    ensures p in s'.procs && s' == Put(s, p, s'.procs[p]) && LocksOk(s', p) && !Pending(s'.procs[p].pc)
  {
    LocalLocks(s, p, s'.procs[p], s');
  }

  lemma {:induction false} LookPlace(s: State, p: Pid, s': State)
    requires Sized(s) && p in s.procs && PlaceOk(s, p) && FindStep(s, p, s') && s.procs[p].pc.FindTest?
    requires s.procs[p].offset != 0 ==>
      s.procs[p].i < |s.lists[s.procs[p].c]| && NodeOk(s.f, s.lists[s.procs[p].c], s.procs[p].i)
    ensures p in s'.procs && Sized(s') && PlaceOk(s', p)
  {
    InChain(s', p);
  }

  lemma {:induction false} InChain(s: State, p: Pid)
    requires Sized(s) && p in s.procs && 1 <= s.procs[p].c <= NHASH
    requires var q := s.procs[p];
      q.pc.ChainUnlock? || (q.pc.NewRead? && q.op != Fetch) || (q.pc.FindTest? && At3(s, q.c, q)) ||
      (q.pc.DelWait? && q.op != Fetch && On(s, q.c, q) && q.o in s.f.recs && q.ptrval == s.f.recs[q.o].ptr)
    ensures PlaceOk(s, p)
  {
  }

  lemma {:induction false} LookKeeps(s: State, p: Pid, s': State)
    requires Inv(s) && p in s.procs && FindStep(s, p, s') && (s.procs[p].pc.FindHead? || s.procs[p].pc.FindTest?)
    ensures Inv(s')
  {
    OkProc(s, p);
    ViewOfChain(s, p);
    if s.procs[p].pc.FindHead? { HeadProc(s, p, s'); } else { LookProc(s, p, s'); }
    LocalKeeps(s, p, s'.procs[p], s');
  }

  lemma {:induction false} FreeHeadProc(s: State, p: Pid, s': State)
    requires Sized(s) && p in s.procs && ProcOk(s, p) && ReuseStep(s, p, s') && s.procs[p].pc.FreeHead?
    requires ListOk(s.f, FREE, s.lists[FREE])
    ensures ProcOk(s', p) && s' == Put(s, p, s'.procs[p]) && p in s'.procs && !Pending(s'.procs[p].pc)
  {
    LocalLocks(s, p, s'.procs[p], s');
  }

  lemma {:induction false} FreeTestProc(s: State, p: Pid, s': State)
    requires Sized(s) && p in s.procs && ProcOk(s, p) && ReuseStep(s, p, s') && s.procs[p].pc.FreeTest?
    requires ListOk(s.f, FREE, s.lists[FREE])
    ensures ProcOk(s', p) && s' == Put(s, p, s'.procs[p]) && p in s'.procs && !Pending(s'.procs[p].pc)
  {
    var q := s.procs[p];
    FreeTestLocks(s, p, s');
    if q.offset != 0 { assert NodeOk(s.f, s.lists[FREE], q.i); }
    FreeTestPlace(s, p, s');
  }

  lemma {:induction false} FreeTestLocks(s: State, p: Pid, s': State)
    requires Sized(s) && p in s.procs && LocksOk(s, p) && ReuseStep(s, p, s') && s.procs[p].pc.FreeTest?
    ensures p in s'.procs && s' == Put(s, p, s'.procs[p]) && LocksOk(s', p) && !Pending(s'.procs[p].pc)
  {
    LocalLocks(s, p, s'.procs[p], s');
  }

  lemma {:induction false} FreeTestPlace(s: State, p: Pid, s': State)
    requires Sized(s) && p in s.procs && PlaceOk(s, p) && ReuseStep(s, p, s') && s.procs[p].pc.FreeTest?
    requires s.procs[p].offset != 0 ==> s.procs[p].i < |s.lists[FREE]| && NodeOk(s.f, s.lists[FREE], s.procs[p].i)
    ensures p in s'.procs && Sized(s') && PlaceOk(s', p)
  {
    InFreeList(s', p);
  }

  lemma {:induction false} InFreeList(s: State, p: Pid)
    requires Sized(s) && p in s.procs && 1 <= s.procs[p].c <= NHASH
    requires var q := s.procs[p];
      q.op != Fetch && q.ptrval == s.f.heads[q.c] &&
      (q.pc.NoneUnlock? || (q.pc.FreeTest? && At3(s, FREE, q)) ||
       (q.pc.FreeTake? && On(s, FREE, q) && q.o in s.f.recs && q.freeptr == s.f.recs[q.o].ptr))
    ensures PlaceOk(s, p)
  {
  }

  lemma {:induction false} FreeLookKeeps(s: State, p: Pid, s': State)
    requires Inv(s) && p in s.procs && ReuseStep(s, p, s') && (s.procs[p].pc.FreeHead? || s.procs[p].pc.FreeTest?)
    ensures Inv(s')
  {
    FreeLookOk(s, p, s');
    LocalKeeps(s, p, s'.procs[p], s');
  }

  lemma {:induction false} FreeLookOk(s: State, p: Pid, s': State)
    requires Inv(s) && p in s.procs && ReuseStep(s, p, s') && (s.procs[p].pc.FreeHead? || s.procs[p].pc.FreeTest?)
    ensures Sized(s') && p in s'.procs && ProcOk(s', p) && s' == Put(s, p, s'.procs[p]) && !Pending(s'.procs[p].pc)
  {
    FreeListOk(s);
    OkProc(s, p);
    if s.procs[p].pc.FreeHead? { FreeHeadProc(s, p, s'); } else { FreeTestProc(s, p, s'); }
  }

  lemma {:induction false} PlainProc(s: State, p: Pid, q: Proc, s': State)
    requires Sized(s) && p in s.procs && ProcOk(s, p) && s' == Put(s, p, q) && PlainStep(s, s.procs[p], q)
    ensures ProcOk(s', p)
  {
    LocalLocks(s, p, q, s');
  }

  /** Reading a pointer or a position that the next step needs. */
  predicate PlainStep(s: State, was: Proc, q: Proc) {
    (was.pc.DelFree? && q == was.(pc := DelIdx, freeptr := HeadOf(s, FREE))) ||
    (was.pc.NewRead? && q == was.(pc := if was.op == Replace then DatWait else FreeWait, ptrval := HeadOf(s, was.c))) ||
    (was.pc.IdxSeek? && q == was.(pc := IdxWrite, o := s.f.end)) || (was.pc.NextRead? && q == was.(pc := NextUnlock))
  }

  lemma {:induction false} PlainKeeps(s: State, p: Pid, q: Proc, s': State)
    requires Inv(s) && p in s.procs && s' == Put(s, p, q) && PlainStep(s, s.procs[p], q)
    ensures Inv(s')
  {
    OkProc(s, p);
    PlainProc(s, p, q, s');
    LocalKeeps(s, p, q, s');
  }

  lemma {:induction false} CallProc(s: State, p: Pid, q: Proc, s': State)
    requires Sized(s) && p in s.procs && ProcOk(s, p) && s.procs[p].pc.Idle? && s' == Put(s, p, q)
    requires (q.pc.FindWait? && 1 <= q.c <= NHASH) || q.pc.NextWait?
    ensures ProcOk(s', p)
  {
    SameLocksHeld(s, p, s');
  }

  lemma {:induction false} CallKeeps(s: State, p: Pid, s': State)
    requires Inv(s) && p in s.procs && CallStep(s, p, s')
    ensures Inv(s')
  {
    CallForm(s, p, s');
    OkProc(s, p);
    CallProc(s, p, s'.procs[p], s');
    LocalKeeps(s, p, s'.procs[p], s');
  }

  lemma {:induction false} CallForm(s: State, p: Pid, s': State)
    requires p in s.procs && CallStep(s, p, s')
    ensures p in s'.procs && s' == Put(s, p, s'.procs[p])
    ensures (s'.procs[p].pc.FindWait? && 1 <= s'.procs[p].c <= NHASH) || s'.procs[p].pc.NextWait?
  {
  }

  // ----- Locks taken and given back -----

  predicate LockAt(q: Proc, k: nat, write: bool, pc: Pc) {
    (q.pc.FindWait? && k == q.c && write == (q.op != Fetch) && pc.FindHead?) ||
    (q.pc.DelWait? && k == FREE && write && pc.DelFree?) || (q.pc.FreeWait? && k == FREE && write && pc.FreeHead?) ||
    (q.pc.DatWait? && k == DAT && write && pc.DatUnlock?) || (q.pc.IdxWait? && k == IDX && write && pc.IdxSeek?) ||
    (q.pc.NextWait? && k == FREE && !write && pc.NextRead?)
  }

  predicate UnlockAt(q: Proc, k: nat, pc: Pc) {
    ((q.pc.ChainUnlock? || q.pc.IdxWait?) && k == q.c && pc.Idle?) ||
    (q.pc.DelUnlock? && k == FREE && (pc.ChainUnlock? || pc.NewRead?)) ||
    (q.pc.TakenUnlock? && k == FREE && pc.ReuseIdx?) || (q.pc.NoneUnlock? && k == FREE && pc.DatWait?) ||
    (q.pc.DatUnlock? && k == DAT && pc.IdxWait?) || (q.pc.IdxUnlock? && k == IDX && pc.Link?) ||
      (q.pc.NextUnlock? && k == FREE && pc.Idle?)
  }

  lemma {:induction false} LockProc(s: State, p: Pid, k: nat, write: bool, pc: Pc, s': State)
    requires Sized(s) && p in s.procs && ProcOk(s, p) && LockStep(s, p, k, write, pc, s') &&
      LockAt(s.procs[p], k, write, pc)
    ensures ProcOk(s', p)
  {
    LockLocks(s, p, k, write, pc, s');
  }

  lemma {:induction false} LockKind(q: Proc, k: nat, write: bool, pc: Pc)
    requires LockAt(q, k, write, pc)
    ensures !Pending(q.pc) && !Pending(pc) && !OwnsRecord(q.pc)
  {
  }

  lemma {:induction false} LockLocks(s: State, p: Pid, k: nat, write: bool, pc: Pc, s': State)
    requires Sized(s) && p in s.procs && LocksOk(s, p) && LockStep(s, p, k, write, pc, s') &&
      LockAt(s.procs[p], k, write, pc)
    requires ChainHeld(s.procs[p].pc) || s.procs[p].pc.FindWait? ==> 1 <= s.procs[p].c <= NHASH
    ensures LocksOk(s', p)
  {
    forall j | 0 <= j < LOCKS
      ensures (s'.locks[j].writer == By(p) <==> Writes(s'.procs[p], j)) &&
        (p in s'.locks[j].readers <==> Reads(s'.procs[p], j))
    {
      TakenHold(s.procs[p], k, write, pc, j);
    }
  }

  /** The place behind a lock call holds what was held and the new lock. */
  lemma {:induction false} TakenHold(q: Proc, k: nat, write: bool, pc: Pc, j: nat)
    requires LockAt(q, k, write, pc) && (ChainHeld(q.pc) || q.pc.FindWait? ==> 1 <= q.c <= NHASH)
    ensures Writes(q.(pc := pc), j) <==> Writes(q, j) || (j == k && write)
    ensures Reads(q.(pc := pc), j) <==> Reads(q, j) || (j == k && !write)
    ensures !Writes(q, k) && !Reads(q, k)
  {
  }

  lemma {:induction false} TakeKeeps(s: State, p: Pid, k: nat, write: bool, pc: Pc, s': State)
    requires Inv(s) && p in s.procs && LockStep(s, p, k, write, pc, s') && LockAt(s.procs[p], k, write, pc)
    ensures Inv(s')
  {
    OkProc(s, p);
    LockProc(s, p, k, write, pc, s');
    LockKind(s.procs[p], k, write, pc);
    TakeMost(s, p, k, write, pc, s');
  }

  lemma {:induction false} TakeMost(s: State, p: Pid, k: nat, write: bool, pc: Pc, s': State)
    requires Inv(s) && p in s.procs && k < LOCKS && LockStep(s, p, k, write, pc, s')
    requires !Pending(s.procs[p].pc) && !Pending(pc) && !OwnsRecord(s.procs[p].pc)
    ensures FilesOk(s') && forall u :: u in s.procs && u != p ==> ProcOk(s', u)
  {
    assert LockOk(s.locks[k], s);
    AcquiredLock(s, p, k, write, s'.locks[k]);
    LocksKeep(s, p, k, s'.locks[k], s'.procs[p], s');
  }

  lemma {:induction false} AcquiredLock(s: State, p: Pid, k: nat, write: bool, l: Lock)
    requires k < |s.locks| && LockOk(s.locks[k], s) && p in s.procs && (if write then CanWrite(s, k) else CanRead(s, k))
    requires l == if write then Lock({}, By(p)) else Lock(s.locks[k].readers + {p}, NoOne)
    ensures LockOk(l, s)
    ensures forall u :: u in s.procs && u != p ==> SameFor(s.locks[k], l, u)
  {
  }

  lemma {:induction false} UnlockProc(s: State, p: Pid, k: nat, pc: Pc, s': State)
    requires Sized(s) && p in s.procs && ProcOk(s, p) && k < LOCKS && UnlockStep(s, p, k, pc, s') &&
      UnlockAt(s.procs[p], k, pc)
    ensures ProcOk(s', p)
  {
    UnlockLocks(s, p, k, pc, s');
  }

  lemma {:induction false} UnlockKind(q: Proc, k: nat, pc: Pc)
    requires UnlockAt(q, k, pc)
    ensures !Pending(q.pc) && !Pending(pc) && (OwnsRecord(q.pc) ==> OwnsRecord(pc))
  {
  }

  lemma {:induction false} UnlockLocks(s: State, p: Pid, k: nat, pc: Pc, s': State)
    requires Sized(s) && p in s.procs && LocksOk(s, p) && k < LOCKS && UnlockStep(s, p, k, pc, s') &&
      UnlockAt(s.procs[p], k, pc)
    requires ChainHeld(s.procs[p].pc) ==> 1 <= s.procs[p].c <= NHASH
    ensures LocksOk(s', p)
  {
    forall j | 0 <= j < LOCKS
      ensures (s'.locks[j].writer == By(p) <==> Writes(s'.procs[p], j)) &&
        (p in s'.locks[j].readers <==> Reads(s'.procs[p], j))
    {
      GivenHold(s.procs[p], k, pc, j);
    }
  }

  /** The place behind an unlock call holds what was held but for the lock given back. */
  lemma {:induction false} GivenHold(q: Proc, k: nat, pc: Pc, j: nat)
    requires UnlockAt(q, k, pc) && (ChainHeld(q.pc) ==> 1 <= q.c <= NHASH)
    ensures Writes(q.(pc := pc), j) <==> Writes(q, j) && j != k
    ensures Reads(q.(pc := pc), j) <==> Reads(q, j) && j != k
  {
  }

  lemma {:induction false} GiveKeeps(s: State, p: Pid, k: nat, pc: Pc, s': State)
    requires Inv(s) && p in s.procs && k < LOCKS && UnlockStep(s, p, k, pc, s') && UnlockAt(s.procs[p], k, pc)
    ensures Inv(s')
  {
    OkProc(s, p);
    UnlockProc(s, p, k, pc, s');
    UnlockKind(s.procs[p], k, pc);
    GiveMost(s, p, k, pc, s');
  }

  lemma {:induction false} GiveMost(s: State, p: Pid, k: nat, pc: Pc, s': State)
    requires Inv(s) && p in s.procs && k < LOCKS && UnlockStep(s, p, k, pc, s')
    requires !Pending(s.procs[p].pc) && !Pending(pc) && (OwnsRecord(s.procs[p].pc) ==> OwnsRecord(pc))
    ensures FilesOk(s') && forall u :: u in s.procs && u != p ==> ProcOk(s', u)
  {
    assert LockOk(s.locks[k], s);
    ReleasedLock(s, p, k, s'.locks[k]);
    LocksKeep(s, p, k, s'.locks[k], s'.procs[p], s');
  }

  lemma {:induction false} ReleasedLock(s: State, p: Pid, k: nat, l: Lock)
    requires k < |s.locks| && LockOk(s.locks[k], s)
    requires l == Lock(s.locks[k].readers - {p}, if s.locks[k].writer == By(p) then NoOne else s.locks[k].writer)
    ensures LockOk(l, s)
    ensures forall u :: u in s.procs && u != p ==> SameFor(s.locks[k], l, u)
  {
  }

  // ----- Every step keeps the invariant -----

  lemma {:induction false} FindStepKeeps(s: State, p: Pid, s': State)
    requires Inv(s) && p in s.procs && FindStep(s, p, s')
    ensures Inv(s')
  {
    var q := s.procs[p];
    match q.pc
    case FindWait => TakeKeeps(s, p, q.c, q.op != Fetch, FindHead, s');
    case FindHead => LookKeeps(s, p, s');
    case FindTest => LookKeeps(s, p, s');
    case ChainUnlock =>
      OkProc(s, p);
      GiveKeeps(s, p, q.c, Idle, s');
    case _ =>
  }

  lemma {:induction false} DeleteStepKeeps(s: State, p: Pid, s': State)
    requires Inv(s) && p in s.procs && DeleteStep(s, p, s')
    ensures Inv(s')
  {
    var q := s.procs[p];
    match q.pc
    case DelWait => TakeKeeps(s, p, FREE, true, DelFree, s');
    case DelFree => PlainKeeps(s, p, s'.procs[p], s');
    case DelIdx => DelIdxKeeps(s, p, s');
    case DelHead => DelHeadKeeps(s, p, s');
    case DelPtr => DelPtrKeeps(s, p, s');
    case DelUnlock => GiveKeeps(s, p, FREE, if q.op == Delete then ChainUnlock else NewRead, s');
    case _ =>
  }

  lemma {:induction false} ReuseStepKeeps(s: State, p: Pid, s': State)
    requires Inv(s) && p in s.procs && ReuseStep(s, p, s')
    ensures Inv(s')
  {
    match s.procs[p].pc
    case NewRead => PlainKeeps(s, p, s'.procs[p], s');
    case FreeWait => TakeKeeps(s, p, FREE, true, FreeHead, s');
    case FreeHead => FreeLookKeeps(s, p, s');
    case FreeTest => FreeLookKeeps(s, p, s');
    case FreeTake => FreeTakeKeeps(s, p, s');
    case TakenUnlock => GiveKeeps(s, p, FREE, ReuseIdx, s');
    case NoneUnlock => GiveKeeps(s, p, FREE, DatWait, s');
    case ReuseIdx => ReuseIdxKeeps(s, p, s');
    case Link => LinkKeeps(s, p, s');
    case _ =>
  }

  lemma {:induction false} AppendStepKeeps(s: State, p: Pid, s': State)
    requires Inv(s) && p in s.procs && AppendStep(s, p, s')
    ensures Inv(s')
  {
    match s.procs[p].pc
    case DatWait => TakeKeeps(s, p, DAT, true, DatUnlock, s');
    case DatUnlock => GiveKeeps(s, p, DAT, IdxWait, s');
    case IdxWait => TakeKeeps(s, p, IDX, true, IdxSeek, s');
    case IdxSeek => PlainKeeps(s, p, s'.procs[p], s');
    case IdxWrite => IdxWriteKeeps(s, p, s');
    case IdxUnlock => GiveKeeps(s, p, IDX, Link, s');
    case _ =>
  }

  lemma {:induction false} NextStepKeeps(s: State, p: Pid, s': State)
    requires Inv(s) && p in s.procs && NextStep(s, p, s')
    ensures Inv(s')
  {
    match s.procs[p].pc
    case NextWait => TakeKeeps(s, p, FREE, false, NextRead, s');
    case NextRead => PlainKeeps(s, p, s'.procs[p], s');
    case NextUnlock => GiveKeeps(s, p, FREE, Idle, s');
    case _ =>
  }

  /** The record that no pointer can lead to is left to nobody. */
  lemma {:induction false} AbandonKeeps(s: State, p: Pid, s': State)
    requires Inv(s) && p in s.procs && s.procs[p].pc.Link? && s.procs[p].o > PTR_MAX && s' == Abandon(s, p)
    ensures Inv(s')
  {
    OkProc(s, p);
    AbandonRecords(s, p, s');
    AbandonFiles(s, p, s');
    FilesKeep(s, p, s', {});
    AbandonProc(s, p, s');
  }

  lemma {:induction false} AbandonRecords(s: State, p: Pid, s': State)
    requires FilesOk(s) && p in s.procs && s.procs[p].pc.Link? && s.procs[p].o > PTR_MAX && s' == Abandon(s, p)
    ensures forall k :: 0 <= k <= NHASH ==> MembersOk(s', k)
    ensures forall o :: o in s'.f.recs ==> START <= o < s'.f.end && OnLists(s', o)
  {
    forall k | 0 <= k <= NHASH ensures MembersOk(s', k) { assert MembersOk(s, k); }
    forall o | o in s'.f.recs ensures START <= o < s'.f.end && OnLists(s', o) { assert OnLists(s, o); }
  }

  lemma {:induction false} AbandonFiles(s: State, p: Pid, s': State)
    requires Sized(s) && p in s.procs && ProcOk(s, p) && s.procs[p].pc.Link? && s' == Abandon(s, p)
    ensures FileStep(s, p, s', {})
  {
  }

  lemma {:induction false} AbandonProc(s: State, p: Pid, s': State)
    requires Sized(s) && p in s.procs && ProcOk(s, p) && s.procs[p].pc.Link? && s' == Abandon(s, p)
    ensures ProcOk(s', p)
  {
    SameLocksHeld(s, p, s');
  }

  lemma {:induction false} QuitStepKeeps(s: State, p: Pid, s': State)
    requires Inv(s) && p in s.procs && QuitStep(s, p, s')
    ensures Inv(s')
  {
    var c := s.procs[p].c;
    ChainInRange(s, p);
    if s.procs[p].pc.IdxWait? {
      GiveKeeps(s, p, c, Idle, s');
    } else {
      var s1 := Abandon(s, p);
      AbandonKeeps(s, p, s1);
      GiveKeeps(s1, p, c, Idle, s');
    }
  }

  lemma {:induction false} ChainInRange(s: State, p: Pid)
    requires Inv(s) && p in s.procs && (s.procs[p].pc.IdxWait? || s.procs[p].pc.Link?)
    ensures 1 <= s.procs[p].c <= NHASH
  {
    OkProc(s, p);
  }

  lemma {:induction false} StepKeeps(s: State, p: Pid, s': State)
    requires Inv(s) && Step(s, p, s')
    ensures Inv(s')
  {
    if FindStep(s, p, s') { FindStepKeeps(s, p, s'); }
    else if DeleteStep(s, p, s') { DeleteStepKeeps(s, p, s'); }
    else if ReuseStep(s, p, s') { ReuseStepKeeps(s, p, s'); }
    else if AppendStep(s, p, s') { AppendStepKeeps(s, p, s'); }
    else if NextStep(s, p, s') { NextStepKeeps(s, p, s'); }
    else if CallStep(s, p, s') { CallKeeps(s, p, s'); }
    else { QuitStepKeeps(s, p, s'); }
  }

  // ----- Every run -----

  ghost predicate Initial(s: State) {
    Sized(s) && s.f.end == START && s.f.recs == map[] && s.owner == map[] && s.loose == map[] &&
    (forall k :: 0 <= k <= NHASH ==> s.f.heads[k] == 0 && s.lists[k] == []) &&
    (forall k :: 0 <= k < LOCKS ==> s.locks[k] == Lock({}, NoOne)) && forall p :: p in s.procs ==> s.procs[p].pc.Idle?
  }

  ghost predicate Run(states: seq<State>) {
    states != [] && Initial(states[0]) && forall i :: 0 <= i < |states| - 1 ==> SomeStep(states[i], states[i + 1])
  }

  ghost predicate SomeStep(s: State, s': State) {
    exists p :: Step(s, p, s')
  }

  lemma {:induction false} AlwaysInv(states: seq<State>, i: nat)
    requires Run(states) && i < |states|
    ensures Inv(states[i])
  {
    if i > 0 {
      AlwaysInv(states, i - 1);
      assert SomeStep(states[i - 1], states[i]);
      var p :| Step(states[i - 1], p, states[i]);
      StepKeeps(states[i - 1], p, states[i]);
    } else {
      InitialInv(states[0]);
    }
  }

  lemma {:induction false} InitialInv(s: State)
    requires Initial(s)
    ensures Inv(s)
  {
    forall p | p in s.procs ensures ProcOk(s, p) {
      forall k | 0 <= k < LOCKS ensures !Writes(s.procs[p], k) && !Reads(s.procs[p], k) {}
    }
  }

  /** The steps that write the index file. */
  predicate WritesFile(pc: Pc) {
    pc.DelIdx? || pc.DelHead? || pc.DelPtr? || pc.FreeTake? || pc.ReuseIdx? || pc.Link? || pc.IdxWrite?
  }

  lemma {:induction false} WhatIsTouched(s: State, p: Pid, s': State) returns (touched: set<nat>)
    requires Inv(s) && Step(s, p, s') && WritesFile(s.procs[p].pc) && !QuitStep(s, p, s')
    ensures FileStep(s, p, s', touched)
  {
    match s.procs[p].pc
    case DelIdx => DelIdxKeeps(s, p, s'); touched := {s.procs[p].c};
    case DelHead => DelHeadKeeps(s, p, s'); touched := {FREE};
    case DelPtr => DelPtrKeeps(s, p, s'); touched := {s.procs[p].c};
    case FreeTake => FreeTakeKeeps(s, p, s'); touched := {FREE};
    case ReuseIdx => ReuseIdxKeeps(s, p, s'); touched := {};
    case Link => LinkKeeps(s, p, s'); touched := {s.procs[p].c};
    case IdxWrite => IdxWriteKeeps(s, p, s'); touched := {};
  }

  lemma {:induction false} OthersOnlyRead(s: State, p: Pid, s': State)
    requires Step(s, p, s') && (!WritesFile(s.procs[p].pc) || QuitStep(s, p, s'))
    ensures s'.f == s.f && s'.lists == s.lists
  {
    if QuitStep(s, p, s') { QuitOnlyReads(s, p, s'); }
    else if FindStep(s, p, s') { FindOnlyReads(s, p, s'); }
    else if DeleteStep(s, p, s') { DeleteOnlyReads(s, p, s'); }
    else if ReuseStep(s, p, s') { ReuseOnlyReads(s, p, s'); }
    else if AppendStep(s, p, s') { AppendOnlyReads(s, p, s'); }
  }

  lemma {:induction false} QuitOnlyReads(s: State, p: Pid, s': State)
    requires p in s.procs && QuitStep(s, p, s')
    ensures s'.f == s.f && s'.lists == s.lists
  {
  }

  lemma {:induction false} FindOnlyReads(s: State, p: Pid, s': State)
    requires p in s.procs && FindStep(s, p, s')
    ensures s'.f == s.f && s'.lists == s.lists
  {
  }

  lemma {:induction false} DeleteOnlyReads(s: State, p: Pid, s': State)
    requires p in s.procs && DeleteStep(s, p, s') && !WritesFile(s.procs[p].pc)
    ensures s'.f == s.f && s'.lists == s.lists
  {
  }

  lemma {:induction false} ReuseOnlyReads(s: State, p: Pid, s': State)
    requires p in s.procs && ReuseStep(s, p, s') && !WritesFile(s.procs[p].pc)
    ensures s'.f == s.f && s'.lists == s.lists
  {
  }

  lemma {:induction false} AppendOnlyReads(s: State, p: Pid, s': State)
    requires p in s.procs && AppendStep(s, p, s') && !WritesFile(s.procs[p].pc)
    ensures s'.f == s.f && s'.lists == s.lists
  {
  }

  /** While a process has the lock of a list, no step of another process changes the list or any pointer in it. */
  lemma {:induction false} WalkUndisturbed(states: seq<State>, n: nat, p: Pid, u: Pid, k: nat)
    requires Run(states) && n + 1 < |states| && Step(states[n], p, states[n + 1]) && u in states[n].procs && u != p
    requires k <= NHASH && Holds(states[n].procs[u], k)
    ensures Sized(states[n]) && Sized(states[n + 1]) && SameList(states[n], states[n + 1], k)
  {
    var s, s' := states[n], states[n + 1];
    AlwaysInv(states, n);
    AlwaysInv(states, n + 1);
    if WritesFile(s.procs[p].pc) && !QuitStep(s, p, s') {
      var touched := WhatIsTouched(s, p, s');
      if k in touched { Exclusive(s, p, u, k); }
    } else {
      OthersOnlyRead(s, p, s');
    }
  }

  /** Every record is on exactly one list, or belongs to exactly one process that is about to link it, or belongs to
      nobody; then its offset fits no pointer, and the process that wrote it has ended. */
  lemma {:induction false} OneHome(states: seq<State>, n: nat, o: nat)
    requires Run(states) && n < |states| && o in states[n].f.recs
    ensures var s := states[n];
      Sized(s) &&
      if o in s.owner then
        o !in s.loose && forall k :: 0 <= k <= NHASH ==> (o in s.lists[k] <==> k == s.owner[o])
      else
        (forall k :: 0 <= k <= NHASH ==> o !in s.lists[k]) && (o !in s.loose ==> o > PTR_MAX) &&
        forall p :: p in s.procs && OwnsRecord(s.procs[p].pc) && s.procs[p].o == o <==> o in s.loose && p == s.loose[o]
  {
    var s := states[n];
    AlwaysInv(states, n);
    assert OnLists(s, o);
    forall k | 0 <= k <= NHASH ensures o in s.lists[k] ==> o in s.owner && s.owner[o] == k { assert MembersOk(s, k); }
    forall p | p in s.procs && OwnsRecord(s.procs[p].pc) && s.procs[p].o == o ensures o in s.loose && s.loose[o] == p {
      assert ProcOk(s, p);
    }
  }

  // ----- No cycle of waits -----

  /** The lock a process waits for. */
  function Awaited(q: Proc): (k: int) {
    match q.pc
    case FindWait => q.c
    case DelWait => FREE
    case FreeWait => FREE
    case NextWait => FREE
    case DatWait => DAT
    case IdxWait => IDX
    case _ => -1
  }

  ghost predicate Blocked(s: State, p: Pid)
    requires p in s.procs && Sized(s)
  {
    var k := Awaited(s.procs[p]);
    0 <= k < LOCKS && !(if s.procs[p].pc.NextWait? ||
      (s.procs[p].pc.FindWait? && s.procs[p].op == Fetch) then CanRead(s, k) else CanWrite(s, k))
  }

  /** Nothing is awaited while the free-list lock or an append lock is held; a chain is awaited only with empty
      hands. */
  lemma {:induction false} AwaitedFreely(q: Proc, k: nat)
    requires Holds(q, k) && (k == FREE || k == DAT || k == IDX) && (ChainHeld(q.pc) ==> 1 <= q.c <= NHASH)
    ensures Awaited(q) == -1
  {
  }

  lemma {:induction false} EmptyHands(q: Proc, k: nat)
    requires q.pc.FindWait? || q.pc.NextWait?
    ensures !Holds(q, k)
  {
  }

  /** Somebody has the lock for which p waits. */
  lemma {:induction false} Holder(s: State, p: Pid) returns (u: Pid)
    requires Inv(s) && p in s.procs && Blocked(s, p)
    ensures u in s.procs && Holds(s.procs[u], Awaited(s.procs[p])) && !s.procs[u].pc.Idle?
  {
    var k := Awaited(s.procs[p]);
    var l := s.locks[k];
    assert LockOk(l, s);
    if l.writer != NoOne {
      u := l.writer.pid;
    } else {
      assert l.readers != {};
      u :| u in l.readers;
    }
    assert ProcOk(s, u);
  }

  /** Whenever some process is inside the library, one such process is not blocked. */
  lemma {:induction false} SomeoneMoves(s: State, p: Pid) returns (u: Pid)
    requires Inv(s) && p in s.procs && !s.procs[p].pc.Idle?
    ensures u in s.procs && !s.procs[u].pc.Idle? && !Blocked(s, u)
  {
    u := p;
    if Blocked(s, u) { u := NextHolder(s, u); }
    if Blocked(s, u) { u := NextHolder(s, u); }
  }

  lemma {:induction false} NextHolder(s: State, p: Pid) returns (u: Pid)
    requires Inv(s) && p in s.procs && Blocked(s, p)
    ensures u in s.procs && !s.procs[u].pc.Idle? && !s.procs[u].pc.FindWait? && !s.procs[u].pc.NextWait?
    ensures !s.procs[p].pc.FindWait? ==> !Blocked(s, u)
  {
    u := Holder(s, p);
    var q, k := s.procs[u], Awaited(s.procs[p]);
    assert ProcOk(s, u) && ProcOk(s, p);
    if q.pc.FindWait? || q.pc.NextWait? { EmptyHands(q, k); }
    if !s.procs[p].pc.FindWait? { AwaitedFreely(q, k); }
  }

  /** A step that goes on with the call, or the end of a process whose record no pointer can lead to. */
  ghost predicate Advances(s: State, p: Pid, s': State) {
    Step(s, p, s') && (QuitStep(s, p, s') ==> s.procs[p].pc.Link?)
  }

  /** A process that is not blocked has a next step, and every pointer it follows is valid. The step is no end of the
      process, unless its record is where no pointer leads. */
  lemma {:induction false} Moves(s: State, p: Pid) returns (s': State)
    requires Inv(s) && p in s.procs && !s.procs[p].pc.Idle? && !Blocked(s, p)
    ensures Advances(s, p, s')
  {
    var q := s.procs[p];
    OkProc(s, p);
    if Awaited(q) >= 0 {
      s' := LockMoves(s, p);
    } else if q.pc.FindHead? || q.pc.FindTest? || q.pc.ChainUnlock? {
      if q.pc.FindTest? { ViewOfChain(s, p); }
      s' := FindMoves(s, p);
    } else if q.pc.FreeHead? || q.pc.FreeTest? || q.pc.FreeTake? {
      FreeListOk(s);
      s' := FreeMoves(s, p);
    } else {
      s' := OtherMoves(s, p);
    }
  }

  lemma {:induction false} LockMoves(s: State, p: Pid) returns (s': State)
    requires Sized(s) && p in s.procs && ProcOk(s, p) && !Blocked(s, p) && Awaited(s.procs[p]) >= 0
    ensures Advances(s, p, s')
  {
    var q := s.procs[p];
    match q.pc
    case FindWait => s' := Put(Acquire(s, p, q.c, q.op != Fetch), p, q.(pc := FindHead)); assert FindStep(s, p, s');
    case DelWait => s' := Put(Acquire(s, p, FREE, true), p, q.(pc := DelFree)); assert DeleteStep(s, p, s');
    case FreeWait => s' := Put(Acquire(s, p, FREE, true), p, q.(pc := FreeHead)); assert ReuseStep(s, p, s');
    case NextWait => s' := Put(Acquire(s, p, FREE, false), p, q.(pc := NextRead)); assert NextStep(s, p, s');
    case DatWait => s' := Put(Acquire(s, p, DAT, true), p, q.(pc := DatUnlock)); assert AppendStep(s, p, s');
    case IdxWait =>
      s' := Put(Acquire(s, p, IDX, true), p, q.(pc := IdxSeek));
      assert AppendStep(s, p, s') && s'.procs[p].pc == IdxSeek;
  }

  lemma {:induction false} FindMoves(s: State, p: Pid) returns (s': State)
    requires Sized(s) && p in s.procs && ProcOk(s, p) &&
      (s.procs[p].pc.FindHead? || s.procs[p].pc.FindTest? || s.procs[p].pc.ChainUnlock?)
    requires s.procs[p].pc.FindTest? ==> ListOk(s.f, s.procs[p].c, s.lists[s.procs[p].c])
    ensures Advances(s, p, s')
  {
    var q := s.procs[p];
    if q.pc.FindHead? {
      s' := Put(s, p, q.(pc := FindTest, offset := HeadOf(s, q.c), ptroff := q.c * PTR_SZ, i := 0));
    } else if q.pc.ChainUnlock? {
      s' := Put(Release(s, p, q.c), p, q.(pc := Idle));
    } else if q.offset == 0 {
      s' := Put(s, p, q.(pc := if q.op == Insert then NewRead else ChainUnlock));
    } else {
      assert NodeOk(s.f, s.lists[q.c], q.i);
      s' := Put(s, p, q.(offset := s.f.recs[q.offset].ptr, ptroff := q.offset, i := q.i + 1));
    }
    assert FindStep(s, p, s');
  }

  lemma {:induction false} FreeMoves(s: State, p: Pid) returns (s': State)
    requires Sized(s) && p in s.procs && ProcOk(s, p) &&
      (s.procs[p].pc.FreeHead? || s.procs[p].pc.FreeTest? || s.procs[p].pc.FreeTake?)
    requires ListOk(s.f, FREE, s.lists[FREE])
    ensures Advances(s, p, s')
  {
    var q := s.procs[p];
    if q.pc.FreeHead? {
      s' := Put(s, p, q.(pc := FreeTest, offset := HeadOf(s, FREE), ptroff := FREE * PTR_SZ, i := 0));
    } else if q.pc.FreeTake? {
      s' := Put(Drop(s.(f := PutPtr(s.f, q.ptroff, q.freeptr)), p, FREE, q.i, q.o), p, q.(pc := TakenUnlock));
    } else if q.offset == 0 {
      s' := Put(s, p, q.(pc := NoneUnlock));
    } else {
      assert NodeOk(s.f, s.lists[FREE], q.i);
      s' := Put(s, p, q.(offset := s.f.recs[q.offset].ptr, ptroff := q.offset, i := q.i + 1));
    }
    assert ReuseStep(s, p, s');
  }

  lemma {:induction false} OtherMoves(s: State, p: Pid) returns (s': State)
    requires Sized(s) && p in s.procs && ProcOk(s, p) && Awaited(s.procs[p]) == -1
    requires var pc := s.procs[p].pc;
      !pc.Idle? && !pc.FindHead? && !pc.FindTest? && !pc.ChainUnlock? && !pc.FreeHead? && !pc.FreeTest? && !pc.FreeTake?
    ensures Advances(s, p, s')
  {
    var q := s.procs[p];
    match q.pc
    case DelFree => s' := Put(s, p, q.(pc := DelIdx, freeptr := HeadOf(s, FREE))); assert DeleteStep(s, p, s');
    case DelIdx => s' := Put(Drop(SetPtr(s, q.o, q.freeptr), p, q.c, q.i, q.o), p, q.(pc := DelHead));
      assert DeleteStep(s, p, s');
    case DelHead => s' := Put(Push(s, FREE, q.o), p, q.(pc := DelPtr)); assert DeleteStep(s, p, s');
    case DelPtr => s' := Put(s.(f := PutPtr(s.f, q.ptroff, q.ptrval)), p, q.(pc := DelUnlock));
      assert DeleteStep(s, p, s');
    case DelUnlock => s' := Put(Release(s, p, FREE), p, q.(pc := if q.op == Delete then ChainUnlock else NewRead));
      assert DeleteStep(s, p, s');
    case NewRead => s' := Put(s, p, q.(pc := if q.op == Replace then DatWait else FreeWait, ptrval := HeadOf(s, q.c)));
      assert ReuseStep(s, p, s');
    case TakenUnlock => s' := Put(Release(s, p, FREE), p, q.(pc := ReuseIdx)); assert ReuseStep(s, p, s');
    case NoneUnlock => s' := Put(Release(s, p, FREE), p, q.(pc := DatWait)); assert ReuseStep(s, p, s');
    case ReuseIdx => s' := Put(SetPtr(s, q.o, q.ptrval), p, q.(pc := Link)); assert ReuseStep(s, p, s');
    case Link =>
      if q.o <= PTR_MAX {
        s' := Put(Push(s, q.c, q.o), p, q.(pc := ChainUnlock));
        assert ReuseStep(s, p, s');
      } else {
        s' := Put(Release(Abandon(s, p), p, q.c), p, q.(pc := Idle));
        assert QuitStep(s, p, s');
      }
    case DatUnlock => s' := Put(Release(s, p, DAT), p, q.(pc := IdxWait)); assert AppendStep(s, p, s');
    case IdxSeek => s' := Put(s, p, q.(pc := IdxWrite, o := s.f.end)); assert AppendStep(s, p, s');
    case IdxWrite =>
      var r := IdxRec(q.ptrval, 0, "", 0, 0);
      s' := Appended(s, p, r);
      assert AppendStep(s, p, s');
    case IdxUnlock => s' := Put(Release(s, p, IDX), p, q.(pc := Link)); assert AppendStep(s, p, s');
    case NextRead => s' := Put(s, p, q.(pc := NextUnlock)); assert NextStep(s, p, s');
    case NextUnlock => s' := Put(Release(s, p, FREE), p, q.(pc := Idle)); assert NextStep(s, p, s');
  }

  /** In no reachable state do the processes inside the library wait for each other in a circle. */
  lemma {:induction false} NoDeadlock(states: seq<State>, n: nat, p: Pid) returns (u: Pid, s': State)
    requires Run(states) && n < |states| && p in states[n].procs && !states[n].procs[p].pc.Idle?
    ensures u in states[n].procs && !states[n].procs[u].pc.Idle? && Advances(states[n], u, s')
  {
    AlwaysInv(states, n);
    u := SomeoneMoves(states[n], p);
    s' := Moves(states[n], u);
  }
}
