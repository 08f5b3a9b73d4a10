/** What the calls of apue/db/db.c have done to the index file when they return, in every run of many processes. */
module DbCalls {
  import opened Lists
  import opened DbFiles
  import opened DbLocks

  // ----- What one write does -----

  /** Record o, number x of list c, leaves the list, and points to the head of the free list. */
  ghost predicate Unlinked(s: State, s': State, c: nat, x: nat, o: nat) {
    c < |s.lists| && x < |s.lists[c]| && s.lists[c][x] == o && s'.lists == s.lists[c := Without(s.lists[c], x)] &&
    o in s.f.recs && FREE < |s.f.heads| && s'.f == s.f.(recs := s.f.recs[o := s.f.recs[o].(ptr := s.f.heads[FREE])])
  }

  /** Record o becomes the head of list k. */
  ghost predicate Fronted(s: State, s': State, k: nat, o: nat) {
    k < |s.lists| && k < |s.f.heads| && s'.lists == s.lists[k := [o] + s.lists[k]] &&
    s'.f == s.f.(heads := s.f.heads[k := o])
  }

  /** What pointed to number x of list c, in state s0, points to what followed it. */
  ghost predicate Repaired(s0: State, s: State, s': State, c: nat, x: nat, o: nat) {
    c < |s0.lists| && o in s0.f.recs && s'.lists == s.lists &&
    s'.f == PutPtr(s.f, PtrOff(s0.lists[c], c, x), s0.f.recs[o].ptr)
  }

  /** Record o, number x of the free list, leaves it. */
  ghost predicate Took(s: State, s': State, x: nat, o: nat) {
    FREE < |s.lists| && x < |s.lists[FREE]| && s.lists[FREE][x] == o && o in s.f.recs &&
    s'.lists == s.lists[FREE := Without(s.lists[FREE], x)] &&
    s'.f == PutPtr(s.f, PtrOff(s.lists[FREE], FREE, x), s.f.recs[o].ptr)
  }

  /** Record o points to the head of list c. */
  ghost predicate Rewrote(s: State, s': State, c: nat, o: nat) {
    c < |s.f.heads| && o in s.f.recs && s'.lists == s.lists &&
    s'.f == s.f.(recs := s.f.recs[o := s.f.recs[o].(ptr := s.f.heads[c])])
  }

  /** Record o is new at the end of the file, and points to the head of list c. */
  ghost predicate Added(s: State, s': State, c: nat, o: nat) {
    c < |s.f.heads| && o == s.f.end && o !in s.f.recs && o in s'.f.recs && s'.f.recs[o].ptr == s.f.heads[c] &&
    s'.lists == s.lists && s'.f == s.f.(recs := s.f.recs[o := s'.f.recs[o]], end := o + Size(s'.f.recs[o]))
  }

  // ----- The writes of one call -----

  /** The steps of a call that write: of its deletion, and of its insertion, with the deleted record, its number in the
      chain, and the inserted record; stop is the step in which the search along the chain ended. */
  datatype History = History(stop: nat, del: seq<nat>, gone: nat, x: nat, put: seq<nat>, made: nat)

  ghost predicate UnlinkedAt(states: seq<State>, n: nat, c: nat, x: nat, o: nat) {
    n + 1 < |states| && Unlinked(states[n], states[n + 1], c, x, o)
  }

  ghost predicate FrontedAt(states: seq<State>, n: nat, k: nat, o: nat) {
    n + 1 < |states| && Fronted(states[n], states[n + 1], k, o)
  }

  ghost predicate RepairedAt(states: seq<State>, n0: nat, n: nat, c: nat, x: nat, o: nat) {
    n0 < |states| && n + 1 < |states| && Repaired(states[n0], states[n], states[n + 1], c, x, o)
  }

  ghost predicate TookAt(states: seq<State>, n: nat, o: nat) {
    n + 1 < |states| && TookSome(states[n], states[n + 1], o)
  }

  ghost predicate TookSome(s: State, s': State, o: nat) {
    exists x :: Took(s, s', x, o)
  }

  ghost predicate RewroteAt(states: seq<State>, n: nat, c: nat, o: nat) {
    n + 1 < |states| && Rewrote(states[n], states[n + 1], c, o)
  }

  ghost predicate AddedAt(states: seq<State>, n: nat, c: nat, o: nat) {
    n + 1 < |states| && Added(states[n], states[n + 1], c, o)
  }

  /** The first steps of a deletion. */
  ghost predicate Deletes(states: seq<State>, del: seq<nat>, c: nat, x: nat, o: nat) {
    |del| <= 3 && (|del| >= 1 ==> UnlinkedAt(states, del[0], c, x, o)) &&
      (|del| >= 2 ==> FrontedAt(states, del[1], FREE, o)) &&
    (|del| == 3 ==> RepairedAt(states, del[0], del[2], c, x, o))
  }

  /** A record is made ready for list c: taken from the free list and rewritten, or added. */
  ghost predicate Prepares(states: seq<State>, put: seq<nat>, c: nat, o: nat) {
    (|put| == 2 && TookAt(states, put[0], o) && RewroteAt(states, put[1], c, o)) ||
    (|put| == 1 && AddedAt(states, put[0], c, o))
  }

  /** A record is made ready and becomes the head of list c. */
  ghost predicate Inserts(states: seq<State>, put: seq<nat>, c: nat, o: nat) {
    |put| >= 2 && Prepares(states, put[..|put| - 1], c, o) && FrontedAt(states, put[|put| - 1], c, o)
  }

  /** Whether a call deletes, and whether it inserts, after its search has met the end of the chain or a record. */
  predicate WantsDelete(op: Op, end: bool) {
    (op == Delete || op == Replace) && !end
  }

  predicate WantsInsert(op: Op, end: bool) {
    (op == Insert && end) || (op == Replace && !end)
  }

  // ----- Runs -----

  ghost predicate RunBy(states: seq<State>, who: seq<Pid>) {
    |states| == |who| + 1 && Initial(states[0]) && forall n :: 0 <= n < |who| ==> StepAt(states, who, n)
  }

  ghost predicate StepAt(states: seq<State>, who: seq<Pid>, n: nat)
    requires |states| == |who| + 1 && n < |who|
  {
    Step(states[n], who[n], states[n + 1])
  }

  lemma {:induction false} Always(states: seq<State>, who: seq<Pid>, n: nat)
    requires RunBy(states, who) && n < |states|
    ensures Inv(states[n])
  {
    if n == 0 {
      InitialInv(states[0]);
    } else {
      Always(states, who, n - 1);
      assert StepAt(states, who, n - 1);
      StepKeeps(states[n - 1], who[n - 1], states[n]);
    }
  }

  lemma {:induction false} PlaceAt(states: seq<State>, who: seq<Pid>, n: nat, p: Pid)
    requires RunBy(states, who) && n < |states| && p in states[n].procs
    ensures Sized(states[n]) && PlaceOk(states[n], p)
  {
    Always(states, who, n);
    OkProc(states[n], p);
  }

  ghost predicate Busy(states: seq<State>, p: Pid, m: nat)
    requires m < |states|
  {
    p in states[m].procs && !states[m].procs[p].pc.Idle?
  }

  /** Process p is inside a call of kind op on chain c from step i to state j. */
  ghost predicate Calling(states: seq<State>, who: seq<Pid>, p: Pid, i: nat, j: nat, op: Op, c: nat) {
    RunBy(states, who) && i < j < |states| && who[i] == p && p in states[i + 1].procs &&
    states[i + 1].procs[p] == Proc(FindWait, op, c, 0, 0, 0, 0, 0, 0) && (forall m :: i < m < j ==> Busy(states, p, m))
  }

  // ----- The history of a call -----

  predicate Searching(pc: Pc) {
    pc.FindWait? || pc.FindHead? || pc.FindTest?
  }

  predicate Deleting(pc: Pc) {
    pc.DelWait? || pc.DelFree? || pc.DelIdx? || pc.DelHead? || pc.DelPtr? || pc.DelUnlock?
  }

  predicate Inserting(pc: Pc) {
    !pc.Idle? && !Searching(pc) && !Deleting(pc) && !pc.ChainUnlock? && !pc.NextWait? && !pc.NextRead? &&
      !pc.NextUnlock?
  }

  function DeleteSteps(pc: Pc): nat {
    if pc.DelWait? || pc.DelFree? || pc.DelIdx? then 0 else if pc.DelHead? then 1 else if pc.DelPtr? then 2 else 3
  }

  ghost predicate DeleteOk(states: seq<State>, q: Proc, h: History, wants: bool, c: nat) {
    if !wants then h.del == [] && !Deleting(q.pc)
    else
      |h.del| == DeleteSteps(q.pc) && Deletes(states, h.del, c, h.x, h.gone) && (Deleting(q.pc) ==> q.o == h.gone) &&
      (q.pc.DelHead? || q.pc.DelPtr? ==>
        q.ptroff == PtrOff(states[h.del[0]].lists[c], c, h.x) && q.ptrval == states[h.del[0]].f.recs[h.gone].ptr)
  }

  ghost predicate InsertOk(states: seq<State>, q: Proc, h: History, wants: bool, c: nat) {
    if !wants then h.put == [] && !Inserting(q.pc)
    else if q.pc.TakenUnlock? || q.pc.ReuseIdx? then |h.put| == 1 && TookAt(states, h.put[0], q.o)
    else if q.pc.IdxUnlock? then |h.put| == 1 && AddedAt(states, h.put[0], c, q.o)
    else if q.pc.Link? then Prepares(states, h.put, c, q.o)
    else if q.pc.ChainUnlock? then Inserts(states, h.put, c, h.made)
    else h.put == []
  }

  /** The search along chain c ended in step n, at the end of the chain or at one of its records. */
  ghost predicate StoppedAt(states: seq<State>, who: seq<Pid>, p: Pid, n: nat, c: nat) {
    n < |who| && n + 1 < |states| && who[n] == p && p in states[n].procs && states[n].procs[p].pc.FindTest? &&
    c < |states[n].lists| &&
    var q := states[n].procs[p];
    if q.offset == 0 then q.i == |states[n].lists[c]|
    else q.i < |states[n].lists[c]| && q.offset == states[n].lists[c][q.i]
  }

  ghost predicate Hist(states: seq<State>, who: seq<Pid>, p: Pid, m: nat, op: Op, c: nat, h: History)
    requires m < |states|
  {
    p in states[m].procs &&
    var q := states[m].procs[p];
    q.op == op && q.c == c && 1 <= c <= NHASH &&
    if Searching(q.pc) then h.del == [] && h.put == []
    else
      StoppedAt(states, who, p, h.stop, c) &&
      var end := states[h.stop].procs[p].offset == 0;
      DeleteOk(states, q, h, WantsDelete(op, end), c) && InsertOk(states, q, h, WantsInsert(op, end), c) &&
      (WantsDelete(op, end) ==> h.gone == states[h.stop].procs[p].offset) &&
      (Deleting(q.pc) || Inserting(q.pc) || q.pc.ChainUnlock?)
  }

  // ----- One step of the process -----

  /** What the search does next. */
  lemma {:induction false} SearchNext(s: State, p: Pid, s': State)
    requires Sized(s) && Step(s, p, s') && Searching(s.procs[p].pc)
    ensures p in s'.procs && s'.procs[p].op == s.procs[p].op && s'.procs[p].c == s.procs[p].c
    ensures Searching(s'.procs[p].pc) ||
            (s.procs[p].pc.FindTest? && var q, q' := s.procs[p], s'.procs[p];
             if q.offset == 0 then q'.pc == if q.op == Insert then NewRead else ChainUnlock
             else q'.o == q.offset && q'.pc == if q.op == Delete || q.op == Replace then DelWait else ChainUnlock)
  {
    assert FindStep(s, p, s');
  }

  lemma {:induction false} SearchMove(states: seq<State>, who: seq<Pid>, p: Pid, m: nat, op: Op, c: nat, h: History)
      returns (h': History)
    requires RunBy(states, who) && m < |who| && who[m] == p && Hist(states, who, p, m, op, c, h)
    requires Searching(states[m].procs[p].pc)
    ensures Hist(states, who, p, m + 1, op, c, h') && h'.del == h.del && h'.put == h.put
  {
    PlaceAt(states, who, m, p);
    SearchStep(states, who, p, m);
    var q, q' := states[m].procs[p], states[m + 1].procs[p];
    h' := h.(stop := m, gone := q.offset);
    if !Searching(q'.pc) { StopPlace(states, who, p, m, c); }
  }

  lemma {:induction false} SearchStep(states: seq<State>, who: seq<Pid>, p: Pid, m: nat)
    requires RunBy(states, who) && m < |who| && who[m] == p && p in states[m].procs && Searching(states[m].procs[p].pc)
    requires Sized(states[m])
    ensures var s, s' := states[m], states[m + 1];
            p in s'.procs && s'.procs[p].op == s.procs[p].op && s'.procs[p].c == s.procs[p].c &&
            (Searching(s'.procs[p].pc) ||
             (s.procs[p].pc.FindTest? && var q, q' := s.procs[p], s'.procs[p];
              if q.offset == 0 then q'.pc == if q.op == Insert then NewRead else ChainUnlock
              else q'.o == q.offset && q'.pc == if q.op == Delete || q.op == Replace then DelWait else ChainUnlock))
  {
    assert StepAt(states, who, m);
    SearchNext(states[m], p, states[m + 1]);
  }

  lemma {:induction false} StopPlace(states: seq<State>, who: seq<Pid>, p: Pid, m: nat, c: nat)
    requires RunBy(states, who) && m < |who| && who[m] == p && p in states[m].procs && states[m].procs[p].pc.FindTest?
    requires states[m].procs[p].c == c && 1 <= c <= NHASH
    ensures StoppedAt(states, who, p, m, c)
  {
    var s := states[m];
    Always(states, who, m);
    OkProc(s, p);
    ViewOfChain(s, p);
    if s.procs[p].i < |s.lists[c]| { assert NodeOk(s.f, s.lists[c], s.procs[p].i); }
  }

  /** What a deletion does next. */
  lemma {:induction false} DeleteNext(s: State, p: Pid, s': State)
    requires Sized(s) && p in s.procs && PlaceOk(s, p) && DeleteStep(s, p, s')
    ensures p in s'.procs
    ensures var q, q' := s.procs[p], s'.procs[p];
      q'.op == q.op && q'.c == q.c && q'.o == q.o && q'.ptroff == q.ptroff && q'.ptrval == q.ptrval &&
      match q.pc
      case DelWait => q'.pc.DelFree?
      case DelFree => q'.pc.DelIdx?
      case DelIdx =>
        q'.pc.DelHead? && Unlinked(s, s', q.c, q.i, q.o) && q.ptroff == PtrOff(s.lists[q.c], q.c, q.i) &&
        q.ptrval == s.f.recs[q.o].ptr
      case DelHead => q'.pc.DelPtr? && Fronted(s, s', FREE, q.o)
      case DelPtr => q'.pc.DelUnlock? && s'.lists == s.lists && s'.f == PutPtr(s.f, q.ptroff, q.ptrval)
      case DelUnlock => q'.pc == if q.op == Delete then ChainUnlock else NewRead
      case _ => false
  {
  }

  lemma {:induction false} DeleteKind(states: seq<State>, who: seq<Pid>, p: Pid, m: nat)
    requires RunBy(states, who) && m < |who| && who[m] == p && p in states[m].procs && Deleting(states[m].procs[p].pc)
    ensures DeleteStep(states[m], p, states[m + 1])
  {
    assert StepAt(states, who, m);
  }

  /** The next statement of a deletion, and what it has written. */
  ghost predicate DeleteGoes(states: seq<State>, m: nat, q: Proc, q': Proc)
    requires m + 1 < |states|
  {
    q'.op == q.op && q'.c == q.c && q'.o == q.o && q'.ptroff == q.ptroff && q'.ptrval == q.ptrval &&
    match q.pc
    case DelWait => q'.pc.DelFree?
    case DelFree => q'.pc.DelIdx?
    case DelIdx =>
      q'.pc.DelHead? && UnlinkedAt(states, m, q.c, q.i, q.o) && q.c < |states[m].lists| && q.o in states[m].f.recs &&
      q.ptroff == PtrOff(states[m].lists[q.c], q.c, q.i) && q.ptrval == states[m].f.recs[q.o].ptr
    case DelHead => q'.pc.DelPtr? && FrontedAt(states, m, FREE, q.o)
    case DelPtr =>
      q'.pc.DelUnlock? && states[m + 1].lists == states[m].lists &&
      states[m + 1].f == PutPtr(states[m].f, q.ptroff, q.ptrval)
    case DelUnlock => q'.pc == if q.op == Delete then ChainUnlock else NewRead
    case _ => false
  }

  lemma {:induction false} DeleteAt(states: seq<State>, who: seq<Pid>, p: Pid, m: nat)
    requires RunBy(states, who) && m < |who| && who[m] == p && p in states[m].procs && Deleting(states[m].procs[p].pc)
    ensures p in states[m + 1].procs && DeleteGoes(states, m, states[m].procs[p], states[m + 1].procs[p])
  {
    PlaceAt(states, who, m, p);
    DeleteKind(states, who, p, m);
    DeleteNext(states[m], p, states[m + 1]);
  }

  lemma {:induction false} DeleteMove(states: seq<State>, who: seq<Pid>, p: Pid, m: nat, op: Op, c: nat, h: History)
      returns (h': History)
    requires RunBy(states, who) && m < |who| && who[m] == p && Hist(states, who, p, m, op, c, h)
    requires Deleting(states[m].procs[p].pc)
    ensures Hist(states, who, p, m + 1, op, c, h') && h'.put == h.put
    ensures h'.del == if WritesFile(states[m].procs[p].pc) then h.del + [m] else h.del
  {
    DeleteAt(states, who, p, m);
    h' := DeleteHist(states, who, p, m, op, c, h);
  }

  lemma {:induction false} DeleteHist(states: seq<State>, who: seq<Pid>, p: Pid, m: nat, op: Op, c: nat, h: History)
      returns (h': History)
    requires m + 1 < |states| && Hist(states, who, p, m, op, c, h) && p in states[m + 1].procs
    requires Deleting(states[m].procs[p].pc) && DeleteGoes(states, m, states[m].procs[p], states[m + 1].procs[p])
    ensures Hist(states, who, p, m + 1, op, c, h') && h'.put == h.put
    ensures h'.del == if WritesFile(states[m].procs[p].pc) then h.del + [m] else h.del
  {
    var q, q' := states[m].procs[p], states[m + 1].procs[p];
    var end := states[h.stop].procs[p].offset == 0;
    h' := if q.pc.DelIdx? then h.(del := [m], x := q.i) else if WritesFile(q.pc) then h.(del := h.del + [m]) else h;
    assert WantsDelete(op, end);
    DeleteGrows(states, m, q, q', h, h', c);
    DeleteNotInsert(states, m, q, q', h, h', op, c);
  }

  lemma {:induction false} DeleteGrows(states: seq<State>, m: nat, q: Proc, q': Proc, h: History, h': History, c: nat)
    requires m + 1 < |states| && DeleteOk(states, q, h, true, c) && Deleting(q.pc) && DeleteGoes(states, m, q, q') &&
      q.c == c
    requires h' == if q.pc.DelIdx? then h.(del := [m], x := q.i) else if WritesFile(q.pc) then h.(del := h.del + [m])
      else h
    ensures DeleteOk(states, q', h', true, c)
  {
  }

  lemma {:induction false} DeleteNotInsert(states: seq<State>, m: nat, q: Proc, q': Proc, h: History, h': History,
      op: Op, c: nat)
    requires m + 1 < |states| && InsertOk(states, q, h, WantsInsert(op, false), c) && Deleting(q.pc) && q.op == op
    requires DeleteGoes(states, m, q, q') && h'.put == h.put && h'.made == h.made && (op == Delete || op == Replace)
    ensures InsertOk(states, q', h', WantsInsert(op, false), c) &&
      (Deleting(q'.pc) || Inserting(q'.pc) || q'.pc.ChainUnlock?)
  {
  }

  /** What an insertion does next. */
  lemma {:induction false} ReuseNext(s: State, p: Pid, s': State)
    requires Sized(s) && p in s.procs && PlaceOk(s, p) && ReuseStep(s, p, s')
    ensures p in s'.procs
    ensures var q, q' := s.procs[p], s'.procs[p];
      q'.op == q.op && q'.c == q.c &&
      match q.pc
      case NewRead => q'.pc == if q.op == Replace then DatWait else FreeWait
      case FreeWait => q'.pc.FreeHead?
      case FreeHead => q'.pc.FreeTest?
      case FreeTest => q'.pc.FreeTest? || q'.pc.FreeTake? || q'.pc.NoneUnlock?
      case FreeTake => q'.pc.TakenUnlock? && q'.o == q.o && Took(s, s', q.i, q.o)
      case TakenUnlock => q'.pc.ReuseIdx? && q'.o == q.o
      case NoneUnlock => q'.pc.DatWait?
      case ReuseIdx => q'.pc.Link? && q'.o == q.o && Rewrote(s, s', q.c, q.o)
      case Link => q'.pc.ChainUnlock? && q'.o == q.o && Fronted(s, s', q.c, q.o)
      case _ => false
  {
  }

  lemma {:induction false} AppendNext(s: State, p: Pid, s': State)
    requires Sized(s) && p in s.procs && PlaceOk(s, p) && s.f.end !in s.f.recs && AppendStep(s, p, s')
    ensures p in s'.procs
    ensures var q, q' := s.procs[p], s'.procs[p];
      q'.op == q.op && q'.c == q.c &&
      match q.pc
      case DatWait => q'.pc.DatUnlock?
      case DatUnlock => q'.pc.IdxWait?
      case IdxWait => q'.pc.IdxSeek?
      case IdxSeek => q'.pc.IdxWrite?
      case IdxWrite => q'.pc.IdxUnlock? && Added(s, s', q.c, q'.o)
      case IdxUnlock => q'.pc.Link? && q'.o == q.o
      case _ => false
  {
  }

  predicate Reusing(pc: Pc) {
    pc.NewRead? || pc.FreeWait? || pc.FreeHead? || pc.FreeTest? || pc.FreeTake? || pc.TakenUnlock? || pc.NoneUnlock? ||
    pc.ReuseIdx? || pc.Link?
  }

  lemma {:induction false} ReuseKind(states: seq<State>, who: seq<Pid>, p: Pid, m: nat)
    requires RunBy(states, who) && m < |who| && who[m] == p && p in states[m].procs && Reusing(states[m].procs[p].pc)
    requires !QuitStep(states[m], p, states[m + 1])
    ensures ReuseStep(states[m], p, states[m + 1])
  {
    assert StepAt(states, who, m);
  }

  lemma {:induction false} AppendKind(states: seq<State>, who: seq<Pid>, p: Pid, m: nat)
    requires RunBy(states, who) && m < |who| && who[m] == p && p in states[m].procs
    requires Inserting(states[m].procs[p].pc) && !Reusing(states[m].procs[p].pc)
    requires !QuitStep(states[m], p, states[m + 1])
    ensures AppendStep(states[m], p, states[m + 1])
  {
    assert StepAt(states, who, m);
  }

  lemma {:induction false} EndIsFree(states: seq<State>, who: seq<Pid>, m: nat)
    requires RunBy(states, who) && m < |states|
    ensures states[m].f.end !in states[m].f.recs
  {
    Always(states, who, m);
  }

  /** The next statement of an insertion, and what it has written. */
  ghost predicate InsertGoes(states: seq<State>, m: nat, q: Proc, q': Proc)
    requires m + 1 < |states|
  {
    q'.op == q.op && q'.c == q.c &&
    match q.pc
    case NewRead => q'.pc == if q.op == Replace then DatWait else FreeWait
    case FreeWait => q'.pc.FreeHead?
    case FreeHead => q'.pc.FreeTest?
    case FreeTest => q'.pc.FreeTest? || q'.pc.FreeTake? || q'.pc.NoneUnlock?
    case FreeTake => q'.pc.TakenUnlock? && q'.o == q.o && TookAt(states, m, q.o)
    case TakenUnlock => q'.pc.ReuseIdx? && q'.o == q.o
    case NoneUnlock => q'.pc.DatWait?
    case ReuseIdx => q'.pc.Link? && q'.o == q.o && RewroteAt(states, m, q.c, q.o)
    case Link => q'.pc.ChainUnlock? && q'.o == q.o && FrontedAt(states, m, q.c, q.o)
    case DatWait => q'.pc.DatUnlock?
    case DatUnlock => q'.pc.IdxWait?
    case IdxWait => q'.pc.IdxSeek?
    case IdxSeek => q'.pc.IdxWrite?
    case IdxWrite => q'.pc.IdxUnlock? && AddedAt(states, m, q.c, q'.o)
    case IdxUnlock => q'.pc.Link? && q'.o == q.o
    case _ => false
  }

  lemma {:induction false} InsertAt(states: seq<State>, who: seq<Pid>, p: Pid, m: nat)
    requires RunBy(states, who) && m < |who| && who[m] == p && p in states[m].procs && Inserting(states[m].procs[p].pc)
    requires !QuitStep(states[m], p, states[m + 1])
    ensures p in states[m + 1].procs && InsertGoes(states, m, states[m].procs[p], states[m + 1].procs[p])
  {
    if Reusing(states[m].procs[p].pc) { ReuseAt(states, who, p, m); } else { AppendAt(states, who, p, m); }
  }

  lemma {:induction false} ReuseAt(states: seq<State>, who: seq<Pid>, p: Pid, m: nat)
    requires RunBy(states, who) && m < |who| && who[m] == p && p in states[m].procs && Reusing(states[m].procs[p].pc)
    requires !QuitStep(states[m], p, states[m + 1])
    ensures p in states[m + 1].procs && InsertGoes(states, m, states[m].procs[p], states[m + 1].procs[p])
  {
    PlaceAt(states, who, m, p);
    ReuseKind(states, who, p, m);
    ReuseNext(states[m], p, states[m + 1]);
    if states[m].procs[p].pc.FreeTake? { assert TookSome(states[m], states[m + 1], states[m].procs[p].o); }
  }

  lemma {:induction false} AppendAt(states: seq<State>, who: seq<Pid>, p: Pid, m: nat)
    requires RunBy(states, who) && m < |who| && who[m] == p && p in states[m].procs
    requires Inserting(states[m].procs[p].pc) && !Reusing(states[m].procs[p].pc)
    requires !QuitStep(states[m], p, states[m + 1])
    ensures p in states[m + 1].procs && InsertGoes(states, m, states[m].procs[p], states[m + 1].procs[p])
  {
    PlaceAt(states, who, m, p);
    EndIsFree(states, who, m);
    AppendKind(states, who, p, m);
    AppendNext(states[m], p, states[m + 1]);
  }

  lemma {:induction false} InsertMove(states: seq<State>, who: seq<Pid>, p: Pid, m: nat, op: Op, c: nat, h: History)
      returns (h': History)
    requires RunBy(states, who) && m < |who| && who[m] == p && Hist(states, who, p, m, op, c, h)
    requires Inserting(states[m].procs[p].pc) && !QuitStep(states[m], p, states[m + 1])
    ensures Hist(states, who, p, m + 1, op, c, h') && h'.del == h.del
    ensures h'.put == if WritesFile(states[m].procs[p].pc) then h.put + [m] else h.put
  {
    InsertAt(states, who, p, m);
    h' := InsertHist(states, who, p, m, op, c, h);
  }

  lemma {:induction false} InsertHist(states: seq<State>, who: seq<Pid>, p: Pid, m: nat, op: Op, c: nat, h: History)
      returns (h': History)
    requires m + 1 < |states| && Hist(states, who, p, m, op, c, h) && p in states[m + 1].procs
    requires Inserting(states[m].procs[p].pc) && InsertGoes(states, m, states[m].procs[p], states[m + 1].procs[p])
    ensures Hist(states, who, p, m + 1, op, c, h') && h'.del == h.del
    ensures h'.put == if WritesFile(states[m].procs[p].pc) then h.put + [m] else h.put
  {
    var q, q' := states[m].procs[p], states[m + 1].procs[p];
    var end := states[h.stop].procs[p].offset == 0;
    h' := if WritesFile(q.pc) then h.(put := h.put + [m], made := q.o) else h;
    InsertGrows(states, m, q, q', h, h', c);
    InsertNotDelete(states, q, q', h, h', WantsDelete(op, end), c);
    assert WantsInsert(op, end) && (Inserting(q'.pc) || q'.pc.ChainUnlock?);
  }

  lemma {:induction false} InsertGrows(states: seq<State>, m: nat, q: Proc, q': Proc, h: History, h': History, c: nat)
    requires m + 1 < |states| && InsertOk(states, q, h, true, c) && Inserting(q.pc) && InsertGoes(states, m, q, q') &&
      q.c == c
    requires h' == if WritesFile(q.pc) then h.(put := h.put + [m], made := q.o) else h
    ensures InsertOk(states, q', h', true, c) && (Inserting(q'.pc) || q'.pc.ChainUnlock?)
  {
    if q.pc.Link? { assert h'.put[..|h'.put| - 1] == h.put; }
  }

  lemma {:induction false} InsertNotDelete(states: seq<State>, q: Proc, q': Proc, h: History, h': History, wants: bool,
      c: nat)
    requires DeleteOk(states, q, h, wants, c) && Inserting(q.pc) && (Inserting(q'.pc) || q'.pc.ChainUnlock?)
    requires h'.del == h.del && h'.x == h.x && h'.gone == h.gone
    ensures DeleteOk(states, q', h', wants, c)
  {
  }

  // ----- The whole call -----

  lemma {:induction false} Unmoved(s: State, u: Pid, s': State, p: Pid)
    requires Step(s, u, s') && u != p && p in s.procs
    ensures p in s'.procs && s'.procs[p] == s.procs[p]
  {
    if FindStep(s, u, s') { FindUnmoved(s, u, s', p); }
    else if DeleteStep(s, u, s') { DeleteUnmoved(s, u, s', p); }
    else if ReuseStep(s, u, s') { ReuseUnmoved(s, u, s', p); }
    else if AppendStep(s, u, s') { AppendUnmoved(s, u, s', p); }
    else if NextStep(s, u, s') { NextUnmoved(s, u, s', p); }
    else if CallStep(s, u, s') { CallUnmoved(s, u, s', p); }
    else { QuitUnmoved(s, u, s', p); }
  }

  lemma {:induction false} FindUnmoved(s: State, u: Pid, s': State, p: Pid)
    requires u in s.procs && FindStep(s, u, s') && u != p && p in s.procs
    ensures p in s'.procs && s'.procs[p] == s.procs[p]
  {
  }

  lemma {:induction false} DeleteUnmoved(s: State, u: Pid, s': State, p: Pid)
    requires u in s.procs && DeleteStep(s, u, s') && u != p && p in s.procs
    ensures p in s'.procs && s'.procs[p] == s.procs[p]
  {
  }

  lemma {:induction false} ReuseUnmoved(s: State, u: Pid, s': State, p: Pid)
    requires u in s.procs && ReuseStep(s, u, s') && u != p && p in s.procs
    ensures p in s'.procs && s'.procs[p] == s.procs[p]
  {
  }

  lemma {:induction false} AppendUnmoved(s: State, u: Pid, s': State, p: Pid)
    requires u in s.procs && AppendStep(s, u, s') && u != p && p in s.procs
    ensures p in s'.procs && s'.procs[p] == s.procs[p]
  {
  }

  lemma {:induction false} NextUnmoved(s: State, u: Pid, s': State, p: Pid)
    requires u in s.procs && NextStep(s, u, s') && u != p && p in s.procs
    ensures p in s'.procs && s'.procs[p] == s.procs[p]
  {
  }

  lemma {:induction false} CallUnmoved(s: State, u: Pid, s': State, p: Pid)
    requires u in s.procs && CallStep(s, u, s') && u != p && p in s.procs
    ensures p in s'.procs && s'.procs[p] == s.procs[p]
  {
  }

  lemma {:induction false} QuitUnmoved(s: State, u: Pid, s': State, p: Pid)
    requires u in s.procs && QuitStep(s, u, s') && u != p && p in s.procs
    ensures p in s'.procs && s'.procs[p] == s.procs[p]
  {
  }

  ghost predicate SameAt(states: seq<State>, n: nat) {
    n + 1 < |states| && states[n + 1].f == states[n].f && states[n + 1].lists == states[n].lists
  }

  /** The steps w, in this order, are all those of process p after step i and before state m that write. */
  ghost predicate AllWrites(states: seq<State>, who: seq<Pid>, p: Pid, i: nat, m: nat, w: seq<nat>) {
    m <= |who| && (forall k :: 0 <= k < |w| ==> i < w[k] < m && who[w[k]] == p) &&
    (forall k, l :: 0 <= k < l < |w| ==> w[k] < w[l]) &&
    forall n :: i < n < m && who[n] == p && n !in w ==> SameAt(states, n)
  }

  lemma {:induction false} NoWrite(states: seq<State>, who: seq<Pid>, p: Pid, i: nat, m: nat, w: seq<nat>)
    requires AllWrites(states, who, p, i, m, w) && i < m < |who| && (who[m] == p ==> SameAt(states, m))
    ensures AllWrites(states, who, p, i, m + 1, w)
  {
  }

  lemma {:induction false} OneWrite(states: seq<State>, who: seq<Pid>, p: Pid, i: nat, m: nat, w: seq<nat>)
    requires AllWrites(states, who, p, i, m, w) && i < m < |who| && who[m] == p
    ensures AllWrites(states, who, p, i, m + 1, w + [m])
  {
    var w' := w + [m];
    assert w'[|w|] == m;
    forall n | i < n < m + 1 && who[n] == p && n !in w' ensures SameAt(states, n) { assert n !in w; }
  }

  lemma {:induction false} Silent(states: seq<State>, who: seq<Pid>, p: Pid, m: nat)
    requires RunBy(states, who) && m < |who| && who[m] == p && p in states[m].procs &&
      !WritesFile(states[m].procs[p].pc)
    ensures SameAt(states, m)
  {
    assert StepAt(states, who, m);
    OthersOnlyRead(states[m], p, states[m + 1]);
  }

  lemma {:induction false} UnmovedAt(states: seq<State>, who: seq<Pid>, p: Pid, m: nat)
    requires RunBy(states, who) && m < |who| && who[m] != p && p in states[m].procs
    ensures p in states[m + 1].procs && states[m + 1].procs[p] == states[m].procs[p]
  {
    assert StepAt(states, who, m);
    Unmoved(states[m], who[m], states[m + 1], p);
  }

  /** A process that goes on has not ended. */
  lemma {:induction false} NotEnded(s: State, p: Pid, s': State)
    requires p in s.procs && p in s'.procs && !s'.procs[p].pc.Idle?
    ensures !QuitStep(s, p, s')
  {
  }

  /** One step of anybody, seen by the call. */
  lemma {:induction false} Moves(states: seq<State>, who: seq<Pid>, p: Pid, i: nat, m: nat, op: Op, c: nat, h: History)
      returns (h': History)
    requires RunBy(states, who) && i < m < |who| && Hist(states, who, p, m, op, c, h)
    requires AllWrites(states, who, p, i, m, h.del + h.put)
    requires who[m] == p ==> !QuitStep(states[m], p, states[m + 1]) && !states[m].procs[p].pc.ChainUnlock?
    ensures Hist(states, who, p, m + 1, op, c, h') && AllWrites(states, who, p, i, m + 1, h'.del + h'.put)
  {
    h' := h;
    var w := h.del + h.put;
    if who[m] != p {
      UnmovedAt(states, who, p, m);
      NoWrite(states, who, p, i, m, w);
    } else {
      h' := OwnMove(states, who, p, m, op, c, h);
      if WritesFile(states[m].procs[p].pc) {
        OneWrite(states, who, p, i, m, w);
      } else {
        Silent(states, who, p, m);
        NoWrite(states, who, p, i, m, w);
      }
    }
  }

  lemma {:induction false} OwnMove(states: seq<State>, who: seq<Pid>, p: Pid, m: nat, op: Op, c: nat, h: History)
      returns (h': History)
    requires RunBy(states, who) && m < |who| && who[m] == p && Hist(states, who, p, m, op, c, h)
    requires !QuitStep(states[m], p, states[m + 1]) && !states[m].procs[p].pc.ChainUnlock?
    ensures Hist(states, who, p, m + 1, op, c, h')
    ensures h'.del + h'.put == if WritesFile(states[m].procs[p].pc) then h.del + h.put + [m] else h.del + h.put
  {
    var pc := states[m].procs[p].pc;
    if Searching(pc) {
      h' := SearchMove(states, who, p, m, op, c, h);
    } else if Deleting(pc) {
      NotYetPut(states, who, p, m, op, c, h);
      h' := DeleteMove(states, who, p, m, op, c, h);
    } else {
      h' := InsertMove(states, who, p, m, op, c, h);
      Regroup(h.del, h.put, m);
    }
  }

  lemma {:induction false} NotYetPut(states: seq<State>, who: seq<Pid>, p: Pid, m: nat, op: Op, c: nat, h: History)
    requires m < |states| && Hist(states, who, p, m, op, c, h) && Deleting(states[m].procs[p].pc)
    ensures h.put == []
  {
  }

  lemma Regroup(a: seq<nat>, b: seq<nat>, m: nat)
    ensures a + (b + [m]) == a + b + [m]
  {
  }

  lemma {:induction false} SoFar(states: seq<State>, who: seq<Pid>, p: Pid, i: nat, m: nat, op: Op, c: nat)
      returns (h: History)
    requires Calling(states, who, p, i, m, op, c) && Busy(states, p, m) && 1 <= c <= NHASH
    ensures Hist(states, who, p, m, op, c, h) && AllWrites(states, who, p, i, m, h.del + h.put)
  {
    if m == i + 1 {
      h := History(0, [], 0, 0, [], 0);
    } else {
      assert Busy(states, p, m - 1);
      h := SoFar(states, who, p, i, m - 1, op, c);
      if who[m - 1] == p {
        NotEnded(states[m - 1], p, states[m]);
        StillInside(states, who, p, m - 1);
      }
      h := Moves(states, who, p, i, m - 1, op, c, h);
    }
  }

  lemma {:induction false} StillInside(states: seq<State>, who: seq<Pid>, p: Pid, m: nat)
    requires RunBy(states, who) && m < |who| && who[m] == p && p in states[m].procs && Busy(states, p, m + 1)
    ensures !states[m].procs[p].pc.ChainUnlock?
  {
    assert StepAt(states, who, m);
    if states[m].procs[p].pc.ChainUnlock? { LastStep(states[m], p, states[m + 1]); }
  }

  lemma {:induction false} LastStep(s: State, p: Pid, s': State)
    requires Step(s, p, s') && s.procs[p].pc.ChainUnlock?
    ensures p in s'.procs && s'.procs[p].pc.Idle?
  {
  }

  /** What a call has done: the deletion and the insertion that it wants, completely. */
  ghost predicate Done(states: seq<State>, who: seq<Pid>, p: Pid, op: Op, c: nat, h: History) {
    StoppedAt(states, who, p, h.stop, c) &&
    var found := states[h.stop].procs[p].offset;
    (if WantsDelete(op, found == 0) then |h.del| == 3 && h.gone == found && Deletes(states, h.del, c, h.x, found)
     else h.del == []) &&
    (if WantsInsert(op, found == 0) then Inserts(states, h.put, c, h.made) else h.put == [])
  }

  /** A call that returns without having ended its process: db_fetch writes nothing; db_delete takes the record at which
      its search stopped off the chain and puts it in front of the free list, or writes nothing if it met the end;
      db_store of a new key puts a record, taken from the free list or added, in front of the chain, or writes nothing
      if the key is there; db_store with other data does both. Nothing else is written. */
  lemma {:induction false} CallDone(states: seq<State>, who: seq<Pid>, p: Pid, i: nat, j: nat, op: Op, c: nat)
      returns (h: History)
    requires Calling(states, who, p, i, j, op, c) && 1 <= c <= NHASH && Returned(states, who, p, j)
    ensures Done(states, who, p, op, c, h) && AllWrites(states, who, p, i, j, h.del + h.put)
  {
    assert j > i + 1;
    var m := j - 1;
    assert Busy(states, p, m);
    h := SoFar(states, who, p, i, m, op, c);
    ByUnlocking(states, who, p, j, op, c, h);
    AtReturn(states, who, p, m, op, c, h);
    LastSilent(states, who, p, i, j, h.del + h.put);
  }

  lemma {:induction false} LastSilent(states: seq<State>, who: seq<Pid>, p: Pid, i: nat, j: nat, w: seq<nat>)
    requires RunBy(states, who) && i + 1 < j < |states| && who[j - 1] == p && p in states[j - 1].procs
    requires states[j - 1].procs[p].pc.ChainUnlock? && AllWrites(states, who, p, i, j - 1, w)
    ensures AllWrites(states, who, p, i, j, w)
  {
    Silent(states, who, p, j - 1);
    NoWrite(states, who, p, i, j - 1, w);
  }

  lemma {:induction false} AtReturn(states: seq<State>, who: seq<Pid>, p: Pid, m: nat, op: Op, c: nat, h: History)
    requires m + 1 < |states| && Hist(states, who, p, m, op, c, h) && states[m].procs[p].pc.ChainUnlock?
    ensures Done(states, who, p, op, c, h)
  {
  }

  /** Process p is outside in state j, and its last step was not its end. */
  ghost predicate Returned(states: seq<State>, who: seq<Pid>, p: Pid, j: nat) {
    0 < j < |states| && j <= |who| && p in states[j].procs && states[j].procs[p].pc.Idle? &&
    !(who[j - 1] == p && p in states[j - 1].procs && QuitStep(states[j - 1], p, states[j]))
  }

  lemma {:induction false} ByUnlocking(states: seq<State>, who: seq<Pid>, p: Pid, j: nat, op: Op, c: nat, h: History)
    requires RunBy(states, who) && 0 < j < |states| && Hist(states, who, p, j - 1, op, c, h) &&
      Returned(states, who, p, j)
    ensures who[j - 1] == p && states[j - 1].procs[p].pc.ChainUnlock?
  {
    var m := j - 1;
    if who[m] != p {
      HistBusy(states, who, p, m, op, c, h);
      UnmovedAt(states, who, p, m);
    } else if !states[m].procs[p].pc.ChainUnlock? {
      GoesOn(states, who, p, m, op, c, h);
    }
  }

  lemma {:induction false} HistBusy(states: seq<State>, who: seq<Pid>, p: Pid, m: nat, op: Op, c: nat, h: History)
    requires m < |states| && Hist(states, who, p, m, op, c, h)
    ensures Busy(states, p, m)
  {
  }

  lemma {:induction false} GoesOn(states: seq<State>, who: seq<Pid>, p: Pid, m: nat, op: Op, c: nat, h: History)
    requires RunBy(states, who) && m < |who| && who[m] == p && Hist(states, who, p, m, op, c, h)
    requires !QuitStep(states[m], p, states[m + 1]) && !states[m].procs[p].pc.ChainUnlock?
    ensures Busy(states, p, m + 1)
  {
    var h' := OwnMove(states, who, p, m, op, c, h);
    HistBusy(states, who, p, m + 1, op, c, h');
  }

  /** A call whose process ended at a limit has completed the deletion it wanted, and nothing is linked; a record that
      was added lies where no pointer leads. */
  lemma {:induction false} CallEnded(states: seq<State>, who: seq<Pid>, p: Pid, i: nat, j: nat, op: Op, c: nat)
      returns (h: History)
    requires Calling(states, who, p, i, j, op, c) && 1 <= c <= NHASH && i + 1 < j && who[j - 1] == p
    requires p in states[j - 1].procs && QuitStep(states[j - 1], p, states[j])
    ensures StoppedAt(states, who, p, h.stop, c) && WantsInsert(op, states[h.stop].procs[p].offset == 0)
    ensures AllWrites(states, who, p, i, j - 1, h.del + h.put)
    ensures if op == Replace then |h.del| == 3 && Deletes(states, h.del, c, h.x, h.gone) else h.del == []
    ensures h.put == [] || (Prepares(states, h.put, c, h.made) && h.made > PTR_MAX)
  {
    var m := j - 1;
    EndsThere(states[m], p, states[j]);
    assert Busy(states, p, m);
    h := SoFar(states, who, p, i, m, op, c);
    h := h.(made := states[m].procs[p].o);
  }

  lemma {:induction false} EndsThere(s: State, p: Pid, s': State)
    requires p in s.procs && QuitStep(s, p, s')
    ensures s.procs[p].pc.IdxWait? || (s.procs[p].pc.Link? && s.procs[p].o > PTR_MAX)
  {
  }
}
