/** Reference-counted objects under two kinds of lock, apue/threads/mutex2.c, for any number of threads. */
module FooRefs {
  import opened Basics
  import opened Lists

  const NHASH := 29
  const NULL: Ptr := 0

  type Tid = nat
  type Token = nat

  /** HASH: the id is converted to unsigned long first. */
  function Hash(id: int): (b: nat)
    ensures b < NHASH
  {
    if id < 0 then (id + 18446744073709551616) % NHASH else id % NHASH
  }

  datatype Lock = Open | Held(tid: Tid)

  /** Where an object is in its life: not yet in the table, in it, or taken out by the thread that frees it. */
  datatype Stage = Fresh(tid: Tid) | Listed | Dead(tid: Tid)

  datatype Foo = Foo(count: int, lock: Lock, id: int, next: Ptr, stage: Stage)

  /** One outstanding reference. */
  datatype Ref = Ref(owner: Tid, obj: Ptr)

  /** The next statement of a thread. */
  datatype Pc =
    | Idle
    | AllocWaitHash | AllocLink | AllocInsert | AllocWait | AllocUnlockHash | AllocUnlock
    | HoldWait | HoldCount | HoldUnlock
    | FindWaitHash | FindHead | FindTest | FindWait | FindCount | FindUnlock | FoundUnlockHash | FindUnlockHash
    | ReleWait | ReleTest | ReleDrop | ReleUnlock
    | LastUnlock | LastWaitHash | LastWait | LastRecheck
    | KeepDrop | KeepUnlock | KeepUnlockHash
    | UnlinkStart | UnlinkTest | UnlinkFirst | UnlinkWalk | UnlinkNext | UnlinkUnlockHash | UnlinkUnlock | FreeObj

  /** A thread: its statement, the variables fp, tfp and id, the reference it works with, the place of tfp in its chain,
      and the reference that its call has made. */
  datatype Thread = Thread(pc: Pc, fp: Ptr, tfp: Ptr, id: int, token: Token, at: nat, made: Token)

  datatype State = State(
    heap: map<Ptr, Foo>, heads: seq<Ptr>, hash: Lock, threads: map<Tid, Thread>, refs: map<Token, Ref>,
      chains: seq<seq<Ptr>>)

  // ----- Steps -----

  function Goto(s: State, t: Tid, pc: Pc): State
    requires t in s.threads
  {
    s.(threads := s.threads[t := s.threads[t].(pc := pc)])
  }

  function SetObj(s: State, p: Ptr, o: Foo): State {
    s.(heap := s.heap[p := o])
  }

  /** pthread_mutex_lock(&hashlock), when it is free. */
  ghost predicate LockHash(s: State, t: Tid, pc: Pc, s': State)
    requires t in s.threads
  {
    s.hash == Open && s' == Goto(s.(hash := Held(t)), t, pc)
  }

  ghost predicate UnlockHash(s: State, t: Tid, pc: Pc, s': State)
    requires t in s.threads
  {
    s' == Goto(s.(hash := Open), t, pc)
  }

  /** pthread_mutex_lock(&fp->f_lock), when it is free. */
  ghost predicate LockObj(s: State, t: Tid, pc: Pc, s': State)
    requires t in s.threads
  {
    var p := s.threads[t].fp;
    p in s.heap && s.heap[p].lock == Open && s' == Goto(SetObj(s, p, s.heap[p].(lock := Held(t))), t, pc)
  }

  ghost predicate UnlockObj(s: State, t: Tid, pc: Pc, s': State)
    requires t in s.threads
  {
    var p := s.threads[t].fp;
    p in s.heap && s' == Goto(SetObj(s, p, s.heap[p].(lock := Open)), t, pc)
  }

  /** fp->f_count++, which makes a new reference for the thread. */
  ghost predicate Count(s: State, t: Tid, pc: Pc, s': State)
    requires t in s.threads
  {
    exists k :: CountBy(s, t, k, pc, s')
  }

  ghost predicate CountBy(s: State, t: Tid, k: Token, pc: Pc, s': State)
    requires t in s.threads
  {
    var p := s.threads[t].fp;
    p in s.heap && k !in s.refs && s' == Counted(s, t, k, pc)
  }

  function Counted(s: State, t: Tid, k: Token, pc: Pc): State
    requires t in s.threads && s.threads[t].fp in s.heap
  {
    var p := s.threads[t].fp;
    SetObj(s, p, s.heap[p].(count := s.heap[p].count + 1))
      .(refs := s.refs[k := Ref(t, p)], threads := s.threads[t := s.threads[t].(pc := pc, made := k)])
  }

  /** fp->f_count--, which gives up the reference being released. */
  ghost predicate Drop(s: State, t: Tid, pc: Pc, s': State)
    requires t in s.threads
  {
    var p := s.threads[t].fp;
    p in s.heap &&
    s' == Goto(SetObj(s, p, s.heap[p].(count := s.heap[p].count - 1)), t, pc).(refs := s.refs - {s.threads[t].token})
  }

  /** Statements of foo_alloc. */
  ghost predicate AllocStep(s: State, t: Tid, s': State)
    requires t in s.threads && |s.heads| == |s.chains| == NHASH
  {
    var th := s.threads[t];
    var p := th.fp;
    match th.pc
    case AllocWaitHash => LockHash(s, t, AllocLink, s')
    case AllocLink =>
      p in s.heap && s' == Goto(SetObj(s, p, s.heap[p].(next := s.heads[Hash(s.heap[p].id)])), t, AllocInsert)
    case AllocInsert =>
      p in s.heap &&
      (var b := Hash(s.heap[p].id);
       s' == Goto(SetObj(s, p, s.heap[p].(stage := Listed)), t, AllocWait)
             .(heads := s.heads[b := p], chains := s.chains[b := [p] + s.chains[b]]))
    case AllocWait => LockObj(s, t, AllocUnlockHash, s')
    case AllocUnlockHash => UnlockHash(s, t, AllocUnlock, s')
    case AllocUnlock => UnlockObj(s, t, Idle, s')
    case _ => false
  }

  /** Statements of foo_hold. */
  ghost predicate HoldStep(s: State, t: Tid, s': State)
    requires t in s.threads && |s.heads| == |s.chains| == NHASH
  {
    var th := s.threads[t];
    var p := th.fp;
    match th.pc
    case HoldWait => LockObj(s, t, HoldCount, s')
    case HoldCount => Count(s, t, HoldUnlock, s')
    case HoldUnlock => UnlockObj(s, t, Idle, s')
    case _ => false
  }

  /** Statements of foo_find, with foo_hold in it. */
  ghost predicate FindStep(s: State, t: Tid, s': State)
    requires t in s.threads && |s.heads| == |s.chains| == NHASH
  {
    var th := s.threads[t];
    var p := th.fp;
    match th.pc
    case FindWaitHash => LockHash(s, t, FindHead, s')
    case FindHead => s' == Goto(s.(threads := s.threads[t := th.(fp := s.heads[Hash(th.id)], at := 0)]), t, FindTest)
    case FindTest =>
      if p == NULL then s' == Goto(s, t, FindUnlockHash)
      else
        p in s.heap &&
        if s.heap[p].id == th.id then s' == Goto(s, t, FindWait)
        else s' == s.(threads := s.threads[t := th.(fp := s.heap[p].next, at := th.at + 1)])
    case FindWait => LockObj(s, t, FindCount, s')
    case FindCount => Count(s, t, FindUnlock, s')
    case FindUnlock => UnlockObj(s, t, FoundUnlockHash, s')
    case FoundUnlockHash => UnlockHash(s, t, Idle, s')
    case FindUnlockHash => UnlockHash(s, t, Idle, s')
    case _ => false
  }

  /** Statements of foo_rele until it is clear whether the object goes. */
  ghost predicate ReleStep(s: State, t: Tid, s': State)
    requires t in s.threads && |s.heads| == |s.chains| == NHASH
  {
    var th := s.threads[t];
    var p := th.fp;
    match th.pc
    case ReleWait => LockObj(s, t, ReleTest, s')
    case ReleTest => p in s.heap && s' == Goto(s, t, if s.heap[p].count == 1 then LastUnlock else ReleDrop)
    case ReleDrop => Drop(s, t, ReleUnlock, s')
    case ReleUnlock => UnlockObj(s, t, Idle, s')
    case LastUnlock => UnlockObj(s, t, LastWaitHash, s')
    case LastWaitHash => LockHash(s, t, LastWait, s')
    case LastWait => LockObj(s, t, LastRecheck, s')
    case LastRecheck => p in s.heap && s' == Goto(s, t, if s.heap[p].count != 1 then KeepDrop else UnlinkStart)
    case KeepDrop => Drop(s, t, KeepUnlock, s')
    case KeepUnlock => UnlockObj(s, t, KeepUnlockHash, s')
    case KeepUnlockHash => UnlockHash(s, t, Idle, s')
    case _ => false
  }

  /** The end of foo_rele, where the object goes. */
  ghost predicate UnlinkStep(s: State, t: Tid, s': State)
    requires t in s.threads && |s.heads| == |s.chains| == NHASH
  {
    var th := s.threads[t];
    var p := th.fp;
    match th.pc
    case UnlinkStart =>
      p in s.heap && s' == Goto(s.(threads := s.threads[t := th.(tfp := s.heads[Hash(s.heap[p].id)], at := 0)]), t,
        UnlinkTest)
    case UnlinkTest => s' == Goto(s, t, if th.tfp == p then UnlinkFirst else UnlinkWalk)
    case UnlinkFirst =>
      p in s.heap &&
      (var b := Hash(s.heap[p].id);
       s' == Goto(SetObj(s, p, s.heap[p].(stage := Dead(t))), t, UnlinkUnlockHash)
             .(heads := s.heads[b := s.heap[p].next], chains := s.chains[b := Without(s.chains[b], 0)]))
    case UnlinkWalk =>
      th.tfp in s.heap &&
      if s.heap[th.tfp].next == p then s' == Goto(s, t, UnlinkNext)
      else s' == s.(threads := s.threads[t := th.(tfp := s.heap[th.tfp].next, at := th.at + 1)])
    case UnlinkNext =>
      p in s.heap && th.tfp in s.heap &&
      (var b := Hash(s.heap[p].id);
       s' == Goto(SetObj(SetObj(s, th.tfp, s.heap[th.tfp].(next := s.heap[p].next)), p, s.heap[p].(stage := Dead(t))),
         t, UnlinkUnlockHash)
             .(chains := s.chains[b := Without(s.chains[b], th.at + 1)]))
    case UnlinkUnlockHash => UnlockHash(s, t, UnlinkUnlock, s')
    case UnlinkUnlock => UnlockObj(s, t, FreeObj, s')
    case FreeObj => p in s.heap && s' == Goto(s.(heap := s.heap - {p}, refs := s.refs - {th.token}), t, Idle)
    case _ => false
  }

  /** A statement of a thread inside one of the four functions. */
  ghost predicate Inside(s: State, t: Tid, s': State)
    requires t in s.threads && |s.heads| == |s.chains| == NHASH
  {
    AllocStep(s, t, s') || HoldStep(s, t, s') || FindStep(s, t, s') || ReleStep(s, t, s') || UnlinkStep(s, t, s')
  }

  /** A thread that is in none of the functions calls one, or passes a reference on; it uses only references it owns. */
  ghost predicate Call(s: State, t: Tid, s': State)
    requires t in s.threads
  {
    s.threads[t].pc == Idle &&
    ((exists p: Ptr, k: Token, id :: CallAlloc(s, t, p, k, id, s')) || (exists k :: CallHold(s, t, k, s')) ||
     (exists id :: s' == Enter(s, t, FindWaitHash, NULL, id, 0)) || (exists k :: CallRele(s, t, k, s')) ||
     (exists k, u :: Give(s, t, k, u, s')))
  }

  function Enter(s: State, t: Tid, pc: Pc, fp: Ptr, id: int, k: Token): State {
    s.(threads := s.threads[t := Thread(pc, fp, NULL, id, k, 0, 0)])
  }

  /** malloc and the first assignments of foo_alloc. */
  ghost predicate CallAlloc(s: State, t: Tid, p: Ptr, k: Token, id: int, s': State) {
    p != NULL && p !in s.heap && k !in s.refs &&
    s' == Enter(s.(heap := s.heap[p := Foo(1, Open, id, NULL, Fresh(t))], refs := s.refs[k := Ref(t, p)]), t,
      AllocWaitHash, p, id, k)
  }

  ghost predicate CallHold(s: State, t: Tid, k: Token, s': State) {
    k in s.refs && s.refs[k].owner == t && s' == Enter(s, t, HoldWait, s.refs[k].obj, 0, k)
  }

  ghost predicate CallRele(s: State, t: Tid, k: Token, s': State) {
    k in s.refs && s.refs[k].owner == t && s' == Enter(s, t, ReleWait, s.refs[k].obj, 0, k)
  }

  ghost predicate Give(s: State, t: Tid, k: Token, u: Tid, s': State) {
    k in s.refs && s.refs[k].owner == t && u in s.threads && s' == s.(refs := s.refs[k := Ref(u, s.refs[k].obj)])
  }

  ghost predicate Step(s: State, t: Tid, s': State)
    requires |s.heads| == |s.chains| == NHASH
  {
    t in s.threads && (Inside(s, t, s') || Call(s, t, s'))
  }

  // ----- The invariant -----

  ghost predicate Sized(s: State) {
    |s.heads| == |s.chains| == NHASH
  }

  /** Holds hashlock. */
  predicate HoldsHash(pc: Pc) {
    pc.AllocLink? || pc.AllocInsert? || pc.AllocWait? || pc.AllocUnlockHash? ||
    pc.FindHead? || pc.FindTest? || pc.FindWait? || pc.FindCount? || pc.FindUnlock? || pc.FoundUnlockHash? ||
    pc.FindUnlockHash? ||
    pc.LastWait? || pc.LastRecheck? || pc.KeepDrop? || pc.KeepUnlock? || pc.KeepUnlockHash? || Unlinking(pc) ||
      pc.UnlinkUnlockHash?
  }

  /** Holds the lock of its object. */
  predicate HoldsObj(pc: Pc) {
    pc.AllocUnlockHash? || pc.AllocUnlock? || pc.HoldCount? || pc.HoldUnlock? || pc.FindCount? || pc.FindUnlock? ||
    pc.ReleTest? || pc.ReleDrop? || pc.ReleUnlock? || pc.LastUnlock? || pc.LastRecheck? || pc.KeepDrop? ||
      pc.KeepUnlock? ||
    Unlinking(pc) || pc.UnlinkUnlockHash? || pc.UnlinkUnlock?
  }

  /** Works with a reference of its own. */
  predicate UsesToken(pc: Pc) {
    Making(pc) || pc.AllocWait? || pc.AllocUnlockHash? || pc.AllocUnlock? || pc.HoldWait? || pc.HoldCount? ||
      pc.HoldUnlock? ||
    pc.ReleWait? || pc.ReleTest? || pc.ReleDrop? || pc.LastUnlock? || pc.LastWaitHash? || pc.LastWait? ||
      pc.LastRecheck? ||
    pc.KeepDrop? || Unlinking(pc) || Dying(pc)
  }

  predicate Making(pc: Pc) {
    pc.AllocWaitHash? || pc.AllocLink? || pc.AllocInsert?
  }

  predicate Unlinking(pc: Pc) {
    pc.UnlinkStart? || pc.UnlinkTest? || pc.UnlinkFirst? || pc.UnlinkWalk? || pc.UnlinkNext?
  }

  predicate Dying(pc: Pc) {
    pc.UnlinkUnlockHash? || pc.UnlinkUnlock? || pc.FreeObj?
  }

  /** The outstanding references to an object. */
  ghost function RefsTo(refs: map<Token, Ref>, p: Ptr): set<Token> {
    set k | k in refs && refs[k].obj == p
  }

  ghost predicate OwnedBy(refs: map<Token, Ref>, p: Ptr, t: Tid) {
    forall k :: k in refs && refs[k].obj == p ==> refs[k].owner == t
  }

  /** The only reference to p is k. */
  ghost predicate Sole(refs: map<Token, Ref>, p: Ptr, k: Token) {
    forall j :: j in refs && refs[j].obj == p ==> j == k
  }

  ghost predicate NodeOk(s: State, b: nat, i: nat)
    requires b < |s.chains| && i < |s.chains[b]|
  {
    var p := s.chains[b][i];
    p != NULL && p in s.heap && s.heap[p].stage == Listed && Hash(s.heap[p].id) == b &&
      s.heap[p].next == At(s.chains[b], i + 1)
  }

  ghost predicate ChainOk(s: State, b: nat)
    requires b < |s.chains| == |s.heads|
  {
    s.heads[b] == At(s.chains[b], 0) && Distinct(s.chains[b]) && forall i :: 0 <= i < |s.chains[b]| ==> NodeOk(s, b, i)
  }

  ghost predicate ObjOk(s: State, p: Ptr)
    requires p in s.heap && |s.chains| == NHASH
  {
    var o := s.heap[p];
    p != NULL && o.count == |RefsTo(s.refs, p)| &&
    (o.lock.Held? ==> o.lock.tid in s.threads && HoldsObj(s.threads[o.lock.tid].pc) && s.threads[o.lock.tid].fp == p) &&
    match o.stage
    case Listed => p in s.chains[Hash(o.id)]
    case Fresh(u) => o.lock == Open && OwnedBy(s.refs, p, u) && u in s.threads && Making(s.threads[u].pc) &&
      s.threads[u].fp == p
    case Dead(u) => OwnedBy(s.refs, p, u) && u in s.threads && Dying(s.threads[u].pc) && s.threads[u].fp == p
  }

  ghost function ChainOf(s: State, p: Ptr): seq<Ptr>
    requires p in s.heap && |s.chains| == NHASH
  {
    s.chains[Hash(s.heap[p].id)]
  }

  ghost predicate ThreadOk(s: State, t: Tid)
    requires t in s.threads && |s.heads| == |s.chains| == NHASH
  {
    var th := s.threads[t];
    var p := th.fp;
    (HoldsHash(th.pc) <==> s.hash == Held(t)) &&
    (HoldsObj(th.pc) ==> p in s.heap && s.heap[p].lock == Held(t)) &&
    (UsesToken(th.pc) ==> th.token in s.refs && s.refs[th.token] == Ref(t, p) && p in s.heap) &&
    (Making(th.pc) ==> s.heap[p].stage == Fresh(t)) &&
    (th.pc.AllocInsert? ==> s.heap[p].next == s.heads[Hash(s.heap[p].id)]) &&
    (th.pc.FindTest? ==> p == At(s.chains[Hash(th.id)], th.at)) &&
    (th.pc.FindWait? || th.pc.FindCount? ==> p in s.chains[Hash(th.id)]) &&
    (Unlinking(th.pc) ==> Sole(s.refs, p, th.token) && s.heap[p].stage == Listed) &&
    (th.pc.UnlinkTest? ==> th.tfp == At(ChainOf(s, p), 0) && th.at == 0) &&
    (th.pc.UnlinkFirst? ==> p == At(ChainOf(s, p), 0)) &&
    (th.pc.UnlinkWalk? ==> th.tfp == At(ChainOf(s, p), th.at) && th.tfp != NULL && p !in ChainOf(s, p)[..th.at + 1]) &&
    (th.pc.UnlinkNext? ==> th.tfp == At(ChainOf(s, p), th.at) && th.tfp != NULL && p == At(ChainOf(s, p), th.at + 1)) &&
    (Dying(th.pc) ==> s.heap[p].stage == Dead(t) && Sole(s.refs, p, th.token)) &&
    (th.pc.FreeObj? ==> s.heap[p].lock == Open)
  }

  ghost predicate Inv(s: State) {
    |s.heads| == |s.chains| == NHASH &&
    (s.hash.Held? ==> s.hash.tid in s.threads) &&
    (forall b :: 0 <= b < NHASH ==> ChainOk(s, b)) &&
    (forall k :: k in s.refs ==> s.refs[k].obj in s.heap) &&
    (forall p :: p in s.heap ==> ObjOk(s, p)) &&
    (forall t :: t in s.threads ==> ThreadOk(s, t))
  }

  lemma {:induction false} OkThread(s: State, t: Tid)
    requires Inv(s) && t in s.threads
    ensures ThreadOk(s, t)
  {
  }

  lemma {:induction false} OkObj(s: State, p: Ptr)
    requires Inv(s) && p in s.heap
    ensures ObjOk(s, p)
  {
  }

  /** What a step of another thread leaves as it was for thread u. */
  ghost predicate Spares(s: State, s': State, u: Tid)
    requires u in s.threads
  {
    var th := s.threads[u];
    var p := th.fp;
    |s'.heads| == |s'.chains| == NHASH && u in s'.threads && s'.threads[u] == th &&
      (s.hash == Held(u) <==> s'.hash == Held(u)) &&
    (UsesToken(th.pc) && th.token in s.refs ==> th.token in s'.refs && s'.refs[th.token] == s.refs[th.token]) &&
    ((HoldsObj(th.pc) || UsesToken(th.pc)) && p in s.heap ==>
      p in s'.heap && s'.heap[p].stage == s.heap[p].stage && s'.heap[p].id == s.heap[p].id) &&
    (th.pc.AllocInsert? && p in s.heap && p in s'.heap ==> s'.heap[p].next == s.heap[p].next) &&
    ((HoldsObj(th.pc) || th.pc.FreeObj?) && p in s.heap ==> p in s'.heap && s'.heap[p].lock == s.heap[p].lock) &&
    (s.hash == Held(u) ==> s'.heads == s.heads && s'.chains == s.chains) &&
    ((Unlinking(th.pc) || Dying(th.pc)) && Sole(s.refs, p, th.token) ==> Sole(s'.refs, p, th.token))
  }

  lemma {:induction false} SparedThread(s: State, s': State, u: Tid)
    requires u in s.threads && Sized(s) && ThreadOk(s, u) && Spares(s, s', u)
    ensures ThreadOk(s', u)
  {
  }

  /** Thread t is in order after its step, and the others were spared. */
  lemma {:induction false} SparedThreads(s: State, s': State, t: Tid)
    requires Sized(s) && Sized(s') && t in s.threads && s'.threads.Keys == s.threads.Keys && ThreadOk(s', t)
    requires forall u :: u in s.threads ==> ThreadOk(s, u)
    requires forall u :: u in s.threads && u != t ==> Spares(s, s', u)
    ensures forall u :: u in s'.threads ==> ThreadOk(s', u)
  {
    forall u | u in s'.threads && u != t ensures ThreadOk(s', u) { SparedThread(s, s', u); }
  }

  /** A thread that holds, makes or frees q still does. */
  ghost predicate KeepsRole(th: Thread, th': Thread, q: Ptr) {
    th.fp == q ==>
      (HoldsObj(th.pc) ==> HoldsObj(th'.pc) && th'.fp == q) && (Making(th.pc) ==> Making(th'.pc) && th'.fp == q) &&
      (Dying(th.pc) ==> Dying(th'.pc) && th'.fp == q)
  }

  /** What a step of thread t leaves as it was for object q. */
  lemma {:induction false} SparedObj(s: State, s': State, t: Tid, q: Ptr)
    requires |s.chains| == |s'.chains| == NHASH && q in s.heap && ObjOk(s, q) && q in s'.heap &&
      s'.heap[q] == s.heap[q].(next := s'.heap[q].next)
    requires t in s.threads && t in s'.threads && KeepsRole(s.threads[t], s'.threads[t], q)
    requires forall u :: u in s.threads && u != t ==> u in s'.threads && s'.threads[u] == s.threads[u]
    requires RefsTo(s'.refs, q) == RefsTo(s.refs, q) && forall k :: k in s.refs && s.refs[k].obj == q ==>
      k in s'.refs && s'.refs[k] == s.refs[k]
    requires q in s.chains[Hash(s.heap[q].id)] ==> q in s'.chains[Hash(s.heap[q].id)]
    ensures ObjOk(s', q)
  {
    forall k | k in s'.refs && s'.refs[k].obj == q ensures k in s.refs && s.refs[k] == s'.refs[k] {
      assert k in RefsTo(s'.refs, q);
    }
  }

  // ----- Steps of one thread alone -----

  /** Thread t moves on without touching anything shared. */
  lemma {:induction false} LocalKeeps(s: State, t: Tid, th: Thread, s': State)
    requires Inv(s) && t in s.threads && s' == s.(threads := s.threads[t := th])
    requires forall q :: KeepsRole(s.threads[t], th, q)
    requires ThreadOk(s', t)
    ensures Inv(s')
  {
    SameChains(s, s');
    forall p | p in s'.heap ensures ObjOk(s', p) {
      OkObj(s, p);
      SparedObj(s, s', t, p);
    }
    SparedThreads(s, s', t);
  }

  /** A chain whose nodes have not changed. */
  lemma {:induction false} SameChain(s: State, s': State, b: nat)
    requires b < |s.chains| == |s.heads| == |s'.chains| == |s'.heads|
    requires ChainOk(s, b) && s'.chains[b] == s.chains[b] && s'.heads[b] == s.heads[b]
    requires forall p :: p in s.chains[b] && p in s.heap ==> p in s'.heap && SameNode(s.heap[p], s'.heap[p])
    ensures ChainOk(s', b)
  {
    forall i | 0 <= i < |s.chains[b]| ensures NodeOk(s', b, i) {
      assert NodeOk(s, b, i) && s.chains[b][i] in s.chains[b];
    }
  }

  /** What a chain needs of a node. */
  predicate SameNode(o: Foo, o': Foo) {
    o'.next == o.next && o'.stage == o.stage && o'.id == o.id
  }

  /** The table and the nodes in it have not changed. */
  lemma {:induction false} SameChains(s: State, s': State)
    requires Sized(s) && (forall b :: 0 <= b < NHASH ==> ChainOk(s, b)) && s'.heads == s.heads && s'.chains == s.chains
    requires forall p :: p in s.heap ==> p in s'.heap && SameNode(s.heap[p], s'.heap[p])
    ensures forall b :: 0 <= b < NHASH ==> ChainOk(s', b)
  {
    forall b | 0 <= b < NHASH ensures ChainOk(s', b) { SameChain(s, s', b); }
  }

  lemma {:induction false} HashKeeps(s: State, t: Tid, lock: Lock, pc: Pc, s': State)
    requires Inv(s) && t in s.threads && HashChanges(s, t, lock, pc, s') && ThreadOk(s', t)
    ensures Inv(s')
  {
    SameChains(s, s');
    forall p | p in s'.heap ensures ObjOk(s', p) {
      OkObj(s, p);
      HashedObj(s, t, lock, pc, s', p);
    }
    forall u | u in s.threads && u != t ensures Spares(s, s', u) { HashSpares(s, t, lock, pc, s', u); }
    SparedThreads(s, s', t);
  }

  /** Thread t takes or gives back hashlock. */
  ghost predicate HashChanges(s: State, t: Tid, lock: Lock, pc: Pc, s': State)
    requires t in s.threads
  {
    var was := s.threads[t].pc;
    s' == Goto(s.(hash := lock), t, pc) &&
      (if lock == Open then s.hash == Held(t) else lock == Held(t) && s.hash == Open) &&
    (HoldsObj(was) ==> HoldsObj(pc)) && (Making(was) ==> Making(pc)) && (Dying(was) ==> Dying(pc))
  }

  lemma {:induction false} HashedObj(s: State, t: Tid, lock: Lock, pc: Pc, s': State, p: Ptr)
    requires Sized(s) && t in s.threads && HashChanges(s, t, lock, pc, s') && p in s.heap && ObjOk(s, p)
    ensures ObjOk(s', p)
  {
    SparedObj(s, s', t, p);
  }

  lemma {:induction false} HashSpares(s: State, t: Tid, lock: Lock, pc: Pc, s': State, u: Tid)
    requires Sized(s) && t in s.threads && u in s.threads && u != t && HashChanges(s, t, lock, pc, s')
    ensures Spares(s, s', u)
  {
  }

  /** The lock of an object is taken or given back. */
  lemma {:induction false} ObjLockKeeps(s: State, t: Tid, p: Ptr, lock: Lock, pc: Pc, s': State)
    requires Inv(s) && t in s.threads && LockChanges(s, t, p, lock, pc, s') && ThreadOk(s', t)
    ensures Inv(s')
  {
    SameChains(s, s');
    forall q | q in s'.heap ensures ObjOk(s', q) {
      OkObj(s, q);
      LockedObj(s, t, p, lock, pc, s', q);
    }
    forall u | u in s.threads && u != t ensures Spares(s, s', u) {
      OkThread(s, u);
      LockSpares(s, t, p, lock, pc, s', u);
    }
    SparedThreads(s, s', t);
  }

  /** Thread t takes or gives back the lock of p. */
  ghost predicate LockChanges(s: State, t: Tid, p: Ptr, lock: Lock, pc: Pc, s': State)
    requires t in s.threads
  {
    var was := s.threads[t].pc;
    p == s.threads[t].fp && p in s.heap && s' == Goto(SetObj(s, p, s.heap[p].(lock := lock)), t, pc) &&
    (if lock == Open then s.heap[p].lock == Held(t)
     else lock == Held(t) && s.heap[p].lock == Open && HoldsObj(pc) && s.heap[p].stage == Listed) &&
    (Making(was) ==> Making(pc)) && (Dying(was) ==> Dying(pc)) && (HoldsObj(was) ==> s.heap[p].lock == Held(t))
  }

  lemma {:induction false} LockSpares(s: State, t: Tid, p: Ptr, lock: Lock, pc: Pc, s': State, u: Tid)
    requires Sized(s) && t in s.threads && u in s.threads && u != t && LockChanges(s, t, p, lock, pc, s') &&
      ThreadOk(s, u)
    ensures Spares(s, s', u)
  {
  }

  lemma {:induction false} LockedObj(s: State, t: Tid, p: Ptr, lock: Lock, pc: Pc, s': State, q: Ptr)
    requires Sized(s) && t in s.threads && LockChanges(s, t, p, lock, pc, s') && q in s.heap && ObjOk(s, q)
    ensures ObjOk(s', q)
  {
    if q != p { SparedObj(s, s', t, q); }
  }

  /** A reference is added. */
  lemma {:induction false} CountKeeps(s: State, t: Tid, p: Ptr, k: Token, pc: Pc, s': State)
    requires Inv(s) && t in s.threads && p == s.threads[t].fp && CountBy(s, t, k, pc, s')
    requires HoldsObj(s.threads[t].pc) && HoldsObj(pc) && !Making(s.threads[t].pc) && !Dying(s.threads[t].pc)
    requires s.heap[p].stage == Listed
    requires forall u :: u in s.threads && u != t && Unlinking(s.threads[u].pc) ==> s.threads[u].fp != p
    requires ThreadOk(s', t)
    ensures Inv(s')
  {
    SameChains(s, s');
    forall q | q in s'.heap ensures ObjOk(s', q) {
      OkObj(s, q);
      CountedObj(s, t, p, k, pc, s', q);
    }
    forall u | u in s.threads && u != t ensures Spares(s, s', u) {
      OkThread(s, u);
      CountSpares(s, t, p, k, pc, s', u);
    }
    SparedThreads(s, s', t);
  }

  lemma {:induction false} CountSpares(s: State, t: Tid, p: Ptr, k: Token, pc: Pc, s': State, u: Tid)
    requires Sized(s) && t in s.threads && u in s.threads && u != t && p == s.threads[t].fp &&
      CountBy(s, t, k, pc, s') && ThreadOk(s, u)
    requires s.heap[p].stage == Listed && (Unlinking(s.threads[u].pc) ==> s.threads[u].fp != p)
    ensures Spares(s, s', u)
  {
  }

  lemma {:induction false} CountedObj(s: State, t: Tid, p: Ptr, k: Token, pc: Pc, s': State, q: Ptr)
    requires Sized(s) && t in s.threads && p == s.threads[t].fp && CountBy(s, t, k, pc, s') && q in s.heap &&
      ObjOk(s, q)
    requires HoldsObj(pc) && !Making(s.threads[t].pc) && !Dying(s.threads[t].pc) && s.heap[p].stage == Listed
    ensures ObjOk(s', q)
  {
    AddedRef(s.refs, k, Ref(t, p), q);
  }

  lemma AddedRef(refs: map<Token, Ref>, k: Token, r: Ref, q: Ptr)
    requires k !in refs
    ensures |RefsTo(refs[k := r], q)| == |RefsTo(refs, q)| + if r.obj == q then 1 else 0
  {
    if r.obj == q { assert RefsTo(refs[k := r], q) == RefsTo(refs, q) + {k}; }
    else { assert RefsTo(refs[k := r], q) == RefsTo(refs, q); }
  }

  lemma RemovedRef(refs: map<Token, Ref>, k: Token, q: Ptr)
    requires k in refs
    ensures |RefsTo(refs - {k}, q)| == |RefsTo(refs, q)| - if refs[k].obj == q then 1 else 0
  {
    if refs[k].obj == q { assert RefsTo(refs, q) == RefsTo(refs - {k}, q) + {k}; }
    else { assert RefsTo(refs - {k}, q) == RefsTo(refs, q); }
  }

  /** A reference is given up. */
  lemma {:induction false} DropKeeps(s: State, t: Tid, p: Ptr, k: Token, pc: Pc, s': State)
    requires Inv(s) && t in s.threads && p == s.threads[t].fp && k == s.threads[t].token &&
      UsesToken(s.threads[t].pc) && Drop(s, t, pc, s')
    requires HoldsObj(s.threads[t].pc) && HoldsObj(pc) && !Making(s.threads[t].pc) && !Dying(s.threads[t].pc)
    requires ThreadOk(s', t)
    ensures Inv(s')
  {
    SameChains(s, s');
    OkThread(s, t);
    forall q | q in s'.heap ensures ObjOk(s', q) {
      OkObj(s, q);
      DroppedObj(s, t, p, k, pc, s', q);
    }
    forall u | u in s.threads && u != t ensures Spares(s, s', u) {
      OkThread(s, u);
      DropSpares(s, t, k, pc, s', u);
    }
    SparedThreads(s, s', t);
  }

  lemma {:induction false} DroppedObj(s: State, t: Tid, p: Ptr, k: Token, pc: Pc, s': State, q: Ptr)
    requires Sized(s) && t in s.threads && p == s.threads[t].fp && k == s.threads[t].token && Drop(s, t, pc, s') &&
      q in s.heap && ObjOk(s, q)
    requires k in s.refs && s.refs[k] == Ref(t, p) && HoldsObj(pc) && !Making(s.threads[t].pc) &&
      !Dying(s.threads[t].pc)
    ensures ObjOk(s', q)
  {
    RemovedRef(s.refs, k, q);
  }

  lemma {:induction false} DropSpares(s: State, t: Tid, k: Token, pc: Pc, s': State, u: Tid)
    requires Sized(s) && t in s.threads && u in s.threads && u != t && k == s.threads[t].token && Drop(s, t, pc, s') &&
      ThreadOk(s, u)
    requires k in s.refs && s.refs[k].owner == t
    ensures Spares(s, s', u)
  {
  }

  /** malloc and the first assignments of foo_alloc. */
  lemma {:induction false} AllocKeeps(s: State, t: Tid, p: Ptr, k: Token, id: int, s': State)
    requires Inv(s) && t in s.threads && s.threads[t].pc == Idle && p != NULL && p !in s.heap && k !in s.refs
    requires CallAlloc(s, t, p, k, id, s')
    ensures Inv(s')
  {
    AllocSelf(s, t, p, k, id, s');
    SameChains(s, s');
    forall q | q in s.heap ensures ObjOk(s', q) { AllocObj(s, t, p, k, id, s', q); }
    forall u | u in s'.threads && u != t ensures ThreadOk(s', u) { AllocThread(s, t, p, k, id, s', u); }
  }

  lemma {:induction false} AllocSelf(s: State, t: Tid, p: Ptr, k: Token, id: int, s': State)
    requires Inv(s) && t in s.threads && s.threads[t].pc == Idle && p != NULL && p !in s.heap && k !in s.refs
    requires CallAlloc(s, t, p, k, id, s')
    ensures ThreadOk(s', t) && ObjOk(s', p)
  {
    OkThread(s, t);
    AllocRefs(s, t, p, k);
  }

  lemma {:induction false} AllocObj(s: State, t: Tid, p: Ptr, k: Token, id: int, s': State, q: Ptr)
    requires Inv(s) && t in s.threads && s.threads[t].pc == Idle && p != NULL && p !in s.heap && k !in s.refs &&
      q in s.heap
    requires CallAlloc(s, t, p, k, id, s')
    ensures ObjOk(s', q)
  {
    AllocRefs(s, t, p, k);
    OkObj(s, q);
    SparedObj(s, s', t, q);
  }

  lemma {:induction false} AllocThread(s: State, t: Tid, p: Ptr, k: Token, id: int, s': State, u: Tid)
    requires Inv(s) && t in s.threads && s.threads[t].pc == Idle && p != NULL && p !in s.heap && k !in s.refs &&
      u in s.threads && u != t
    requires CallAlloc(s, t, p, k, id, s')
    ensures ThreadOk(s', u)
  {
    OkThread(s, u);
    SparedThread(s, s', u);
  }

  lemma {:induction false} AllocRefs(s: State, t: Tid, p: Ptr, k: Token)
    requires Inv(s) && p !in s.heap && k !in s.refs
    ensures |RefsTo(s.refs[k := Ref(t, p)], p)| == 1 && OwnedBy(s.refs[k := Ref(t, p)], p, t)
    ensures forall q :: q in s.heap ==> RefsTo(s.refs[k := Ref(t, p)], q) == RefsTo(s.refs, q)
  {
    assert forall j :: j in s.refs ==> s.refs[j].obj != p;
    assert RefsTo(s.refs[k := Ref(t, p)], p) == {k};
  }

  /** fp->f_next = fh[idx]. */
  lemma {:induction false} LinkKeeps(s: State, t: Tid, p: Ptr, s': State)
    requires Inv(s) && t in s.threads && s.threads[t].pc == AllocLink && p == s.threads[t].fp && p in s.heap
    requires s' == Goto(SetObj(s, p, s.heap[p].(next := s.heads[Hash(s.heap[p].id)])), t, AllocInsert)
    ensures Inv(s')
  {
    OkThread(s, t);
    LinkSelf(s, t, p, s');
    forall b | 0 <= b < NHASH ensures ChainOk(s', b) {
      assert ThreadOk(s, t) && ChainOk(s, b);
      NotListed(s, p, b);
      SameChain(s, s', b);
    }
    forall q | q in s'.heap ensures ObjOk(s', q) { LinkObj(s, t, p, s', q); }
    forall u | u in s'.threads && u != t ensures ThreadOk(s', u) { LinkThread(s, t, p, s', u); }
  }

  lemma {:induction false} LinkSelf(s: State, t: Tid, p: Ptr, s': State)
    requires Sized(s) && t in s.threads && ThreadOk(s, t) && s.threads[t].pc == AllocLink && p == s.threads[t].fp &&
      p in s.heap
    requires s' == Goto(SetObj(s, p, s.heap[p].(next := s.heads[Hash(s.heap[p].id)])), t, AllocInsert)
    ensures ThreadOk(s', t)
  {
  }

  lemma {:induction false} LinkObj(s: State, t: Tid, p: Ptr, s': State, q: Ptr)
    requires Inv(s) && t in s.threads && s.threads[t].pc == AllocLink && p == s.threads[t].fp && p in s.heap &&
      q in s.heap
    requires s' == Goto(SetObj(s, p, s.heap[p].(next := s.heads[Hash(s.heap[p].id)])), t, AllocInsert)
    ensures ObjOk(s', q)
  {
    OkObj(s, q);
    SparedObj(s, s', t, q);
  }

  lemma {:induction false} LinkThread(s: State, t: Tid, p: Ptr, s': State, u: Tid)
    requires Inv(s) && t in s.threads && s.threads[t].pc == AllocLink && p == s.threads[t].fp && p in s.heap &&
      u in s.threads && u != t
    requires s' == Goto(SetObj(s, p, s.heap[p].(next := s.heads[Hash(s.heap[p].id)])), t, AllocInsert)
    ensures ThreadOk(s', u)
  {
    assert ThreadOk(s, u) && ThreadOk(s, t);
    SparedThread(s, s', u);
  }

  lemma {:induction false} NotListed(s: State, p: Ptr, b: nat)
    requires b < |s.chains| == |s.heads| && ChainOk(s, b) && p in s.heap &&
      (s.heap[p].stage != Listed || Hash(s.heap[p].id) != b)
    ensures p !in s.chains[b]
  {
    forall i | 0 <= i < |s.chains[b]| ensures s.chains[b][i] != p { assert NodeOk(s, b, i); }
  }

  /** fh[idx] = fp: the object is in the table. */
  lemma {:induction false} InsertKeeps(s: State, t: Tid, p: Ptr, b: nat, s': State)
    requires Inv(s) && t in s.threads && s.threads[t].pc == AllocInsert && p == s.threads[t].fp && p in s.heap &&
      b == Hash(s.heap[p].id)
    requires s' == Goto(SetObj(s, p, s.heap[p].(stage := Listed)), t, AllocWait).(heads := s.heads[b := p], chains :=
      s.chains[b := [p] + s.chains[b]])
    ensures Inv(s')
  {
    assert ThreadOk(s, t) && ObjOk(s, p);
    InsertSelf(s, t, p, b, s');
    forall c | 0 <= c < NHASH ensures ChainOk(s', c) { InsertChain(s, t, p, b, s', c); }
    forall q | q in s'.heap && q != p ensures ObjOk(s', q) { InsertObj(s, t, p, b, s', q); }
    forall u | u in s'.threads && u != t ensures ThreadOk(s', u) { InsertThread(s, t, p, b, s', u); }
  }

  lemma {:induction false} InsertSelf(s: State, t: Tid, p: Ptr, b: nat, s': State)
    requires Sized(s) && t in s.threads && s.threads[t].pc == AllocInsert && p == s.threads[t].fp && p in s.heap &&
      b == Hash(s.heap[p].id)
    requires s' == Goto(SetObj(s, p, s.heap[p].(stage := Listed)), t, AllocWait).(heads := s.heads[b := p], chains :=
      s.chains[b := [p] + s.chains[b]])
    requires ThreadOk(s, t) && ObjOk(s, p)
    ensures ThreadOk(s', t) && ObjOk(s', p) && s'.hash == s.hash == Held(t)
  {
  }

  lemma {:induction false} InsertChain(s: State, t: Tid, p: Ptr, b: nat, s': State, c: nat)
    requires Inv(s) && t in s.threads && s.threads[t].pc == AllocInsert && p == s.threads[t].fp && p in s.heap &&
      b == Hash(s.heap[p].id)
    requires s' == Goto(SetObj(s, p, s.heap[p].(stage := Listed)), t, AllocWait).(heads := s.heads[b := p], chains :=
      s.chains[b := [p] + s.chains[b]])
    requires c < NHASH
    ensures ChainOk(s', c)
  {
    assert ThreadOk(s, t) && ObjOk(s, p) && ChainOk(s, c);
    NotListed(s, p, c);
    if c == b { PushedChain(s, s', p, b); } else { SameChain(s, s', c); }
  }

  lemma {:induction false} InsertObj(s: State, t: Tid, p: Ptr, b: nat, s': State, q: Ptr)
    requires Inv(s) && t in s.threads && s.threads[t].pc == AllocInsert && p == s.threads[t].fp && p in s.heap &&
      b == Hash(s.heap[p].id)
    requires s' == Goto(SetObj(s, p, s.heap[p].(stage := Listed)), t, AllocWait).(heads := s.heads[b := p], chains :=
      s.chains[b := [p] + s.chains[b]])
    requires q in s.heap && q != p
    ensures ObjOk(s', q)
  {
    OkObj(s, q);
    SparedObj(s, s', t, q);
  }

  lemma {:induction false} InsertThread(s: State, t: Tid, p: Ptr, b: nat, s': State, u: Tid)
    requires Inv(s) && t in s.threads && s.threads[t].pc == AllocInsert && p == s.threads[t].fp && p in s.heap &&
      b == Hash(s.heap[p].id)
    requires s' == Goto(SetObj(s, p, s.heap[p].(stage := Listed)), t, AllocWait).(heads := s.heads[b := p], chains :=
      s.chains[b := [p] + s.chains[b]])
    requires u in s.threads && u != t
    ensures ThreadOk(s', u)
  {
    assert ThreadOk(s, u) && ThreadOk(s, t) && ObjOk(s, p);
    FreshElsewhere(s, t, p, u);
    SparedThread(s, s', u);
  }

  /** No other thread works with an object that is new or dead. */
  lemma {:induction false} FreshElsewhere(s: State, t: Tid, p: Ptr, u: Tid)
    requires Inv(s) && t in s.threads && u in s.threads && u != t && p in s.heap && OwnedBy(s.refs, p, t) &&
      s.heap[p].lock != Held(u)
    ensures (HoldsObj(s.threads[u].pc) || UsesToken(s.threads[u].pc)) ==> s.threads[u].fp != p
  {
    OkThread(s, u);
  }

  lemma {:induction false} PushedChain(s: State, s': State, p: Ptr, b: nat)
    requires b < |s.chains| == |s.heads| == |s'.chains| == |s'.heads| && ChainOk(s, b) && p in s.heap && p != NULL &&
      p !in s.chains[b]
    requires s'.chains[b] == [p] + s.chains[b] && s'.heads[b] == p && Hash(s.heap[p].id) == b &&
      s.heap[p].next == s.heads[b]
    requires s'.heap == s.heap[p := s.heap[p].(stage := Listed)]
    ensures ChainOk(s', b)
  {
    var c, d := s.chains[b], s'.chains[b];
    forall i | 0 <= i < |d| ensures NodeOk(s', b, i) {
      if i > 0 { assert NodeOk(s, b, i - 1) && d[i] == c[i - 1] && c[i - 1] in c; assert At(d, i + 1) == At(c, i); }
      else { assert At(d, 1) == At(c, 0); }
    }
  }

  /** Thread t takes p, node i of chain b, out of the table. */
  ghost predicate Unlinks(s: State, t: Tid, p: Ptr, b: nat, i: nat, s': State)
    requires |s.heads| == |s.chains| == NHASH
  {
    t in s.threads && Unlinking(s.threads[t].pc) && p == s.threads[t].fp && p in s.heap && b == Hash(s.heap[p].id) &&
    i < |s.chains[b]| && s.chains[b][i] == p &&
    (i > 0 ==> s.chains[b][i - 1] in s.heap && s.chains[b][i - 1] != p) &&
    s'.heap == (if i == 0 then s.heap
      else s.heap[s.chains[b][i - 1] := s.heap[s.chains[b][i - 1]].(next := s.heap[p].next)])
               [p := s.heap[p].(stage := Dead(t))] &&
    s'.heads == (if i == 0 then s.heads[b := s.heap[p].next] else s.heads) &&
    s'.chains == s.chains[b := Without(s.chains[b], i)] &&
    s'.threads == s.threads[t := s.threads[t].(pc := UnlinkUnlockHash)] && s'.hash == s.hash && s'.refs == s.refs
  }

  lemma {:induction false} UnlinkKeeps(s: State, t: Tid, p: Ptr, b: nat, i: nat, s': State)
    requires Inv(s) && Unlinks(s, t, p, b, i, s')
    ensures Inv(s')
  {
    UnlinkSelf(s, t, p, b, i, s');
    forall c | 0 <= c < NHASH ensures ChainOk(s', c) {
      assert ChainOk(s, b) && ChainOk(s, c);
      UnlinkChain(s, t, p, b, i, s', c);
    }
    forall q | q in s'.heap && q != p ensures ObjOk(s', q) { UnlinkObj(s, t, p, b, i, s', q); }
    forall u | u in s'.threads && u != t ensures ThreadOk(s', u) { UnlinkThread(s, t, p, b, i, s', u); }
  }

  lemma {:induction false} UnlinkSelf(s: State, t: Tid, p: Ptr, b: nat, i: nat, s': State)
    requires Inv(s) && Unlinks(s, t, p, b, i, s')
    ensures ThreadOk(s', t) && ObjOk(s', p) && s'.hash == s.hash == Held(t) && s'.heap.Keys == s.heap.Keys
  {
    assert ThreadOk(s, t) && ObjOk(s, p);
  }

  lemma {:induction false} UnlinkChain(s: State, t: Tid, p: Ptr, b: nat, i: nat, s': State, c: nat)
    requires Sized(s) && Unlinks(s, t, p, b, i, s') && c < NHASH && ChainOk(s, b) && ChainOk(s, c)
    ensures ChainOk(s', c)
  {
    assert NodeOk(s, b, i);
    if c == b {
      CutChain(s, s', b, i);
    } else {
      NotListed(s, p, c);
      if i > 0 { assert NodeOk(s, b, i - 1); NotListed(s, s.chains[b][i - 1], c); }
      SameChain(s, s', c);
    }
  }

  lemma {:induction false} CutChain(s: State, s': State, b: nat, i: nat)
    requires b < |s.chains| == |s.heads| == |s'.chains| == |s'.heads| && ChainOk(s, b) && i < |s.chains[b]|
    requires s'.chains[b] == Without(s.chains[b], i) && s'.heads[b] == if i == 0 then At(s.chains[b], 1) else s.heads[b]
    requires forall q :: q in s.heap && q != s.chains[b][i] ==>
      q in s'.heap && s'.heap[q] == s.heap[q].(next := if i > 0 && q == s.chains[b][i - 1] then At(s.chains[b], i + 1)
        else s.heap[q].next)
    ensures ChainOk(s', b)
  {
    var c, d := s.chains[b], s'.chains[b];
    forall j | 0 <= j < |d| ensures NodeOk(s', b, j) {
      var k := if j < i then j else j + 1;
      assert d[j] == c[k] && NodeOk(s, b, k) && c[k] != c[i];
      assert At(d, j + 1) == if j + 1 == i then At(c, i + 1) else At(c, k + 1);
    }
    forall x, y | 0 <= x < y < |d| ensures d[x] != d[y] {
      assert d[x] == c[if x < i then x else x + 1] && d[y] == c[if y < i then y else y + 1];
    }
  }

  lemma {:induction false} UnlinkObj(s: State, t: Tid, p: Ptr, b: nat, i: nat, s': State, q: Ptr)
    requires Inv(s) && Unlinks(s, t, p, b, i, s') && q in s.heap && q != p
    ensures ObjOk(s', q)
  {
    OkObj(s, q);
    assert ChainOk(s, b);
    WithoutMembers(s.chains[b], i);
    SparedObj(s, s', t, q);
  }

  lemma {:induction false} UnlinkThread(s: State, t: Tid, p: Ptr, b: nat, i: nat, s': State, u: Tid)
    requires Inv(s) && Unlinks(s, t, p, b, i, s') && u in s.threads && u != t
    ensures ThreadOk(s', u)
  {
    assert ThreadOk(s, u) && ThreadOk(s, t) && ChainOk(s, b) && NodeOk(s, b, i);
    if i > 0 { assert NodeOk(s, b, i - 1); }
    FreshElsewhere(s, t, p, u);
    SparedThread(s, s', u);
  }

  /** The object is freed: nobody else can reach it. */
  lemma {:induction false} FreeKeeps(s: State, t: Tid, p: Ptr, k: Token, s': State)
    requires Inv(s) && t in s.threads && s.threads[t].pc == FreeObj && p == s.threads[t].fp &&
      k == s.threads[t].token && p in s.heap
    requires s' == Goto(s.(heap := s.heap - {p}, refs := s.refs - {k}), t, Idle)
    ensures Inv(s')
  {
    OkThread(s, t);
    FreeSelf(s, t, p, k, s');
    forall b | 0 <= b < NHASH ensures ChainOk(s', b) { FreeChain(s, t, p, k, s', b); }
    forall q | q in s'.heap ensures ObjOk(s', q) {
      OkObj(s, q);
      FreeObject(s, t, p, k, s', q);
    }
    forall u | u in s'.threads && u != t ensures ThreadOk(s', u) { FreeThread(s, t, p, k, s', u); }
  }

  lemma {:induction false} FreeSelf(s: State, t: Tid, p: Ptr, k: Token, s': State)
    requires Sized(s) && t in s.threads && s.threads[t].pc == FreeObj && p == s.threads[t].fp &&
      k == s.threads[t].token && p in s.heap
    requires s' == Goto(s.(heap := s.heap - {p}, refs := s.refs - {k}), t, Idle) && ThreadOk(s, t)
    ensures ThreadOk(s', t) && Sole(s.refs, p, k)
  {
  }

  lemma {:induction false} FreeChain(s: State, t: Tid, p: Ptr, k: Token, s': State, b: nat)
    requires Inv(s) && t in s.threads && s.threads[t].pc == FreeObj && p == s.threads[t].fp &&
      k == s.threads[t].token && p in s.heap
    requires s' == Goto(s.(heap := s.heap - {p}, refs := s.refs - {k}), t, Idle) && b < NHASH
    ensures ChainOk(s', b)
  {
    assert ThreadOk(s, t) && ChainOk(s, b);
    NotListed(s, p, b);
    SameChain(s, s', b);
  }

  lemma {:induction false} FreeObject(s: State, t: Tid, p: Ptr, k: Token, s': State, q: Ptr)
    requires Sized(s) && t in s.threads && s.threads[t].pc == FreeObj && p == s.threads[t].fp && k in s.refs &&
      s.refs[k].obj == p
    requires s' == Goto(s.(heap := s.heap - {p}, refs := s.refs - {k}), t, Idle) && q in s.heap && q != p && ObjOk(s, q)
    ensures ObjOk(s', q)
  {
    assert RefsTo(s'.refs, q) == RefsTo(s.refs, q);
    SparedObj(s, s', t, q);
  }

  lemma {:induction false} FreeThread(s: State, t: Tid, p: Ptr, k: Token, s': State, u: Tid)
    requires Inv(s) && t in s.threads && s.threads[t].pc == FreeObj && p == s.threads[t].fp &&
      k == s.threads[t].token && p in s.heap
    requires s' == Goto(s.(heap := s.heap - {p}, refs := s.refs - {k}), t, Idle) && u in s.threads && u != t
    ensures ThreadOk(s', u)
  {
    assert ThreadOk(s, u) && ThreadOk(s, t) && ObjOk(s, p);
    FreshElsewhere(s, t, p, u);
    SparedThread(s, s', u);
  }

  /** A thread outside the functions passes a reference on. */
  lemma {:induction false} GiveKeeps(s: State, t: Tid, k: Token, u: Tid, s': State)
    requires Inv(s) && t in s.threads && s.threads[t].pc == Idle && Give(s, t, k, u, s')
    ensures Inv(s')
  {
    SameChains(s, s');
    forall q | q in s'.heap ensures ObjOk(s', q) {
      OkObj(s, q);
      GiveObj(s, t, k, u, s', q);
    }
    forall w | w in s.threads && w != t ensures Spares(s, s', w) {
      OkThread(s, w);
      GiveSpares(s, t, k, u, s', w);
    }
    OkThread(s, t);
    SparedThreads(s, s', t);
  }

  lemma {:induction false} GiveSpares(s: State, t: Tid, k: Token, u: Tid, s': State, w: Tid)
    requires Sized(s) && t in s.threads && w in s.threads && w != t && Give(s, t, k, u, s') && ThreadOk(s, w)
    ensures Spares(s, s', w)
  {
  }

  lemma {:induction false} GiveObj(s: State, t: Tid, k: Token, u: Tid, s': State, q: Ptr)
    requires Sized(s) && t in s.threads && s.threads[t].pc == Idle && Give(s, t, k, u, s') && q in s.heap && ObjOk(s, q)
    ensures ObjOk(s', q)
  {
    assert RefsTo(s'.refs, q) == RefsTo(s.refs, q);
  }

  // ----- Every step keeps the invariant -----

  /** A thread that works with a reference, and neither makes nor frees the object, finds it in the table. */
  lemma {:induction false} TokenListed(s: State, t: Tid)
    requires Inv(s) && t in s.threads && UsesToken(s.threads[t].pc) && !Making(s.threads[t].pc) &&
      !Dying(s.threads[t].pc)
    ensures s.threads[t].fp in s.heap && s.heap[s.threads[t].fp].stage == Listed
    ensures s.threads[t].fp in s.chains[Hash(s.heap[s.threads[t].fp].id)]
  {
    assert ThreadOk(s, t) && ObjOk(s, s.threads[t].fp);
  }

  lemma {:induction false} ChainListed(s: State, b: nat, p: Ptr)
    requires Inv(s) && b < NHASH && p in s.chains[b]
    ensures p != NULL && p in s.heap && s.heap[p].stage == Listed
  {
    assert ChainOk(s, b);
    var i :| 0 <= i < |s.chains[b]| && s.chains[b][i] == p;
    assert NodeOk(s, b, i);
  }

  lemma SoleByCount(refs: map<Token, Ref>, p: Ptr, k: Token)
    requires k in refs && refs[k].obj == p && |RefsTo(refs, p)| == 1
    ensures Sole(refs, p, k)
  {
    forall j | j in refs && refs[j].obj == p ensures j == k {
      if j != k {
        assert {j, k} <= RefsTo(refs, p);
        SubsetSize({j, k}, RefsTo(refs, p));
      }
    }
  }

  lemma {:induction false} HeadOk(s: State, t: Tid, s': State)
    requires Sized(s) && t in s.threads && ThreadOk(s, t) && ChainOk(s, Hash(s.threads[t].id))
    requires FindStep(s, t, s') && s.threads[t].pc.FindHead?
    ensures ThreadOk(s', t) && s' == s.(threads := s.threads[t := s'.threads[t]])
  {
  }

  lemma {:induction false} LookOk(s: State, t: Tid, s': State)
    requires Sized(s) && t in s.threads && ThreadOk(s, t) && ChainOk(s, Hash(s.threads[t].id))
    requires FindStep(s, t, s') && s.threads[t].pc.FindTest?
    ensures ThreadOk(s', t) && s' == s.(threads := s.threads[t := s'.threads[t]])
  {
    var th := s.threads[t];
    if th.fp != NULL {
      var b := Hash(th.id);
      assert NodeOk(s, b, th.at) && th.fp in s.chains[b];
    }
    LookingOk(s', t);
  }

  lemma {:induction false} LookingOk(s: State, t: Tid)
    requires Sized(s) && t in s.threads && s.hash == Held(t)
    requires var th := s.threads[t];
      th.pc.FindUnlockHash? || (th.pc.FindTest? && th.fp == At(s.chains[Hash(th.id)], th.at)) ||
      (th.pc.FindWait? && th.fp in s.chains[Hash(th.id)])
    ensures ThreadOk(s, t)
  {
  }

  /** Both tests of the count. When the second sees 1 the thread has both locks, and its reference is the only one. */
  lemma {:induction false} TestOk(s: State, t: Tid, s': State)
    requires Sized(s) && t in s.threads && ThreadOk(s, t) && s.threads[t].fp in s.heap && ObjOk(s, s.threads[t].fp)
    requires ReleStep(s, t, s') && (s.threads[t].pc.ReleTest? || s.threads[t].pc.LastRecheck?)
    ensures ThreadOk(s', t) && s' == Goto(s, t, s'.threads[t].pc)
    ensures s'.threads[t].pc.UnlinkStart? <==> s.threads[t].pc.LastRecheck? && s.heap[s.threads[t].fp].count == 1
    ensures s'.threads[t].pc.UnlinkStart? ==>
      var p := s.threads[t].fp;
      s.hash == Held(t) && s.heap[p].lock == Held(t) && RefsTo(s.refs, p) == {s.threads[t].token}
  {
    var th := s.threads[t];
    if th.pc.LastRecheck? && s.heap[th.fp].count == 1 { SoleByCount(s.refs, th.fp, th.token); }
  }

  lemma {:induction false} StartOk(s: State, t: Tid, s': State)
    requires Sized(s) && t in s.threads && ThreadOk(s, t) && s.threads[t].fp in s.heap
    requires ChainOk(s, Hash(s.heap[s.threads[t].fp].id)) && s.threads[t].fp in ChainOf(s, s.threads[t].fp)
    requires UnlinkStep(s, t, s') && (s.threads[t].pc.UnlinkStart? || s.threads[t].pc.UnlinkTest?)
    ensures ThreadOk(s', t) && s' == s.(threads := s.threads[t := s'.threads[t]])
  {
    var c := ChainOf(s, s.threads[t].fp);
    assert NodeOk(s, Hash(s.heap[s.threads[t].fp].id), 0) && c[..1] == [c[0]];
  }

  lemma {:induction false} WalkOk(s: State, t: Tid, s': State)
    requires Sized(s) && t in s.threads && ThreadOk(s, t) && s.threads[t].fp in s.heap
    requires ChainOk(s, Hash(s.heap[s.threads[t].fp].id)) && s.threads[t].fp in ChainOf(s, s.threads[t].fp)
    requires UnlinkStep(s, t, s') && s.threads[t].pc.UnlinkWalk?
    ensures ThreadOk(s', t) && s' == s.(threads := s.threads[t := s'.threads[t]])
  {
    var th := s.threads[t];
    var p, at := th.fp, th.at;
    var b := Hash(s.heap[p].id);
    var c := s.chains[b];
    StillAhead(c, p, at);
    assert NodeOk(s, b, at) && NodeOk(s, b, at + 1);
    assert c[..at + 2] == c[..at + 1] + [c[at + 1]];
  }

  lemma StillAhead(c: seq<Ptr>, p: Ptr, at: nat)
    requires p in c && at < |c| && p !in c[..at + 1]
    ensures at + 1 < |c|
  {
    assert c[..|c|] == c;
  }

  // Each kind of shared statement with the places where it stands.

  predicate LockHashAt(pc: Pc, next: Pc) {
    (pc.AllocWaitHash? && next.AllocLink?) || (pc.FindWaitHash? && next.FindHead?) ||
      (pc.LastWaitHash? && next.LastWait?)
  }

  predicate UnlockHashAt(pc: Pc, next: Pc) {
    (pc.AllocUnlockHash? && next.AllocUnlock?) || ((pc.FindUnlockHash? || pc.FoundUnlockHash?) && next.Idle?) ||
      (pc.KeepUnlockHash? && next.Idle?) ||
    (pc.UnlinkUnlockHash? && next.UnlinkUnlock?)
  }

  predicate LockAt(pc: Pc, next: Pc) {
    (pc.AllocWait? && next.AllocUnlockHash?) || (pc.HoldWait? && next.HoldCount?) ||
      (pc.FindWait? && next.FindCount?) ||
    (pc.ReleWait? && next.ReleTest?) || (pc.LastWait? && next.LastRecheck?)
  }

  predicate UnlockAt(pc: Pc, next: Pc) {
    (pc.AllocUnlock? && next.Idle?) || (pc.HoldUnlock? && next.Idle?) || (pc.FindUnlock? && next.FoundUnlockHash?) ||
    (pc.ReleUnlock? && next.Idle?) || (pc.LastUnlock? && next.LastWaitHash?) ||
      (pc.KeepUnlock? && next.KeepUnlockHash?) ||
    (pc.UnlinkUnlock? && next.FreeObj?)
  }

  lemma {:induction false} LockHashSelf(s: State, t: Tid, pc: Pc, s': State)
    requires Sized(s) && t in s.threads && ThreadOk(s, t) && LockHash(s, t, pc, s') && LockHashAt(s.threads[t].pc, pc)
    ensures ThreadOk(s', t) && HashChanges(s, t, Held(t), pc, s')
  {
  }

  lemma {:induction false} UnlockHashSelf(s: State, t: Tid, pc: Pc, s': State)
    requires Sized(s) && t in s.threads && ThreadOk(s, t) && UnlockHash(s, t, pc, s') &&
      UnlockHashAt(s.threads[t].pc, pc)
    ensures ThreadOk(s', t) && HashChanges(s, t, Open, pc, s')
  {
  }

  lemma {:induction false} HashStep(s: State, t: Tid, pc: Pc, s': State)
    requires Inv(s) && t in s.threads
    requires (LockHash(s, t, pc, s') && LockHashAt(s.threads[t].pc, pc)) ||
             (UnlockHash(s, t, pc, s') && UnlockHashAt(s.threads[t].pc, pc))
    ensures Inv(s')
  {
    OkThread(s, t);
    if LockHashAt(s.threads[t].pc, pc) {
      LockHashSelf(s, t, pc, s');
      HashKeeps(s, t, Held(t), pc, s');
    } else {
      UnlockHashSelf(s, t, pc, s');
      HashKeeps(s, t, Open, pc, s');
    }
  }

  lemma {:induction false} LockSelf(s: State, t: Tid, pc: Pc, s': State)
    requires Sized(s) && t in s.threads && ThreadOk(s, t)
    requires LockObj(s, t, pc, s') && LockAt(s.threads[t].pc, pc)
    ensures ThreadOk(s', t)
  {
  }

  lemma {:induction false} UnlockSelf(s: State, t: Tid, pc: Pc, s': State)
    requires Sized(s) && t in s.threads && ThreadOk(s, t)
    requires UnlockObj(s, t, pc, s') && UnlockAt(s.threads[t].pc, pc)
    ensures ThreadOk(s', t)
  {
  }

  lemma {:induction false} LockStep(s: State, t: Tid, pc: Pc, s': State)
    requires Inv(s) && t in s.threads && LockObj(s, t, pc, s') && LockAt(s.threads[t].pc, pc)
    ensures Inv(s')
  {
    var th := s.threads[t];
    OkThread(s, t);
    if th.pc.FindWait? { ChainListed(s, Hash(th.id), th.fp); } else { TokenListed(s, t); }
    LockSelf(s, t, pc, s');
    ObjLockKeeps(s, t, th.fp, Held(t), pc, s');
  }

  lemma {:induction false} UnlockStep(s: State, t: Tid, pc: Pc, s': State)
    requires Inv(s) && t in s.threads && UnlockObj(s, t, pc, s') && UnlockAt(s.threads[t].pc, pc)
    ensures Inv(s')
  {
    OkThread(s, t);
    UnlockSelf(s, t, pc, s');
    ObjLockKeeps(s, t, s.threads[t].fp, Open, pc, s');
  }

  lemma {:induction false} CountSelf(s: State, t: Tid, k: Token, pc: Pc, s': State)
    requires Sized(s) && t in s.threads && ThreadOk(s, t) && CountBy(s, t, k, pc, s')
    requires (s.threads[t].pc.HoldCount? && pc.HoldUnlock?) || (s.threads[t].pc.FindCount? && pc.FindUnlock?)
    ensures ThreadOk(s', t)
  {
  }

  lemma {:induction false} CountStep(s: State, t: Tid, pc: Pc, s': State)
    requires Inv(s) && t in s.threads && Count(s, t, pc, s')
    requires (s.threads[t].pc.HoldCount? && pc.HoldUnlock?) || (s.threads[t].pc.FindCount? && pc.FindUnlock?)
    ensures Inv(s')
  {
    CountListed(s, t);
    NobodyUnlinks(s, t);
    var k :| CountBy(s, t, k, pc, s');
    OkThread(s, t);
    CountSelf(s, t, k, pc, s');
    CountKeeps(s, t, s.threads[t].fp, k, pc, s');
  }

  lemma {:induction false} CountListed(s: State, t: Tid)
    requires Inv(s) && t in s.threads && (s.threads[t].pc.HoldCount? || s.threads[t].pc.FindCount?)
    ensures s.threads[t].fp in s.heap && s.heap[s.threads[t].fp].stage == Listed
  {
    var th := s.threads[t];
    OkThread(s, t);
    if th.pc.FindCount? { ChainListed(s, Hash(th.id), th.fp); } else { TokenListed(s, t); }
  }

  lemma {:induction false} NobodyUnlinks(s: State, t: Tid)
    requires Inv(s) && t in s.threads && (s.threads[t].pc.HoldCount? || s.threads[t].pc.FindCount?)
    ensures forall u :: u in s.threads && u != t && Unlinking(s.threads[u].pc) ==> s.threads[u].fp != s.threads[t].fp
  {
    OkThread(s, t);
    forall u | u in s.threads && u != t && Unlinking(s.threads[u].pc) ensures s.threads[u].fp != s.threads[t].fp {
      OkThread(s, u);
      CountApart(s, t, u);
    }
  }

  /** Nobody unlinks the object whose count is going up. */
  lemma {:induction false} CountApart(s: State, t: Tid, u: Tid)
    requires Sized(s) && t in s.threads && u in s.threads && u != t && ThreadOk(s, t) && ThreadOk(s, u)
    requires (s.threads[t].pc.HoldCount? || s.threads[t].pc.FindCount?) && Unlinking(s.threads[u].pc)
    ensures s.threads[u].fp != s.threads[t].fp
  {
  }

  lemma {:induction false} DropSelf(s: State, t: Tid, pc: Pc, s': State)
    requires Sized(s) && t in s.threads && ThreadOk(s, t) && Drop(s, t, pc, s')
    requires (s.threads[t].pc.ReleDrop? && pc.ReleUnlock?) || (s.threads[t].pc.KeepDrop? && pc.KeepUnlock?)
    ensures ThreadOk(s', t)
  {
    var was := s.threads[t].pc;
    assert HoldsObj(was) && HoldsObj(pc) && (HoldsHash(was) <==> HoldsHash(pc));
    assert !UsesToken(pc);
  }

  lemma {:induction false} DropStep(s: State, t: Tid, pc: Pc, s': State)
    requires Inv(s) && t in s.threads && Drop(s, t, pc, s')
    requires (s.threads[t].pc.ReleDrop? && pc.ReleUnlock?) || (s.threads[t].pc.KeepDrop? && pc.KeepUnlock?)
    ensures Inv(s')
  {
    OkThread(s, t);
    DropSelf(s, t, pc, s');
    DropKeeps(s, t, s.threads[t].fp, s.threads[t].token, pc, s');
  }

  lemma {:induction false} AllocStepKeeps(s: State, t: Tid, s': State)
    requires Inv(s) && t in s.threads && AllocStep(s, t, s')
    ensures Inv(s')
  {
    var p := s.threads[t].fp;
    match s.threads[t].pc
    case AllocWaitHash => HashStep(s, t, AllocLink, s');
    case AllocLink => LinkKeeps(s, t, p, s');
    case AllocInsert => InsertKeeps(s, t, p, Hash(s.heap[p].id), s');
    case AllocWait => LockStep(s, t, AllocUnlockHash, s');
    case AllocUnlockHash => HashStep(s, t, AllocUnlock, s');
    case AllocUnlock => UnlockStep(s, t, Idle, s');
    case _ =>
  }

  lemma {:induction false} HoldStepKeeps(s: State, t: Tid, s': State)
    requires Inv(s) && t in s.threads && HoldStep(s, t, s')
    ensures Inv(s')
  {
    match s.threads[t].pc
    case HoldWait => LockStep(s, t, HoldCount, s');
    case HoldCount => CountStep(s, t, HoldUnlock, s');
    case HoldUnlock => UnlockStep(s, t, Idle, s');
    case _ =>
  }

  lemma {:induction false} LookKeeps(s: State, t: Tid, s': State)
    requires Inv(s) && t in s.threads && FindStep(s, t, s') && (s.threads[t].pc.FindHead? || s.threads[t].pc.FindTest?)
    ensures Inv(s')
  {
    assert ThreadOk(s, t) && ChainOk(s, Hash(s.threads[t].id));
    if s.threads[t].pc.FindHead? { HeadOk(s, t, s'); } else { LookOk(s, t, s'); }
    LocalKeeps(s, t, s'.threads[t], s');
  }

  lemma {:induction false} FindStepKeeps(s: State, t: Tid, s': State)
    requires Inv(s) && t in s.threads && FindStep(s, t, s')
    ensures Inv(s')
  {
    match s.threads[t].pc
    case FindWaitHash => HashStep(s, t, FindHead, s');
    case FindHead => LookKeeps(s, t, s');
    case FindTest => LookKeeps(s, t, s');
    case FindWait => LockStep(s, t, FindCount, s');
    case FindCount => CountStep(s, t, FindUnlock, s');
    case FindUnlock => UnlockStep(s, t, FoundUnlockHash, s');
    case FoundUnlockHash => HashStep(s, t, Idle, s');
    case FindUnlockHash => HashStep(s, t, Idle, s');
    case _ =>
  }

  lemma {:induction false} TestKeeps(s: State, t: Tid, s': State)
    requires Inv(s) && t in s.threads && ReleStep(s, t, s') &&
      (s.threads[t].pc.ReleTest? || s.threads[t].pc.LastRecheck?)
    ensures Inv(s')
  {
    assert ThreadOk(s, t) && ObjOk(s, s.threads[t].fp);
    TestOk(s, t, s');
    LocalKeeps(s, t, s'.threads[t], s');
  }

  lemma {:induction false} ReleStepKeeps(s: State, t: Tid, s': State)
    requires Inv(s) && t in s.threads && ReleStep(s, t, s')
    ensures Inv(s')
  {
    match s.threads[t].pc
    case ReleWait => LockStep(s, t, ReleTest, s');
    case ReleTest => TestKeeps(s, t, s');
    case ReleDrop => DropStep(s, t, ReleUnlock, s');
    case ReleUnlock => UnlockStep(s, t, Idle, s');
    case LastUnlock => UnlockStep(s, t, LastWaitHash, s');
    case LastWaitHash => HashStep(s, t, LastWait, s');
    case LastWait => LockStep(s, t, LastRecheck, s');
    case LastRecheck => TestKeeps(s, t, s');
    case KeepDrop => DropStep(s, t, KeepUnlock, s');
    case KeepUnlock => UnlockStep(s, t, KeepUnlockHash, s');
    case KeepUnlockHash => HashStep(s, t, Idle, s');
    case _ =>
  }

  lemma {:induction false} WalkKeeps(s: State, t: Tid, s': State)
    requires Inv(s) && t in s.threads && UnlinkStep(s, t, s')
    requires s.threads[t].pc.UnlinkStart? || s.threads[t].pc.UnlinkTest? || s.threads[t].pc.UnlinkWalk?
    ensures Inv(s')
  {
    TokenListed(s, t);
    assert ThreadOk(s, t) && ChainOk(s, Hash(s.heap[s.threads[t].fp].id));
    if s.threads[t].pc.UnlinkWalk? { WalkOk(s, t, s'); } else { StartOk(s, t, s'); }
    LocalKeeps(s, t, s'.threads[t], s');
  }

  lemma {:induction false} UnlinkFirstKeeps(s: State, t: Tid, s': State)
    requires Inv(s) && t in s.threads && UnlinkStep(s, t, s') && s.threads[t].pc.UnlinkFirst?
    ensures Inv(s')
  {
    TokenListed(s, t);
    OkThread(s, t);
    UnlinkKeeps(s, t, s.threads[t].fp, Hash(s.heap[s.threads[t].fp].id), 0, s');
  }

  lemma {:induction false} UnlinkNextKeeps(s: State, t: Tid, s': State)
    requires Inv(s) && t in s.threads && UnlinkStep(s, t, s') && s.threads[t].pc.UnlinkNext?
    ensures Inv(s')
  {
    PairAt(s, t);
    UnlinkKeeps(s, t, s.threads[t].fp, Hash(s.heap[s.threads[t].fp].id), s.threads[t].at + 1, s');
  }

  lemma {:induction false} UnlinkStepKeeps(s: State, t: Tid, s': State)
    requires Inv(s) && t in s.threads && UnlinkStep(s, t, s')
    ensures Inv(s')
  {
    match s.threads[t].pc
    case UnlinkStart => WalkKeeps(s, t, s');
    case UnlinkTest => WalkKeeps(s, t, s');
    case UnlinkFirst => UnlinkFirstKeeps(s, t, s');
    case UnlinkWalk => WalkKeeps(s, t, s');
    case UnlinkNext => UnlinkNextKeeps(s, t, s');
    case UnlinkUnlockHash => HashStep(s, t, UnlinkUnlock, s');
    case UnlinkUnlock => UnlockStep(s, t, FreeObj, s');
    case FreeObj => FreeKeeps(s, t, s.threads[t].fp, s.threads[t].token, s');
    case _ =>
  }

  /** tfp stands right before fp in the chain. */
  lemma {:induction false} PairAt(s: State, t: Tid)
    requires Inv(s) && t in s.threads && s.threads[t].pc.UnlinkNext?
    ensures var th := s.threads[t];
      th.fp in s.heap && th.tfp in s.heap && th.tfp != th.fp && th.at + 1 < |ChainOf(s, th.fp)| &&
      ChainOf(s, th.fp)[th.at] == th.tfp && ChainOf(s, th.fp)[th.at + 1] == th.fp
  {
    var th := s.threads[t];
    TokenListed(s, t);
    assert ThreadOk(s, t) && ObjOk(s, th.fp);
    var b := Hash(s.heap[th.fp].id);
    assert ChainOk(s, b) && NodeOk(s, b, th.at);
  }

  lemma {:induction false} EnterSelf(s: State, t: Tid, pc: Pc, fp: Ptr, id: int, k: Token)
    requires Sized(s) && t in s.threads && ThreadOk(s, t) && s.threads[t].pc == Idle
    requires pc == FindWaitHash ||
      ((pc == HoldWait || pc == ReleWait) && fp in s.heap && k in s.refs && s.refs[k] == Ref(t, fp))
    ensures ThreadOk(Enter(s, t, pc, fp, id, k), t)
  {
  }

  lemma {:induction false} EnterKeeps(s: State, t: Tid, pc: Pc, fp: Ptr, id: int, k: Token)
    requires Inv(s) && t in s.threads && s.threads[t].pc == Idle
    requires pc == FindWaitHash ||
      ((pc == HoldWait || pc == ReleWait) && fp in s.heap && k in s.refs && s.refs[k] == Ref(t, fp))
    ensures Inv(Enter(s, t, pc, fp, id, k))
  {
    var s' := Enter(s, t, pc, fp, id, k);
    OkThread(s, t);
    EnterSelf(s, t, pc, fp, id, k);
    LocalKeeps(s, t, s'.threads[t], s');
  }

  lemma {:induction false} CallKeeps(s: State, t: Tid, s': State)
    requires Inv(s) && t in s.threads && Call(s, t, s')
    ensures Inv(s')
  {
    if p: Ptr, k: Token, id :| CallAlloc(s, t, p, k, id, s') {
      AllocKeeps(s, t, p, k, id, s');
    } else if k, u :| Give(s, t, k, u, s') {
      GiveKeeps(s, t, k, u, s');
    } else if k :| CallHold(s, t, k, s') {
      EnterKeeps(s, t, HoldWait, s.refs[k].obj, 0, k);
    } else if k :| CallRele(s, t, k, s') {
      EnterKeeps(s, t, ReleWait, s.refs[k].obj, 0, k);
    } else {
      var id :| s' == Enter(s, t, FindWaitHash, NULL, id, 0);
      EnterKeeps(s, t, FindWaitHash, NULL, id, 0);
    }
  }

  lemma {:induction false} StepKeeps(s: State, t: Tid, s': State)
    requires Inv(s) && Step(s, t, s')
    ensures Inv(s')
  {
    if AllocStep(s, t, s') { AllocStepKeeps(s, t, s'); }
    else if HoldStep(s, t, s') { HoldStepKeeps(s, t, s'); }
    else if FindStep(s, t, s') { FindStepKeeps(s, t, s'); }
    else if ReleStep(s, t, s') { ReleStepKeeps(s, t, s'); }
    else if UnlinkStep(s, t, s') { UnlinkStepKeeps(s, t, s'); }
    else { CallKeeps(s, t, s'); }
  }

  // ----- Every run -----

  ghost predicate Initial(s: State) {
    s.heap == map[] && s.refs == map[] && s.hash == Open && |s.heads| == |s.chains| == NHASH &&
    (forall b :: 0 <= b < NHASH ==> s.heads[b] == NULL && s.chains[b] == []) &&
    (forall t :: t in s.threads ==> s.threads[t].pc == Idle)
  }

  ghost predicate Run(states: seq<State>) {
    states != [] && Initial(states[0]) && forall i :: 0 <= i < |states| - 1 ==> SomeStep(states[i], states[i + 1])
  }

  ghost predicate SomeStep(s: State, s': State) {
    |s.heads| == |s.chains| == NHASH && exists t :: Step(s, t, s')
  }

  lemma {:induction false} AlwaysInv(states: seq<State>, i: nat)
    requires Run(states) && i < |states|
    ensures Inv(states[i])
  {
    if i > 0 {
      AlwaysInv(states, i - 1);
      assert SomeStep(states[i - 1], states[i]);
      var t :| Step(states[i - 1], t, states[i]);
      StepKeeps(states[i - 1], t, states[i]);
    }
  }

  /** In every reachable state the count of an object is the number of its outstanding references. */
  lemma {:induction false} CountsAgree(states: seq<State>, i: nat, p: Ptr)
    requires Run(states) && i < |states| && p in states[i].heap
    ensures states[i].heap[p].count == |RefsTo(states[i].refs, p)|
    ensures forall k :: k in states[i].refs ==> states[i].refs[k].obj in states[i].heap
  {
    AlwaysInv(states, i);
    assert ObjOk(states[i], p);
  }

  /** An object leaves the heap only in the last statement of foo_rele; then no list has it and the reference being
      released is the only one, and afterwards there is none. */
  lemma {:induction false} FreedAlone(states: seq<State>, i: nat, t: Tid, p: Ptr)
    requires Run(states) && i + 1 < |states| && Step(states[i], t, states[i + 1])
    requires p in states[i].heap && p !in states[i + 1].heap
    ensures states[i].threads[t].pc == FreeObj && states[i].threads[t].fp == p
    ensures RefsTo(states[i].refs, p) == {states[i].threads[t].token} && RefsTo(states[i + 1].refs, p) == {}
    ensures forall b :: 0 <= b < NHASH ==> p !in states[i].chains[b]
  {
    var s, s' := states[i], states[i + 1];
    AlwaysInv(states, i);
    OnlyFreeFrees(s, t, s', p);
    assert ThreadOk(s, t);
    forall b | 0 <= b < NHASH ensures p !in s.chains[b] {
      assert ChainOk(s, b);
      NotListed(s, p, b);
    }
  }

  lemma {:induction false} OnlyFreeFrees(s: State, t: Tid, s': State, p: Ptr)
    requires |s.heads| == |s.chains| == NHASH && Step(s, t, s') && p in s.heap && p !in s'.heap
    ensures UnlinkStep(s, t, s') && s.threads[t].pc == FreeObj && s.threads[t].fp == p
  {
  }

  // ----- No deadlock -----

  predicate WaitsForHash(pc: Pc) {
    pc.AllocWaitHash? || pc.FindWaitHash? || pc.LastWaitHash?
  }

  predicate WaitsForObj(pc: Pc) {
    pc.AllocWait? || pc.HoldWait? || pc.FindWait? || pc.ReleWait? || pc.LastWait?
  }

  /** Waits for a lock that another thread has. */
  ghost predicate Blocked(s: State, t: Tid)
    requires t in s.threads
  {
    var th := s.threads[t];
    (WaitsForHash(th.pc) && s.hash != Open) || (WaitsForObj(th.pc) && th.fp in s.heap && s.heap[th.fp].lock != Open)
  }

  /** hashlock is never awaited by a thread that has the lock of an object. */
  lemma {:induction false} HashAwaitedFreely(states: seq<State>, i: nat, t: Tid, p: Ptr)
    requires Run(states) && i < |states| && t in states[i].threads && WaitsForHash(states[i].threads[t].pc) &&
      p in states[i].heap
    ensures states[i].heap[p].lock != Held(t)
  {
    AlwaysInv(states, i);
    assert ObjOk(states[i], p);
  }

  /** The thread that has the lock for which u waits. */
  lemma {:induction false} LockHolder(s: State, u: Tid) returns (w: Tid)
    requires Inv(s) && u in s.threads && Blocked(s, u)
    ensures w in s.threads && s.threads[w].pc != Idle && !WaitsForHash(s.threads[w].pc)
    ensures WaitsForObj(s.threads[u].pc) ==> !Blocked(s, w)
  {
    if WaitsForHash(s.threads[u].pc) { w := HashHolder(s); } else { w := ObjHolder(s, s.threads[u].fp); }
  }

  lemma {:induction false} HashHolder(s: State) returns (w: Tid)
    requires Inv(s) && s.hash != Open
    ensures w in s.threads && s.threads[w].pc != Idle && !WaitsForHash(s.threads[w].pc)
  {
    w := s.hash.tid;
    OkThread(s, w);
  }

  lemma {:induction false} ObjHolder(s: State, p: Ptr) returns (w: Tid)
    requires Inv(s) && p in s.heap && s.heap[p].lock != Open
    ensures w in s.threads && HoldsObj(s.threads[w].pc) && s.threads[w].pc != Idle && !WaitsForHash(s.threads[w].pc) &&
      !Blocked(s, w)
  {
    OkObj(s, p);
    w := s.heap[p].lock.tid;
  }

  /** Whenever some thread is inside one of the functions, one such thread is not blocked. */
  lemma {:induction false} SomeoneMoves(s: State, t: Tid) returns (u: Tid)
    requires Inv(s) && t in s.threads && s.threads[t].pc != Idle
    ensures u in s.threads && s.threads[u].pc != Idle && !Blocked(s, u)
  {
    u := t;
    if Blocked(s, u) { u := LockHolder(s, u); }
    if Blocked(s, u) { u := LockHolder(s, u); }
  }

  /** A number that is not in the set. */
  lemma {:induction false} Unused(ks: set<nat>) returns (k: nat)
    ensures k !in ks && forall j :: j in ks ==> j < k
  {
    k := 0;
    if ks != {} {
      var j :| j in ks;
      var m := Unused(ks - {j});
      k := if m > j then m else j + 1;
      forall i | i in ks ensures i < k { assert i == j || i in ks - {j}; }
    }
  }

  /** A thread that is not blocked has a next statement, and every pointer it follows is valid. */
  lemma {:induction false} Moves(s: State, t: Tid) returns (s': State)
    requires Inv(s) && t in s.threads && s.threads[t].pc != Idle && !Blocked(s, t)
    ensures Inside(s, t, s')
  {
    var pc := s.threads[t].pc;
    OkThread(s, t);
    if Making(pc) || pc.AllocWait? || pc.AllocUnlockHash? || pc.AllocUnlock? { s' := AllocMoves(s, t); }
    else if pc.HoldWait? || pc.HoldCount? || pc.HoldUnlock? { s' := HoldMoves(s, t); }
    else if pc.FindWaitHash? || pc.FindHead? || pc.FindTest? { s' := LookMoves(s, t); }
    else if pc.FindWait? || pc.FindCount? || pc.FindUnlock? || pc.FoundUnlockHash? || pc.FindUnlockHash? {
      if pc.FindWait? { ChainListed(s, Hash(s.threads[t].id), s.threads[t].fp); }
      s' := FoundMoves(s, t);
    }
    else if Unlinking(pc) { s' := UnlinkMoves(s, t); }
    else if Dying(pc) { s' := DyingMoves(s, t); }
    else { s' := ReleMoves(s, t); }
  }

  lemma {:induction false} AllocMoves(s: State, t: Tid) returns (s': State)
    requires Sized(s) && t in s.threads && ThreadOk(s, t) && !Blocked(s, t)
    requires var pc := s.threads[t].pc; Making(pc) || pc.AllocWait? || pc.AllocUnlockHash? || pc.AllocUnlock?
    ensures AllocStep(s, t, s')
  {
    var p := s.threads[t].fp;
    match s.threads[t].pc
    case AllocWaitHash => s' := Goto(s.(hash := Held(t)), t, AllocLink);
    case AllocLink => s' := Goto(SetObj(s, p, s.heap[p].(next := s.heads[Hash(s.heap[p].id)])), t, AllocInsert);
    case AllocInsert =>
      var b := Hash(s.heap[p].id);
      s' := Goto(SetObj(s, p, s.heap[p].(stage := Listed)), t, AllocWait).(heads := s.heads[b := p], chains :=
        s.chains[b := [p] + s.chains[b]]);
    case AllocWait => s' := Goto(SetObj(s, p, s.heap[p].(lock := Held(t))), t, AllocUnlockHash);
    case AllocUnlockHash => s' := Goto(s.(hash := Open), t, AllocUnlock);
    case AllocUnlock => s' := Goto(SetObj(s, p, s.heap[p].(lock := Open)), t, Idle);
  }

  lemma {:induction false} HoldMoves(s: State, t: Tid) returns (s': State)
    requires Sized(s) && t in s.threads && ThreadOk(s, t) && !Blocked(s, t)
    requires var pc := s.threads[t].pc; pc.HoldWait? || pc.HoldCount? || pc.HoldUnlock?
    ensures HoldStep(s, t, s')
  {
    var p := s.threads[t].fp;
    match s.threads[t].pc
    case HoldWait => s' := Goto(SetObj(s, p, s.heap[p].(lock := Held(t))), t, HoldCount);
    case HoldCount =>
      var k := Unused(s.refs.Keys);
      s' := Counted(s, t, k, HoldUnlock);
      assert CountBy(s, t, k, HoldUnlock, s');
    case HoldUnlock => s' := Goto(SetObj(s, p, s.heap[p].(lock := Open)), t, Idle);
  }

  lemma {:induction false} LookMoves(s: State, t: Tid) returns (s': State)
    requires Inv(s) && t in s.threads && !Blocked(s, t)
    requires var pc := s.threads[t].pc; pc.FindWaitHash? || pc.FindHead? || pc.FindTest?
    ensures FindStep(s, t, s')
  {
    var th := s.threads[t];
    var p := th.fp;
    match th.pc
    case FindWaitHash => s' := Goto(s.(hash := Held(t)), t, FindHead);
    case FindHead => s' := Goto(s.(threads := s.threads[t := th.(fp := s.heads[Hash(th.id)], at := 0)]), t, FindTest);
    case FindTest =>
      if p == NULL {
        s' := Goto(s, t, FindUnlockHash);
      } else {
        OkThread(s, t);
        ChainListed(s, Hash(th.id), p);
        s' := if s.heap[p].id == th.id then Goto(s, t, FindWait)
              else s.(threads := s.threads[t := th.(fp := s.heap[p].next, at := th.at + 1)]);
      }
  }

  lemma {:induction false} FoundMoves(s: State, t: Tid) returns (s': State)
    requires Sized(s) && t in s.threads && ThreadOk(s, t) && !Blocked(s, t)
    requires var pc := s.threads[t].pc; 
      pc.FindWait? || pc.FindCount? || pc.FindUnlock? || pc.FoundUnlockHash? || pc.FindUnlockHash?
    requires s.threads[t].pc.FindWait? ==> s.threads[t].fp in s.heap
    ensures FindStep(s, t, s')
  {
    var th := s.threads[t];
    var p := th.fp;
    match th.pc
    case FindWait => s' := Goto(SetObj(s, p, s.heap[p].(lock := Held(t))), t, FindCount);
    case FindCount =>
      var k := Unused(s.refs.Keys);
      s' := Counted(s, t, k, FindUnlock);
      assert CountBy(s, t, k, FindUnlock, s');
    case FindUnlock => s' := Goto(SetObj(s, p, s.heap[p].(lock := Open)), t, FoundUnlockHash);
    case FoundUnlockHash => s' := Goto(s.(hash := Open), t, Idle);
    case FindUnlockHash => s' := Goto(s.(hash := Open), t, Idle);
  }

  lemma {:induction false} ReleMoves(s: State, t: Tid) returns (s': State)
    requires Sized(s) && t in s.threads && ThreadOk(s, t) && !Blocked(s, t)
    requires var pc := s.threads[t].pc;
      pc.ReleWait? || pc.ReleTest? || pc.ReleDrop? || pc.ReleUnlock? || pc.LastUnlock? || pc.LastWaitHash? ||
        pc.LastWait? ||
      pc.LastRecheck? || pc.KeepDrop? || pc.KeepUnlock? || pc.KeepUnlockHash?
    ensures ReleStep(s, t, s')
  {
    var p, k := s.threads[t].fp, s.threads[t].token;
    match s.threads[t].pc
    case ReleWait => s' := Goto(SetObj(s, p, s.heap[p].(lock := Held(t))), t, ReleTest);
    case ReleTest => s' := Goto(s, t, if s.heap[p].count == 1 then LastUnlock else ReleDrop);
    case ReleDrop => s' := Goto(SetObj(s, p, s.heap[p].(count := s.heap[p].count - 1)), t, ReleUnlock).(refs :=
      s.refs - {k});
    case ReleUnlock => s' := Goto(SetObj(s, p, s.heap[p].(lock := Open)), t, Idle);
    case LastUnlock => s' := Goto(SetObj(s, p, s.heap[p].(lock := Open)), t, LastWaitHash);
    case LastWaitHash => s' := Goto(s.(hash := Held(t)), t, LastWait);
    case LastWait => s' := Goto(SetObj(s, p, s.heap[p].(lock := Held(t))), t, LastRecheck);
    case LastRecheck => s' := Goto(s, t, if s.heap[p].count != 1 then KeepDrop else UnlinkStart);
    case KeepDrop => s' := Goto(SetObj(s, p, s.heap[p].(count := s.heap[p].count - 1)), t, KeepUnlock).(refs :=
      s.refs - {k});
    case KeepUnlock => s' := Goto(SetObj(s, p, s.heap[p].(lock := Open)), t, KeepUnlockHash);
    case KeepUnlockHash => s' := Goto(s.(hash := Open), t, Idle);
  }

  lemma {:induction false} UnlinkMoves(s: State, t: Tid) returns (s': State)
    requires Inv(s) && t in s.threads && Unlinking(s.threads[t].pc)
    ensures UnlinkStep(s, t, s')
  {
    var th := s.threads[t];
    var p := th.fp;
    OkThread(s, t);
    var b := Hash(s.heap[p].id);
    match th.pc
    case UnlinkStart => s' := Goto(s.(threads := s.threads[t := th.(tfp := s.heads[b], at := 0)]), t, UnlinkTest);
    case UnlinkTest => s' := Goto(s, t, if th.tfp == p then UnlinkFirst else UnlinkWalk);
    case UnlinkFirst =>
      s' := Goto(SetObj(s, p, s.heap[p].(stage := Dead(t))), t, UnlinkUnlockHash)
            .(heads := s.heads[b := s.heap[p].next], chains := s.chains[b := Without(s.chains[b], 0)]);
    case UnlinkWalk =>
      ChainListed(s, b, th.tfp);
      s' := if s.heap[th.tfp].next == p then Goto(s, t, UnlinkNext)
            else s.(threads := s.threads[t := th.(tfp := s.heap[th.tfp].next, at := th.at + 1)]);
    case UnlinkNext =>
      PairAt(s, t);
      s' := UnlinkNextMoves(s, t);
  }

  lemma {:induction false} UnlinkNextMoves(s: State, t: Tid) returns (s': State)
    requires Sized(s) && t in s.threads && s.threads[t].pc == UnlinkNext && s.threads[t].fp in s.heap &&
      s.threads[t].tfp in s.heap
    requires s.threads[t].at + 1 < |ChainOf(s, s.threads[t].fp)|
    ensures UnlinkStep(s, t, s')
  {
    var th := s.threads[t];
    var p := th.fp;
    var b := Hash(s.heap[p].id);
    s' := Goto(SetObj(SetObj(s, th.tfp, s.heap[th.tfp].(next := s.heap[p].next)), p, s.heap[p].(stage := Dead(t))), t,
      UnlinkUnlockHash)
          .(chains := s.chains[b := Without(s.chains[b], th.at + 1)]);
  }

  lemma {:induction false} DyingMoves(s: State, t: Tid) returns (s': State)
    requires Sized(s) && t in s.threads && ThreadOk(s, t) && Dying(s.threads[t].pc)
    ensures UnlinkStep(s, t, s')
  {
    var th := s.threads[t];
    var p := th.fp;
    match th.pc
    case UnlinkUnlockHash => s' := Goto(s.(hash := Open), t, UnlinkUnlock);
    case UnlinkUnlock => s' := Goto(SetObj(s, p, s.heap[p].(lock := Open)), t, FreeObj);
    case FreeObj => s' := Goto(s.(heap := s.heap - {p}, refs := s.refs - {th.token}), t, Idle);
  }

  /** In no reachable state is every thread inside the functions stuck. */
  lemma {:induction false} NoDeadlock(states: seq<State>, i: nat, t: Tid) returns (u: Tid, s': State)
    requires Run(states) && i < |states| && t in states[i].threads && states[i].threads[t].pc != Idle
    ensures u in states[i].threads && |states[i].heads| == |states[i].chains| == NHASH && Inside(states[i], u, s')
  {
    AlwaysInv(states, i);
    u := SomeoneMoves(states[i], t);
    s' := Moves(states[i], u);
  }
}
