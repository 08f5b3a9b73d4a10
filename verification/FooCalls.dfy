/** What the calls of apue/threads/mutex2.c have done when they return, in every run of any number of threads. */
module FooCalls {
  import opened Basics
  import opened Lists
  import opened FooRefs

  // ----- What a thread knows beyond the locks -----

  /** The first n nodes of chain b have other ids. */
  ghost predicate Passed(s: State, b: nat, n: nat, id: int)
    requires b < |s.chains|
  {
    n <= |s.chains[b]| && forall j :: 0 <= j < n ==> IsOther(s, s.chains[b][j], id)
  }

  ghost predicate IsOther(s: State, p: Ptr, id: int) {
    p in s.heap && s.heap[p].stage == Listed && s.heap[p].id != id
  }

  /** foo_find has stopped at an object. */
  predicate Found(pc: Pc) {
    pc.FindWait? || pc.FindCount? || pc.FindUnlock? || pc.FoundUnlockHash?
  }

  /** The call has made a reference. */
  predicate HasMade(pc: Pc) {
    pc.HoldUnlock? || pc.FindUnlock? || pc.FoundUnlockHash?
  }

  ghost predicate SearchOk(s: State, t: Tid)
    requires t in s.threads && Sized(s)
  {
    var th := s.threads[t];
    var b := Hash(th.id);
    (th.pc.FindTest? ==> th.at <= |s.chains[b]| && Passed(s, b, th.at, th.id)) &&
    (Found(th.pc) ==> th.fp in s.heap && s.heap[th.fp].id == th.id && s.heap[th.fp].stage == Listed) &&
    (th.pc.FindUnlockHash? ==> th.fp == NULL && Passed(s, b, |s.chains[b]|, th.id)) &&
    (HasMade(th.pc) ==> th.made in s.refs && s.refs[th.made] == Ref(t, th.fp)) &&
    (th.pc.ReleDrop? || th.pc.KeepDrop? ==> th.fp in s.heap && s.heap[th.fp].count != 1)
  }

  /** Every object has a reference left. */
  ghost predicate Counts(s: State) {
    forall p :: p in s.heap ==> s.heap[p].count >= 1
  }

  ghost predicate Known(s: State) {
    Inv(s) && Counts(s) && forall t :: t in s.threads ==> SearchOk(s, t)
  }

  // ----- A step seen by the others -----

  /** What a step of t leaves to another thread u. */
  ghost predicate Quiet(s: State, t: Tid, s': State, u: Tid) {
    (s.hash == Held(u) ==> s'.chains == s.chains && forall p :: p in s.heap && s.heap[p].stage == Listed ==>
      p in s'.heap && s'.heap[p].stage == Listed && s'.heap[p].id == s.heap[p].id) &&
    (forall k :: k in s.refs && s.refs[k].owner == u ==> k in s'.refs && s'.refs[k] == s.refs[k]) &&
    (forall p :: p in s.heap && s.heap[p].lock == Held(u) && p in s'.heap ==> s'.heap[p].count == s.heap[p].count) &&
    Sized(s') && u in s.threads && u in s'.threads && s'.threads[u] == s.threads[u]
  }

  lemma {:induction false} QuietAlloc(s: State, t: Tid, s': State, u: Tid)
    requires Sized(s) && t in s.threads && u in s.threads && u != t && ThreadOk(s, t) && AllocStep(s, t, s')
    ensures Quiet(s, t, s', u)
  {
  }

  lemma {:induction false} QuietHold(s: State, t: Tid, s': State, u: Tid)
    requires Sized(s) && t in s.threads && u in s.threads && u != t && ThreadOk(s, t) && HoldStep(s, t, s')
    ensures Quiet(s, t, s', u)
  {
  }

  lemma {:induction false} QuietFind(s: State, t: Tid, s': State, u: Tid)
    requires Sized(s) && t in s.threads && u in s.threads && u != t && ThreadOk(s, t) && FindStep(s, t, s')
    ensures Quiet(s, t, s', u)
  {
  }

  lemma {:induction false} QuietRele(s: State, t: Tid, s': State, u: Tid)
    requires Sized(s) && t in s.threads && u in s.threads && u != t && ThreadOk(s, t) && ReleStep(s, t, s')
    ensures Quiet(s, t, s', u)
  {
  }

  lemma {:induction false} QuietUnlink(s: State, t: Tid, s': State, u: Tid)
    requires Sized(s) && t in s.threads && u in s.threads && u != t && ThreadOk(s, t) && UnlinkStep(s, t, s')
    ensures Quiet(s, t, s', u)
  {
  }

  lemma {:induction false} QuietCall(s: State, t: Tid, s': State, u: Tid)
    requires Sized(s) && t in s.threads && u in s.threads && u != t && Call(s, t, s')
    ensures Quiet(s, t, s', u)
  {
    if p: Ptr, k: Token, id :| CallAlloc(s, t, p, k, id, s') {
      QuietAllocCall(s, t, p, k, id, s', u);
    } else if k, w :| Give(s, t, k, w, s') {
      QuietGive(s, t, k, w, s', u);
    } else {
      assert s' == s.(threads := s.threads[t := s'.threads[t]]);
    }
  }

  lemma {:induction false} QuietAllocCall(s: State, t: Tid, p: Ptr, k: Token, id: int, s': State, u: Tid)
    requires Sized(s) && t in s.threads && u in s.threads && u != t && CallAlloc(s, t, p, k, id, s')
    ensures Quiet(s, t, s', u)
  {
  }

  lemma {:induction false} QuietGive(s: State, t: Tid, k: Token, w: Tid, s': State, u: Tid)
    requires Sized(s) && t in s.threads && u in s.threads && u != t && Give(s, t, k, w, s')
    ensures Quiet(s, t, s', u)
  {
  }

  lemma {:induction false} QuietStep(s: State, t: Tid, s': State, u: Tid)
    requires Sized(s) && t in s.threads && u in s.threads && u != t && ThreadOk(s, t) && Step(s, t, s')
    ensures Quiet(s, t, s', u)
  {
    if AllocStep(s, t, s') { QuietAlloc(s, t, s', u); }
    else if HoldStep(s, t, s') { QuietHold(s, t, s', u); }
    else if FindStep(s, t, s') { QuietFind(s, t, s', u); }
    else if ReleStep(s, t, s') { QuietRele(s, t, s', u); }
    else if UnlinkStep(s, t, s') { QuietUnlink(s, t, s', u); }
    else { QuietCall(s, t, s', u); }
  }

  lemma {:induction false} SearchOther(s: State, t: Tid, s': State, u: Tid)
    requires Sized(s) && Quiet(s, t, s', u) && ThreadOk(s, u) && SearchOk(s, u)
    requires ThreadOk(s', u)
    ensures SearchOk(s', u)
  {
    var th := s.threads[u];
    assert HoldsHash(th.pc) <==> s.hash == Held(u);
  }

  // ----- A step seen by its thread -----

  lemma {:induction false} LookSelf(s: State, t: Tid, s': State)
    requires Sized(s) && t in s.threads && ThreadOk(s, t) && SearchOk(s, t) && ChainOk(s, Hash(s.threads[t].id))
    requires FindStep(s, t, s') && (s.threads[t].pc.FindHead? || s.threads[t].pc.FindTest?)
    ensures t in s'.threads && Sized(s') && SearchOk(s', t)
  {
    LookPlace(s, t);
    LookNext(s, t, s');
  }

  /** Where a search is in its chain. */
  ghost predicate LooksAt(s: State, th: Thread)
    requires Sized(s)
  {
    var c := s.chains[Hash(th.id)];
    th.at <= |c| && Passed(s, Hash(th.id), th.at, th.id) &&
    if th.fp == NULL then th.at == |c|
    else th.at < |c| && c[th.at] == th.fp && th.fp in s.heap && s.heap[th.fp].stage == Listed
  }

  lemma {:induction false} LookPlace(s: State, t: Tid)
    requires Sized(s) && t in s.threads && ThreadOk(s, t) && SearchOk(s, t) && ChainOk(s, Hash(s.threads[t].id))
    ensures s.threads[t].pc.FindTest? ==> LooksAt(s, s.threads[t])
  {
    var th := s.threads[t];
    var b := Hash(th.id);
    if th.pc.FindTest? && th.at < |s.chains[b]| { assert NodeOk(s, b, th.at); }
  }

  lemma {:induction false} LookNext(s: State, t: Tid, s': State)
    requires Sized(s) && t in s.threads && FindStep(s, t, s') &&
      (s.threads[t].pc.FindHead? || s.threads[t].pc.FindTest?)
    requires s.threads[t].pc.FindTest? ==> LooksAt(s, s.threads[t])
    ensures t in s'.threads && Sized(s') && SearchOk(s', t)
  {
  }

  lemma {:induction false} FindSelf(s: State, t: Tid, s': State)
    requires Sized(s) && t in s.threads && ThreadOk(s, t) && SearchOk(s, t)
    requires FindStep(s, t, s') && !s.threads[t].pc.FindHead? && !s.threads[t].pc.FindTest?
    ensures t in s'.threads && Sized(s') && SearchOk(s', t)
  {
  }

  lemma {:induction false} HoldSelf(s: State, t: Tid, s': State)
    requires Sized(s) && t in s.threads && ThreadOk(s, t) && HoldStep(s, t, s')
    ensures t in s'.threads && Sized(s') && SearchOk(s', t)
  {
  }

  lemma {:induction false} ReleSelf(s: State, t: Tid, s': State)
    requires Sized(s) && t in s.threads && ReleStep(s, t, s')
    ensures t in s'.threads && Sized(s') && SearchOk(s', t)
  {
    ReleNext(s, t, s');
    if Plain(s'.threads[t].pc) { PlainSelf(s', t); }
  }

  /** The count is not 1 where it is decreased without freeing. */
  lemma {:induction false} ReleNext(s: State, t: Tid, s': State)
    requires Sized(s) && t in s.threads && ReleStep(s, t, s')
    ensures t in s'.threads && Sized(s') && s'.threads.Keys == s.threads.Keys
    ensures Plain(s'.threads[t].pc) || ((s'.threads[t].pc.ReleDrop? || s'.threads[t].pc.KeepDrop?) &&
            s'.threads[t].fp in s'.heap && s'.heap[s'.threads[t].fp].count != 1)
  {
  }

  /** A statement at which there is nothing more to know. */
  predicate Plain(pc: Pc) {
    !pc.FindTest? && !Found(pc) && !pc.FindUnlockHash? && !HasMade(pc) && !pc.ReleDrop? && !pc.KeepDrop?
  }

  lemma {:induction false} PlainSelf(s: State, t: Tid)
    requires Sized(s) && t in s.threads && Plain(s.threads[t].pc)
    ensures SearchOk(s, t)
  {
  }

  lemma {:induction false} AllocSelf(s: State, t: Tid, s': State)
    requires Sized(s) && t in s.threads && AllocStep(s, t, s')
    ensures t in s'.threads && Sized(s') && Plain(s'.threads[t].pc) && s'.threads.Keys == s.threads.Keys
  {
  }

  lemma {:induction false} UnlinkSelf(s: State, t: Tid, s': State)
    requires Sized(s) && t in s.threads && UnlinkStep(s, t, s')
    ensures t in s'.threads && Sized(s') && Plain(s'.threads[t].pc) && s'.threads.Keys == s.threads.Keys
  {
  }

  lemma {:induction false} CallSelf(s: State, t: Tid, s': State)
    requires Sized(s) && t in s.threads && Call(s, t, s')
    ensures t in s'.threads && Sized(s') && Plain(s'.threads[t].pc) && s'.threads.Keys == s.threads.Keys
  {
    if k, u :| Give(s, t, k, u, s') {
      assert s'.threads == s.threads;
    } else {
      assert s'.threads == s.threads[t := s'.threads[t]];
    }
  }

  lemma {:induction false} SearchSelf(s: State, t: Tid, s': State)
    requires Inv(s) && t in s.threads && SearchOk(s, t) && Step(s, t, s')
    ensures t in s'.threads && Sized(s') && SearchOk(s', t)
  {
    OkThread(s, t);
    if FindStep(s, t, s') {
      if s.threads[t].pc.FindHead? || s.threads[t].pc.FindTest? {
        assert ChainOk(s, Hash(s.threads[t].id));
        LookSelf(s, t, s');
      } else {
        FindSelf(s, t, s');
      }
    } else if HoldStep(s, t, s') {
      HoldSelf(s, t, s');
    } else if ReleStep(s, t, s') {
      ReleSelf(s, t, s');
    } else {
      if AllocStep(s, t, s') { AllocSelf(s, t, s'); }
      else if UnlinkStep(s, t, s') { UnlinkSelf(s, t, s'); }
      else { CallSelf(s, t, s'); }
      PlainSelf(s', t);
    }
  }

  // ----- Every object has a reference -----

  lemma {:induction false} CountsKept(s: State, t: Tid, s': State)
    requires Sized(s) && Counts(s) && t in s.threads && SearchOk(s, t) && Step(s, t, s')
    ensures Counts(s')
  {
    if ReleStep(s, t, s') { ReleCounts(s, t, s'); }
    else if UnlinkStep(s, t, s') { UnlinkCounts(s, t, s'); }
    else { OtherCounts(s, t, s'); }
  }

  lemma {:induction false} ReleCounts(s: State, t: Tid, s': State)
    requires Sized(s) && Counts(s) && t in s.threads && SearchOk(s, t) && ReleStep(s, t, s')
    ensures Counts(s')
  {
  }

  lemma {:induction false} UnlinkCounts(s: State, t: Tid, s': State)
    requires Sized(s) && Counts(s) && t in s.threads && UnlinkStep(s, t, s')
    ensures Counts(s')
  {
  }

  lemma {:induction false} OtherCounts(s: State, t: Tid, s': State)
    requires Sized(s) && Counts(s) && t in s.threads
    requires AllocStep(s, t, s') || HoldStep(s, t, s') || FindStep(s, t, s') || Call(s, t, s')
    ensures Counts(s')
  {
  }

  // ----- Every run -----

  lemma {:induction false} StepKnown(s: State, t: Tid, s': State)
    requires Known(s) && Step(s, t, s')
    ensures Known(s')
  {
    StepKeeps(s, t, s');
    SearchSelf(s, t, s');
    CountsKept(s, t, s');
    assert ThreadOk(s, t);
    forall u | u in s'.threads && u != t ensures SearchOk(s', u) {
      SameThreads(s, t, s');
      QuietStep(s, t, s', u);
      assert ThreadOk(s, u) && ThreadOk(s', u);
      SearchOther(s, t, s', u);
    }
  }

  lemma {:induction false} SameThreads(s: State, t: Tid, s': State)
    requires Sized(s) && Step(s, t, s')
    ensures s'.threads.Keys == s.threads.Keys
  {
    if AllocStep(s, t, s') { AllocSelf(s, t, s'); }
    else if HoldStep(s, t, s') { HoldThreads(s, t, s'); }
    else if FindStep(s, t, s') { FindThreads(s, t, s'); }
    else if ReleStep(s, t, s') { ReleNext(s, t, s'); }
    else if UnlinkStep(s, t, s') { UnlinkSelf(s, t, s'); }
    else { CallSelf(s, t, s'); }
  }

  lemma {:induction false} HoldThreads(s: State, t: Tid, s': State)
    requires Sized(s) && t in s.threads && HoldStep(s, t, s')
    ensures s'.threads.Keys == s.threads.Keys
  {
  }

  lemma {:induction false} FindThreads(s: State, t: Tid, s': State)
    requires Sized(s) && t in s.threads && FindStep(s, t, s')
    ensures s'.threads.Keys == s.threads.Keys
  {
  }

  /** A run with the thread that makes each step. */
  ghost predicate RunBy(states: seq<State>, who: seq<Tid>) {
    |states| == |who| + 1 && Initial(states[0]) && forall n :: 0 <= n < |who| ==> StepAt(states, who, n)
  }

  ghost predicate StepAt(states: seq<State>, who: seq<Tid>, n: nat)
    requires |states| == |who| + 1 && n < |who|
  {
    Sized(states[n]) && Step(states[n], who[n], states[n + 1])
  }

  lemma {:induction false} InitialKnown(s: State)
    requires Initial(s)
    ensures Known(s)
  {
  }

  lemma {:induction false} AlwaysKnown(states: seq<State>, who: seq<Tid>, n: nat)
    requires RunBy(states, who) && n < |states|
    ensures Known(states[n])
  {
    if n == 0 {
      InitialKnown(states[0]);
    } else {
      AlwaysKnown(states, who, n - 1);
      assert StepAt(states, who, n - 1);
      StepKnown(states[n - 1], who[n - 1], states[n]);
    }
  }

  /** In every run every object has a reference left, so none is forgotten. */
  lemma {:induction false} NoneForgotten(states: seq<State>, who: seq<Tid>, n: nat, p: Ptr)
    requires RunBy(states, who) && n < |states| && p in states[n].heap
    ensures RefsTo(states[n].refs, p) != {}
  {
    AlwaysKnown(states, who, n);
    assert ObjOk(states[n], p);
  }

  /** Thread t is inside a call from step i to state j. */
  ghost predicate Calling(states: seq<State>, who: seq<Tid>, t: Tid, i: nat, j: nat) {
    RunBy(states, who) && i < j < |states| && who[i] == t && t in states[i].threads &&
      states[i].threads[t].pc == Idle &&
    forall m :: i < m < j ==> Busy(states, t, m)
  }

  ghost predicate Busy(states: seq<State>, t: Tid, m: nat)
    requires m < |states|
  {
    t in states[m].threads && states[m].threads[t].pc != Idle
  }

  /** The call of step i has returned in state j. */
  ghost predicate Returned(states: seq<State>, who: seq<Tid>, t: Tid, i: nat, j: nat) {
    Calling(states, who, t, i, j) && t in states[j].threads && states[j].threads[t].pc == Idle
  }

  lemma {:induction false} Unmoved(states: seq<State>, who: seq<Tid>, t: Tid, n: nat)
    requires RunBy(states, who) && n < |who| && who[n] != t && t in states[n].threads
    ensures t in states[n + 1].threads && states[n + 1].threads[t] == states[n].threads[t]
  {
    AlwaysKnown(states, who, n);
    assert StepAt(states, who, n) && ThreadOk(states[n], who[n]);
    QuietStep(states[n], who[n], states[n + 1], t);
  }

  // ----- foo_hold -----

  /** Step n of thread t makes the reference k to p and counts it. */
  ghost predicate CountedAt(states: seq<State>, who: seq<Tid>, t: Tid, n: nat, k: Token, p: Ptr) {
    n < |who| && n + 1 < |states| && who[n] == t && k !in states[n].refs &&
    states[n + 1].refs == states[n].refs[k := Ref(t, p)] && p in states[n].heap && p in states[n + 1].heap &&
    states[n + 1].heap[p].count == states[n].heap[p].count + 1
  }

  lemma {:induction false} HoldSoFar(states: seq<State>, who: seq<Tid>, t: Tid, i: nat, m: nat, k: Token)
      returns (n: nat)
    requires Calling(states, who, t, i, m) && CallHold(states[i], t, k, states[i + 1])
    requires Busy(states, t, m)
    ensures var th := states[m].threads[t];
      th.fp == states[i].refs[k].obj && (th.pc.HoldWait? || th.pc.HoldCount? || th.pc.HoldUnlock?) &&
      (th.pc.HoldUnlock? ==> i < n < m && CountedAt(states, who, t, n, th.made, th.fp))
  {
    n := 0;
    if m > i + 1 {
      assert Busy(states, t, m - 1);
      n := HoldSoFar(states, who, t, i, m - 1, k);
      if who[m - 1] == t { n := HoldMove(states, who, t, m - 1, n); } else { Unmoved(states, who, t, m - 1); }
    }
  }

  lemma {:induction false} HoldMove(states: seq<State>, who: seq<Tid>, t: Tid, m: nat, n0: nat) returns (n: nat)
    requires RunBy(states, who) && m < |who| && who[m] == t && t in states[m].threads
    requires var pc := states[m].threads[t].pc; pc.HoldWait? || pc.HoldCount? || pc.HoldUnlock?
    ensures t in states[m + 1].threads && states[m + 1].threads[t].fp == states[m].threads[t].fp
    ensures var th := states[m + 1].threads[t];
      match states[m].threads[t].pc
      case HoldWait => th.pc.HoldCount? && n == n0
      case HoldCount => th.pc.HoldUnlock? && n == m && CountedAt(states, who, t, n, th.made, th.fp)
      case HoldUnlock => th.pc.Idle? && n == n0 && states[m + 1].refs == states[m].refs
  {
    n := if states[m].threads[t].pc.HoldCount? then m else n0;
    assert StepAt(states, who, m);
    HoldNext(states[m], t, states[m + 1]);
  }

  lemma {:induction false} HoldNext(s: State, t: Tid, s': State)
    requires Sized(s) && Step(s, t, s')
    requires var pc := s.threads[t].pc; pc.HoldWait? || pc.HoldCount? || pc.HoldUnlock?
    ensures t in s'.threads && s'.threads[t].fp == s.threads[t].fp
    ensures match s.threads[t].pc
      case HoldWait => s'.threads[t].pc.HoldCount?
      case HoldCount => CountBy(s, t, s'.threads[t].made, HoldUnlock, s')
      case HoldUnlock => s'.threads[t].pc.Idle? && s'.refs == s.refs
  {
    assert HoldStep(s, t, s');
  }

  /** When foo_hold has returned, the thread has one reference more, made and counted by one step of the call. */
  lemma {:induction false} HoldDone(states: seq<State>, who: seq<Tid>, t: Tid, i: nat, j: nat, k: Token)
      returns (n: nat, made: Token)
    requires Returned(states, who, t, i, j) && CallHold(states[i], t, k, states[i + 1])
    ensures i < n < j && CountedAt(states, who, t, n, made, states[i].refs[k].obj)
    ensures made in states[j].refs && states[j].refs[made] == Ref(t, states[i].refs[k].obj)
  {
    n := HoldSoFar(states, who, t, i, j - 1, k);
    made := states[j - 1].threads[t].made;
    if who[j - 1] != t { Unmoved(states, who, t, j - 1); }
    AlwaysKnown(states, who, j - 1);
    assert SearchOk(states[j - 1], t);
    var n' := HoldMove(states, who, t, j - 1, n);
  }

  // ----- foo_find -----

  predicate InFind(pc: Pc) {
    pc.FindWaitHash? || pc.FindHead? || pc.FindTest? || Found(pc) || pc.FindUnlockHash?
  }

  lemma {:induction false} FindSoFar(states: seq<State>, who: seq<Tid>, t: Tid, i: nat, m: nat, id: int)
      returns (n: nat)
    requires Calling(states, who, t, i, m) && states[i + 1] == Enter(states[i], t, FindWaitHash, NULL, id, 0)
    requires Busy(states, t, m)
    ensures var th := states[m].threads[t];
      th.id == id && InFind(th.pc) && (HasMade(th.pc) ==> i < n < m && CountedAt(states, who, t, n, th.made, th.fp))
  {
    n := 0;
    if m > i + 1 {
      assert Busy(states, t, m - 1);
      n := FindSoFar(states, who, t, i, m - 1, id);
      if who[m - 1] == t { n := FindMove(states, who, t, m - 1, n); } else { Unmoved(states, who, t, m - 1); }
    }
  }

  lemma {:induction false} FindMove(states: seq<State>, who: seq<Tid>, t: Tid, m: nat, n0: nat) returns (n: nat)
    requires RunBy(states, who) && m < |who| && who[m] == t && t in states[m].threads && InFind(states[m].threads[t].pc)
    ensures t in states[m + 1].threads && states[m + 1].threads[t].id == states[m].threads[t].id
    ensures var th, was := states[m + 1].threads[t], states[m].threads[t];
      if was.pc.FindCount? then th.pc.FindUnlock? && n == m && CountedAt(states, who, t, n, th.made, th.fp)
      else n == n0 && th.made == was.made && (HasMade(th.pc) ==> was.pc.FindUnlock? && th.fp == was.fp)
    ensures var th, was := states[m + 1].threads[t], states[m].threads[t];
      if was.pc.FoundUnlockHash? || was.pc.FindUnlockHash? then
        th.pc.Idle? && th.fp == was.fp && states[m + 1].refs == states[m].refs
      else InFind(th.pc)
  {
    n := if states[m].threads[t].pc.FindCount? then m else n0;
    assert StepAt(states, who, m);
    FindNext(states[m], t, states[m + 1]);
  }

  lemma {:induction false} FindNext(s: State, t: Tid, s': State)
    requires Sized(s) && Step(s, t, s') && InFind(s.threads[t].pc)
    ensures t in s'.threads && s'.threads[t].id == s.threads[t].id
    ensures var th, was := s'.threads[t], s.threads[t];
      if was.pc.FindCount? then CountBy(s, t, th.made, FindUnlock, s')
      else th.made == was.made && (HasMade(th.pc) ==> was.pc.FindUnlock? && th.fp == was.fp)
    ensures var th, was := s'.threads[t], s.threads[t];
      if was.pc.FoundUnlockHash? || was.pc.FindUnlockHash? then th.pc.Idle? && th.fp == was.fp && s'.refs == s.refs
      else InFind(th.pc)
  {
    assert FindStep(s, t, s');
  }

  /** No object in the table has the id. */
  ghost predicate NoneHas(s: State, id: int) {
    forall b, p :: 0 <= b < |s.chains| && p in s.chains[b] ==> p in s.heap && s.heap[p].id != id
  }

  lemma {:induction false} OneBucket(s: State, id: int)
    requires Inv(s) && Passed(s, Hash(id), |s.chains[Hash(id)]|, id)
    ensures NoneHas(s, id)
  {
    forall b, p | 0 <= b < |s.chains| && p in s.chains[b] ensures p in s.heap && s.heap[p].id != id {
      assert ChainOk(s, b);
      var i :| 0 <= i < |s.chains[b]| && s.chains[b][i] == p;
      assert NodeOk(s, b, i);
      if b == Hash(id) { assert IsOther(s, s.chains[b][i], id); }
    }
  }

  /** When foo_find has returned NULL, no object in the table had the id, in the state in which hashlock was given back;
      when it has returned an object, that object was in the table then, has the id, and the thread has a new
      reference. */
  lemma {:induction false} FindDone(states: seq<State>, who: seq<Tid>, t: Tid, i: nat, j: nat, id: int)
      returns (n: nat, made: Token)
    requires Returned(states, who, t, i, j) && states[i + 1] == Enter(states[i], t, FindWaitHash, NULL, id, 0)
    ensures var r, s := states[j].threads[t].fp, states[j - 1];
      s.hash == Held(t) &&
      if r == NULL then NoneHas(s, id)
      else
        Sized(s) && r in s.chains[Hash(id)] && r in s.heap && s.heap[r].id == id &&
        i < n < j && CountedAt(states, who, t, n, made, r) && made in states[j].refs &&
          states[j].refs[made] == Ref(t, r)
  {
    n := FindSoFar(states, who, t, i, j - 1, id);
    var s := states[j - 1];
    made := s.threads[t].made;
    if who[j - 1] != t { Unmoved(states, who, t, j - 1); }
    AlwaysKnown(states, who, j - 1);
    assert SearchOk(s, t) && ThreadOk(s, t);
    var n' := FindMove(states, who, t, j - 1, n);
    if s.threads[t].pc.FindUnlockHash? { OneBucket(s, id); } else { assert ObjOk(s, s.threads[t].fp); }
  }

  // ----- foo_rele -----

  predicate InRele(pc: Pc) {
    pc.ReleWait? || pc.ReleTest? || pc.ReleDrop? || pc.LastUnlock? || pc.LastWaitHash? || pc.LastWait? ||
    pc.LastRecheck? || pc.KeepDrop? || Unlinking(pc) || Dying(pc)
  }

  predicate HasDropped(pc: Pc) {
    pc.ReleUnlock? || pc.KeepUnlock? || pc.KeepUnlockHash?
  }

  /** Step n of thread t gives up the reference k to p: the count goes down, or the object goes, and it goes exactly
      when this was the last reference. */
  ghost predicate DroppedAt(states: seq<State>, who: seq<Tid>, t: Tid, n: nat, k: Token, p: Ptr) {
    n < |who| && n + 1 < |states| && who[n] == t && Dropped(states[n], t, k, p, states[n + 1])
  }

  ghost predicate Dropped(s: State, t: Tid, k: Token, p: Ptr, s': State) {
    k in s.refs && s.refs[k] == Ref(t, p) && s'.refs == s.refs - {k} && p in s.heap &&
    (p !in s'.heap <==> s.heap[p].count == 1) && (p in s'.heap ==> s'.heap[p].count == s.heap[p].count - 1)
  }

  lemma {:induction false} ReleSoFar(states: seq<State>, who: seq<Tid>, t: Tid, i: nat, m: nat, k: Token)
      returns (n: nat)
    requires Calling(states, who, t, i, m) && CallRele(states[i], t, k, states[i + 1])
    requires Busy(states, t, m)
    ensures var th := states[m].threads[t];
      th.fp == states[i].refs[k].obj && th.token == k && (InRele(th.pc) || HasDropped(th.pc)) &&
      (HasDropped(th.pc) ==> i < n < m && DroppedAt(states, who, t, n, k, th.fp))
  {
    n := 0;
    if m > i + 1 {
      assert Busy(states, t, m - 1);
      n := ReleSoFar(states, who, t, i, m - 1, k);
      if who[m - 1] == t { n := ReleMove(states, who, t, m - 1, n); } else { Unmoved(states, who, t, m - 1); }
    }
  }

  lemma {:induction false} ReleMove(states: seq<State>, who: seq<Tid>, t: Tid, m: nat, n0: nat) returns (n: nat)
    requires RunBy(states, who) && m < |who| && who[m] == t && t in states[m].threads
    requires InRele(states[m].threads[t].pc) || HasDropped(states[m].threads[t].pc)
    ensures t in states[m + 1].threads
    ensures var th, was := states[m + 1].threads[t], states[m].threads[t];
      th.fp == was.fp && th.token == was.token && (th.pc.Idle? || InRele(th.pc) || HasDropped(th.pc)) &&
      if InRele(was.pc) && (HasDropped(th.pc) || th.pc.Idle?) then
        n == m && DroppedAt(states, who, t, n, was.token, was.fp)
      else n == n0 && (InRele(th.pc) ==> InRele(was.pc))
  {
    var pc := states[m].threads[t].pc;
    n := if pc.ReleDrop? || pc.KeepDrop? || pc.FreeObj? then m else n0;
    if Unlinking(pc) || Dying(pc) { GoneAt(states, who, t, m); }
    else if pc.ReleDrop? || pc.KeepDrop? { DropAt(states, who, t, m); }
    else { OtherAt(states, who, t, m); }
  }

  lemma {:induction false} GoneAt(states: seq<State>, who: seq<Tid>, t: Tid, m: nat)
    requires RunBy(states, who) && m < |who| && who[m] == t && t in states[m].threads
    requires Unlinking(states[m].threads[t].pc) || Dying(states[m].threads[t].pc)
    ensures t in states[m + 1].threads
    ensures var th, was := states[m + 1].threads[t], states[m].threads[t];
      th.fp == was.fp && th.token == was.token &&
      if was.pc.FreeObj? then th.pc.Idle? && DroppedAt(states, who, t, m, was.token, was.fp) else InRele(th.pc)
  {
    AlwaysKnown(states, who, m);
    GoneKind(states, who, t, m);
    GoneEffect(states[m], t, states[m + 1]);
  }

  lemma {:induction false} GoneKind(states: seq<State>, who: seq<Tid>, t: Tid, m: nat)
    requires RunBy(states, who) && m < |who| && who[m] == t && t in states[m].threads
    requires Unlinking(states[m].threads[t].pc) || Dying(states[m].threads[t].pc)
    ensures Sized(states[m]) && UnlinkStep(states[m], t, states[m + 1])
  {
    assert StepAt(states, who, m);
  }

  lemma {:induction false} ReleKind(states: seq<State>, who: seq<Tid>, t: Tid, m: nat)
    requires RunBy(states, who) && m < |who| && who[m] == t && t in states[m].threads
    requires var pc := states[m].threads[t].pc; (InRele(pc) || HasDropped(pc)) && !Unlinking(pc) && !Dying(pc)
    ensures Sized(states[m]) && ReleStep(states[m], t, states[m + 1])
  {
    assert StepAt(states, who, m);
  }

  lemma {:induction false} DropAt(states: seq<State>, who: seq<Tid>, t: Tid, m: nat)
    requires RunBy(states, who) && m < |who| && who[m] == t && t in states[m].threads
    requires states[m].threads[t].pc.ReleDrop? || states[m].threads[t].pc.KeepDrop?
    ensures t in states[m + 1].threads
    ensures var th, was := states[m + 1].threads[t], states[m].threads[t];
      th.fp == was.fp && th.token == was.token && HasDropped(th.pc) &&
      DroppedAt(states, who, t, m, was.token, was.fp)
  {
    AlwaysKnown(states, who, m);
    ReleKind(states, who, t, m);
    DropEffect(states[m], t, states[m + 1]);
  }

  lemma {:induction false} OtherAt(states: seq<State>, who: seq<Tid>, t: Tid, m: nat)
    requires RunBy(states, who) && m < |who| && who[m] == t && t in states[m].threads
    requires var pc := states[m].threads[t].pc;
      (InRele(pc) || HasDropped(pc)) && !Unlinking(pc) && !Dying(pc) && !pc.ReleDrop? && !pc.KeepDrop?
    ensures t in states[m + 1].threads
    ensures var th, was := states[m + 1].threads[t], states[m].threads[t];
      th.fp == was.fp && th.token == was.token &&
      if InRele(was.pc) then InRele(th.pc) else th.pc.Idle? || HasDropped(th.pc)
  {
    ReleKind(states, who, t, m);
    ReleMoves(states[m], t, states[m + 1]);
  }

  lemma {:induction false} DropEffect(s: State, t: Tid, s': State)
    requires Known(s) && t in s.threads && ReleStep(s, t, s') &&
      (s.threads[t].pc.ReleDrop? || s.threads[t].pc.KeepDrop?)
    ensures t in s'.threads && HasDropped(s'.threads[t].pc) && s'.threads[t].fp == s.threads[t].fp
    ensures s'.threads[t].token == s.threads[t].token && Dropped(s, t, s.threads[t].token, s.threads[t].fp, s')
  {
    OkThread(s, t);
    OkSearch(s, t);
    DropMoves(s, t, s');
  }

  lemma {:induction false} GoneEffect(s: State, t: Tid, s': State)
    requires Known(s) && t in s.threads && UnlinkStep(s, t, s') &&
      (Unlinking(s.threads[t].pc) || Dying(s.threads[t].pc))
    ensures t in s'.threads
    ensures var th, was := s'.threads[t], s.threads[t];
      th.fp == was.fp && th.token == was.token &&
      if was.pc.FreeObj? then th.pc.Idle? && Dropped(s, t, was.token, was.fp, s') else InRele(th.pc)
  {
    OkThread(s, t);
    OkObj(s, s.threads[t].fp);
    UnlinkMoves(s, t, s');
  }

  lemma {:induction false} OkSearch(s: State, t: Tid)
    requires Known(s) && t in s.threads
    ensures SearchOk(s, t)
  {
  }

  lemma {:induction false} ReleMoves(s: State, t: Tid, s': State)
    requires Sized(s) && t in s.threads && ReleStep(s, t, s') && !s.threads[t].pc.ReleDrop? &&
      !s.threads[t].pc.KeepDrop?
    ensures t in s'.threads
    ensures var th, was := s'.threads[t], s.threads[t];
      th.fp == was.fp && th.token == was.token &&
      if InRele(was.pc) then InRele(th.pc) else th.pc.Idle? || HasDropped(th.pc)
  {
  }

  lemma {:induction false} DropMoves(s: State, t: Tid, s': State)
    requires Sized(s) && t in s.threads && ThreadOk(s, t) && SearchOk(s, t) && ReleStep(s, t, s')
    requires s.threads[t].pc.ReleDrop? || s.threads[t].pc.KeepDrop?
    ensures t in s'.threads && HasDropped(s'.threads[t].pc) && s'.threads[t].fp == s.threads[t].fp
    ensures s'.threads[t].token == s.threads[t].token && Dropped(s, t, s.threads[t].token, s.threads[t].fp, s')
  {
  }

  lemma {:induction false} UnlinkMoves(s: State, t: Tid, s': State)
    requires Sized(s) && t in s.threads && ThreadOk(s, t) && UnlinkStep(s, t, s')
    requires Unlinking(s.threads[t].pc) || Dying(s.threads[t].pc)
    requires s.threads[t].fp in s.heap && ObjOk(s, s.threads[t].fp)
    ensures t in s'.threads
    ensures var th, was := s'.threads[t], s.threads[t];
      th.fp == was.fp && th.token == was.token &&
      if was.pc.FreeObj? then th.pc.Idle? && Dropped(s, t, was.token, was.fp, s') else InRele(th.pc)
  {
    var p, k := s.threads[t].fp, s.threads[t].token;
    if s.threads[t].pc.FreeObj? { assert RefsTo(s.refs, p) == {k}; }
  }

  /** When foo_rele has returned, one step of the call has given up the reference, and freed the object exactly when it
      was the last one. */
  lemma {:induction false} ReleDone(states: seq<State>, who: seq<Tid>, t: Tid, i: nat, j: nat, k: Token)
      returns (n: nat)
    requires Returned(states, who, t, i, j) && CallRele(states[i], t, k, states[i + 1])
    ensures i < n < j && DroppedAt(states, who, t, n, k, states[i].refs[k].obj)
  {
    assert Busy(states, t, j - 1);
    n := ReleSoFar(states, who, t, i, j - 1, k);
    if who[j - 1] != t { Unmoved(states, who, t, j - 1); }
    n := ReleMove(states, who, t, j - 1, n);
  }

  // ----- foo_alloc -----

  /** Step n of thread t puts p in front of the chain of its id. */
  ghost predicate InsertedAt(states: seq<State>, who: seq<Tid>, t: Tid, n: nat, p: Ptr, id: int) {
    n < |who| && n + 1 < |states| && who[n] == t && Inserted(states[n], p, id, states[n + 1])
  }

  ghost predicate Inserted(s: State, p: Ptr, id: int, s': State) {
    var b := Hash(id);
    b < |s.chains| && s'.chains == s.chains[b := [p] + s.chains[b]] && p in s'.heap && s'.heap[p].id == id
  }

  predicate HasInserted(pc: Pc) {
    pc.AllocWait? || pc.AllocUnlockHash? || pc.AllocUnlock?
  }

  lemma {:induction false} AllocSoFar(states: seq<State>, who: seq<Tid>, t: Tid, i: nat, m: nat, p: Ptr, k: Token,
      id: int)
      returns (n: nat)
    requires Calling(states, who, t, i, m) && CallAlloc(states[i], t, p, k, id, states[i + 1])
    requires Busy(states, t, m)
    ensures var th := states[m].threads[t];
      th.fp == p && th.token == k && (Making(th.pc) || HasInserted(th.pc)) && p in states[m].heap &&
      states[m].heap[p].id == id && (HasInserted(th.pc) ==> i < n < m && InsertedAt(states, who, t, n, p, id))
  {
    n := 0;
    if m > i + 1 {
      assert Busy(states, t, m - 1);
      n := AllocSoFar(states, who, t, i, m - 1, p, k, id);
      if who[m - 1] == t {
        n := AllocMove(states, who, t, m - 1, n);
      } else {
        Unmoved(states, who, t, m - 1);
        StillHas(states, who, t, m - 1);
      }
    }
  }

  /** The object a thread makes is still there, with its id, after a step of another thread. */
  lemma {:induction false} StillHas(states: seq<State>, who: seq<Tid>, t: Tid, m: nat)
    requires RunBy(states, who) && m < |who| && who[m] != t && t in states[m].threads
    requires Making(states[m].threads[t].pc) || HasInserted(states[m].threads[t].pc)
    ensures var p := states[m].threads[t].fp;
      p in states[m].heap && p in states[m + 1].heap && states[m + 1].heap[p].id == states[m].heap[p].id
  {
    Unmoved(states, who, t, m);
    AlwaysKnown(states, who, m);
    AlwaysKnown(states, who, m + 1);
    assert ThreadOk(states[m], t) && ThreadOk(states[m + 1], t);
    assert StepAt(states, who, m);
    IdKept(states[m], who[m], states[m + 1], states[m].threads[t].fp);
  }

  lemma {:induction false} IdKept(s: State, t: Tid, s': State, p: Ptr)
    requires Sized(s) && Step(s, t, s') && p in s.heap && p in s'.heap
    ensures s'.heap[p].id == s.heap[p].id
  {
    if AllocStep(s, t, s') { IdAlloc(s, t, s', p); }
    else if HoldStep(s, t, s') || FindStep(s, t, s') { IdHold(s, t, s', p); }
    else if ReleStep(s, t, s') { IdRele(s, t, s', p); }
    else if UnlinkStep(s, t, s') { IdUnlink(s, t, s', p); }
  }

  lemma {:induction false} IdAlloc(s: State, t: Tid, s': State, p: Ptr)
    requires Sized(s) && t in s.threads && AllocStep(s, t, s') && p in s.heap && p in s'.heap
    ensures s'.heap[p].id == s.heap[p].id
  {
  }

  lemma {:induction false} IdHold(s: State, t: Tid, s': State, p: Ptr)
    requires Sized(s) && t in s.threads && (HoldStep(s, t, s') || FindStep(s, t, s')) && p in s.heap && p in s'.heap
    ensures s'.heap[p].id == s.heap[p].id
  {
  }

  lemma {:induction false} IdRele(s: State, t: Tid, s': State, p: Ptr)
    requires Sized(s) && t in s.threads && ReleStep(s, t, s') && p in s.heap && p in s'.heap
    ensures s'.heap[p].id == s.heap[p].id
  {
  }

  lemma {:induction false} IdUnlink(s: State, t: Tid, s': State, p: Ptr)
    requires Sized(s) && t in s.threads && UnlinkStep(s, t, s') && p in s.heap && p in s'.heap
    ensures s'.heap[p].id == s.heap[p].id
  {
  }

  lemma {:induction false} AllocMove(states: seq<State>, who: seq<Tid>, t: Tid, m: nat, n0: nat) returns (n: nat)
    requires RunBy(states, who) && m < |who| && who[m] == t && t in states[m].threads
    requires Making(states[m].threads[t].pc) || HasInserted(states[m].threads[t].pc)
    ensures t in states[m + 1].threads
    ensures var th, was := states[m + 1].threads[t], states[m].threads[t];
      th.fp == was.fp && th.token == was.token && was.fp in states[m].heap && was.fp in states[m + 1].heap &&
      states[m + 1].heap[was.fp].id == states[m].heap[was.fp].id &&
      if was.pc.AllocInsert? then
        HasInserted(th.pc) && n == m && InsertedAt(states, who, t, n, was.fp, states[m].heap[was.fp].id)
      else if was.pc.AllocUnlock? then th.pc.Idle? && n == n0 && states[m + 1].refs == states[m].refs
      else n == n0 && (Making(was.pc) ==> Making(th.pc)) && (HasInserted(was.pc) ==> HasInserted(th.pc))
  {
    n := if states[m].threads[t].pc.AllocInsert? then m else n0;
    assert StepAt(states, who, m);
    AlwaysKnown(states, who, m);
    assert ThreadOk(states[m], t);
    AllocNext(states[m], t, states[m + 1]);
  }

  lemma {:induction false} AllocNext(s: State, t: Tid, s': State)
    requires Sized(s) && Step(s, t, s') && (Making(s.threads[t].pc) || HasInserted(s.threads[t].pc))
    requires s.threads[t].fp in s.heap
    ensures t in s'.threads
    ensures var th, was := s'.threads[t], s.threads[t];
      th.fp == was.fp && th.token == was.token && was.fp in s'.heap && s'.heap[was.fp].id == s.heap[was.fp].id &&
      if was.pc.AllocInsert? then HasInserted(th.pc) && Inserted(s, was.fp, s.heap[was.fp].id, s')
      else if was.pc.AllocUnlock? then th.pc.Idle? && s'.refs == s.refs
      else (Making(was.pc) ==> Making(th.pc)) && (HasInserted(was.pc) ==> HasInserted(th.pc))
  {
    assert AllocStep(s, t, s');
  }

  /** When foo_alloc has returned, one step of the call has put the object in front of the chain of its id, and the
      thread still has its reference to the object. */
  lemma {:induction false} AllocDone(states: seq<State>, who: seq<Tid>, t: Tid, i: nat, j: nat, p: Ptr, k: Token,
      id: int)
      returns (n: nat)
    requires Returned(states, who, t, i, j) && CallAlloc(states[i], t, p, k, id, states[i + 1])
    ensures i < n < j && InsertedAt(states, who, t, n, p, id) && states[j].threads[t].fp == p
    ensures p in states[j].heap && states[j].heap[p].id == id && k in states[j].refs && states[j].refs[k] == Ref(t, p)
  {
    assert Busy(states, t, j - 1);
    n := AllocSoFar(states, who, t, i, j - 1, p, k, id);
    if who[j - 1] != t { Unmoved(states, who, t, j - 1); }
    AlwaysKnown(states, who, j - 1);
    assert ThreadOk(states[j - 1], t);
    var n' := AllocMove(states, who, t, j - 1, n);
  }
}
