/** The timing wheel of linux_advance_server/11/11-5tw_timer.h. */
module TimeWheel {
  import opened Basics
  import opened Lists

  const N := 60
  const TI := 1
  const NULL: Ptr := 0

  datatype Timer = Timer(rotation: int, timeSlot: int, next: Ptr, prev: Ptr)

  type Memory = map<Ptr, Timer>

  // ----- Deadlines -----

  /** The steps of the wheel from the current slot to slot s. */
  function Ahead(now: nat, s: int): int {
    if s >= now % N then s - now % N else s + N - now % N
  }

  /** The number of ticks after which a timer in slot s with the given rotation runs. */
  function Due(now: nat, s: int, rotation: int): int {
    now + Ahead(now, s) + N * rotation
  }

  lemma NextSlot(now: nat)
    ensures (now + 1) % N == (if now % N + 1 == N then 0 else now % N + 1)
  {
  }

  /** A tick passes over the timers of the other slots. */
  lemma DueElsewhere(now: nat, s: int, rotation: int)
    requires 0 <= s < N && s != now % N
    ensures Due(now + 1, s, rotation) == Due(now, s, rotation)
    ensures rotation >= 0 ==> Due(now, s, rotation) > now
  {
    NextSlot(now);
  }

  /** In the current slot a tick takes one rotation off. */
  lemma DueHere(now: nat, rotation: int)
    requires rotation > 0
    ensures Due(now + 1, now % N, rotation - 1) == Due(now, now % N, rotation) > now
  {
    NextSlot(now);
  }

  lemma DueAdded(now: nat, ticks: nat)
    ensures Due(now, (now % N + ticks % N) % N, ticks / N) == now + ticks
    ensures 0 <= (now % N + ticks % N) % N < N && ticks / N >= 0
  {
    var a, b := now % N, ticks % N;
    assert (a + b) % N == if a + b < N then a + b else a + b - N;
    assert ticks == N * (ticks / N) + b;
  }

  // ----- Doubly linked lists -----

  ghost predicate NodeAt(m: Memory, ps: seq<Ptr>, s: int, i: int)
    requires 0 <= i < |ps|
  {
    ps[i] != NULL && ps[i] in m && m[ps[i]].timeSlot == s && m[ps[i]].rotation >= 0 &&
    m[ps[i]].next == At(ps, i + 1) && m[ps[i]].prev == At(ps, i - 1)
  }

  /** The memory holds the list of slot s, linked both ways. */
  ghost predicate ListAt(m: Memory, ps: seq<Ptr>, s: int, head: Ptr) {
    head == At(ps, 0) && Distinct(ps) && forall i :: 0 <= i < |ps| ==> NodeAt(m, ps, s, i)
  }

  lemma {:induction false} ListFrame(m: Memory, m': Memory, ps: seq<Ptr>, s: int, head: Ptr)
    requires ListAt(m, ps, s, head) && forall p :: p in ps && p in m ==> p in m' && m'[p] == m[p]
    ensures ListAt(m', ps, s, head)
  {
    forall i | 0 <= i < |ps| ensures NodeAt(m', ps, s, i) {
      assert NodeAt(m, ps, s, i) && ps[i] in ps;
    }
  }

  lemma {:induction false} InList(m: Memory, ps: seq<Ptr>, s: int, head: Ptr, p: Ptr) returns (i: nat)
    requires ListAt(m, ps, s, head) && p in ps
    ensures i < |ps| && ps[i] == p && NodeAt(m, ps, s, i)
  {
    i :| 0 <= i < |ps| && ps[i] == p;
    assert NodeAt(m, ps, s, i);
  }

  /** The memory after node i has been unlinked and deleted. */
  ghost predicate Removed(m: Memory, m': Memory, ps: seq<Ptr>, i: nat)
    requires i < |ps|
  {
    m'.Keys == m.Keys - {ps[i]} &&
    forall p :: p in m' ==>
      m'[p] == m[p].(next := if p == At(ps, i - 1) then At(ps, i + 1) else m[p].next,
                     prev := if p == At(ps, i + 1) then At(ps, i - 1) else m[p].prev)
  }

  lemma {:induction false} RemoveNode(m: Memory, m': Memory, ps: seq<Ptr>, s: int, head: Ptr, i: nat)
    requires ListAt(m, ps, s, head) && i < |ps| && Removed(m, m', ps, i)
    ensures ListAt(m', Without(ps, i), s, At(Without(ps, i), 0))
    ensures forall p :: p in Without(ps, i) <==> p in ps && p != ps[i]
  {
    var qs := Without(ps, i);
    forall j | 0 <= j < |qs| ensures NodeAt(m', qs, s, j) {
      var k := if j < i then j else j + 1;
      assert qs[j] == ps[k] && NodeAt(m, ps, s, k);
      assert ps[k] == At(ps, i - 1) <==> k == i - 1;
      assert ps[k] == At(ps, i + 1) <==> k == i + 1;
    }
    forall x, y | 0 <= x < y < |qs| ensures qs[x] != qs[y] {
      assert qs[x] == ps[if x < i then x else x + 1] && qs[y] == ps[if y < i then y else y + 1];
    }
    WithoutMembers(ps, i);
  }

  /** A new node in front. */
  lemma {:induction false} PushNode(m: Memory, m': Memory, ps: seq<Ptr>, s: int, head: Ptr, p: Ptr, rotation: int)
    requires ListAt(m, ps, s, head) && p !in m && p != NULL && rotation >= 0
    requires m'.Keys == m.Keys + {p} && m'[p] == Timer(rotation, s, head, NULL)
    requires forall q :: q in m ==> m'[q] == m[q].(prev := if q == head then p else m[q].prev)
    ensures ListAt(m', [p] + ps, s, p)
  {
    var qs := [p] + ps;
    forall j | 0 <= j < |qs| ensures NodeAt(m', qs, s, j) {
      if j > 0 {
        assert qs[j] == ps[j - 1] && NodeAt(m, ps, s, j - 1);
        assert At(qs, j + 1) == At(ps, j) && (j > 1 ==> qs[j] != head);
      } else {
        assert At(qs, 1) == head;
      }
    }
    forall i | 0 <= i < |ps| ensures ps[i] != p { assert NodeAt(m, ps, s, i); }
  }

  /** The node leaves the list and is deleted, as in del_timer and twice in tick. */
  method Unlink(m: Memory, head: Ptr, timer: Ptr, ghost ps: seq<Ptr>, ghost s: int, ghost i: nat)
      returns (m': Memory, head': Ptr)
    requires NULL !in m && ListAt(m, ps, s, head) && i < |ps| && timer == ps[i]
    ensures Removed(m, m', ps, i) && head' == At(Without(ps, i), 0)
  {
    m', head' := m, head;
    assert NodeAt(m, ps, s, i) && (i > 0 ==> NodeAt(m, ps, s, i - 1)) && (i + 1 < |ps| ==> NodeAt(m, ps, s, i + 1));
    if timer == head {
      head' := m[timer].next;
      if head' != NULL {
        m' := m'[head' := m'[head'].(prev := NULL)];
      }
    } else {
      m' := m'[m[timer].prev := m'[m[timer].prev].(next := m[timer].next)];
      if m[timer].next != NULL {
        m' := m'[m[timer].next := m'[m[timer].next].(prev := m[timer].prev)];
      }
    }
    m' := m' - {timer};
  }

  // ----- One tick on the list of the current slot -----

  ghost function Waiting(m: Memory, ps: seq<Ptr>): seq<Ptr> {
    if ps == [] then []
    else
      var p := ps[|ps| - 1];
      Waiting(m, ps[..|ps| - 1]) + if p in m && m[p].rotation > 0 then [p] else []
  }

  ghost function Expired(m: Memory, ps: seq<Ptr>): seq<Ptr> {
    if ps == [] then []
    else
      var p := ps[|ps| - 1];
      Expired(m, ps[..|ps| - 1]) + if p in m && m[p].rotation > 0 then [] else [p]
  }

  lemma {:induction false} Sifted(m: Memory, ps: seq<Ptr>)
    ensures forall p :: p in Waiting(m, ps) <==> p in ps && p in m && m[p].rotation > 0
    ensures forall p :: p in Expired(m, ps) <==> p in ps && !(p in m && m[p].rotation > 0)
    ensures Distinct(ps) ==> Distinct(Expired(m, ps))
  {
    if ps != [] {
      var q := ps[..|ps| - 1];
      Sifted(m, q);
      assert ps == q + [ps[|ps| - 1]];
    }
  }

  /** The memory after the first k nodes of the list have been visited. */
  ghost predicate Ticked(m: Memory, m': Memory, ps: seq<Ptr>, k: nat)
    requires k <= |ps|
  {
    (forall p :: p in m' <==> p in m && p !in Expired(m, ps[..k])) &&
    (forall p :: p in m' ==>
      m'[p].timeSlot == m[p].timeSlot && m'[p].rotation == m[p].rotation - (if p in ps[..k] then 1 else 0)) &&
    (forall p :: p in m' && p !in ps ==> m'[p] == m[p])
  }

  lemma {:induction false} Visit(m0: Memory, m: Memory, ps: seq<Ptr>, s: int, head: Ptr, k: nat)
    requires ListAt(m0, ps, s, head) && k < |ps| && Ticked(m0, m, ps, k)
    ensures ps[k] in m && ps[k] in m0 && m[ps[k]].rotation == m0[ps[k]].rotation
    ensures forall q :: q in Waiting(m0, ps[..k]) + ps[k..] ==> q in ps
  {
    assert NodeAt(m0, ps, s, k);
    assert ps[k] !in ps[..k];
    Sifted(m0, ps[..k]);
  }

  /** How the visit of node k changes the list. */
  lemma {:induction false} VisitLists(m: Memory, ps: seq<Ptr>, k: nat)
    requires k < |ps| && ps[k] in m
    ensures (Waiting(m, ps[..k]) + ps[k..])[|Waiting(m, ps[..k])|] == ps[k]
    ensures At(Waiting(m, ps[..k]) + ps[k..], |Waiting(m, ps[..k])| + 1) == At(ps, k + 1)
    ensures m[ps[k]].rotation > 0 ==>
      Waiting(m, ps[..k + 1]) + ps[k + 1..] == Waiting(m, ps[..k]) + ps[k..] &&
        Expired(m, ps[..k + 1]) == Expired(m, ps[..k])
    ensures m[ps[k]].rotation <= 0 ==>
      Waiting(m, ps[..k + 1]) + ps[k + 1..] == Without(Waiting(m, ps[..k]) + ps[k..], |Waiting(m, ps[..k])|) &&
      Expired(m, ps[..k + 1]) == Expired(m, ps[..k]) + [ps[k]]
  {
    var w, rest, p := Waiting(m, ps[..k]), ps[k + 1..], ps[k];
    assert ps[..k + 1][..k] == ps[..k] && ps[..k + 1][k] == p;
    assert ps[k..] == [p] + rest;
    if m[p].rotation > 0 {
      assert Waiting(m, ps[..k + 1]) == w + [p];
      assert (w + [p]) + rest == w + ([p] + rest);
      assert Expired(m, ps[..k + 1]) == Expired(m, ps[..k]) + [];
    } else {
      assert Waiting(m, ps[..k + 1]) == w + [];
      assert Without(w + ([p] + rest), |w|) == w + rest;
    }
  }

  lemma {:induction false} Decremented(m: Memory, m': Memory, ps: seq<Ptr>, s: int, head: Ptr, i: nat)
    requires ListAt(m, ps, s, head) && i < |ps| && ps[i] in m && m[ps[i]].rotation > 0
    requires m' == m[ps[i] := m[ps[i]].(rotation := m[ps[i]].rotation - 1)]
    ensures ListAt(m', ps, s, head)
  {
    forall j | 0 <= j < |ps| ensures NodeAt(m', ps, s, j) { assert NodeAt(m, ps, s, j); }
  }

  lemma {:induction false} TickedKept(m0: Memory, m: Memory, m': Memory, ps: seq<Ptr>, k: nat)
    requires k < |ps| && Distinct(ps) && Ticked(m0, m, ps, k) && ps[k] in m &&
      Expired(m0, ps[..k + 1]) == Expired(m0, ps[..k])
    requires m' == m[ps[k] := m[ps[k]].(rotation := m[ps[k]].rotation - 1)]
    ensures Ticked(m0, m', ps, k + 1)
  {
    assert ps[..k + 1] == ps[..k] + [ps[k]];
  }

  lemma {:induction false} TickedRemoved(m0: Memory, m: Memory, m': Memory, ps: seq<Ptr>, k: nat, ls: seq<Ptr>, i: nat)
    requires k < |ps| && Distinct(ps) && Ticked(m0, m, ps, k) &&
      Expired(m0, ps[..k + 1]) == Expired(m0, ps[..k]) + [ps[k]]
    requires i < |ls| && ls[i] == ps[k] && Removed(m, m', ls, i) && NULL !in m && forall q :: q in ls ==> q in ps
    ensures Ticked(m0, m', ps, k + 1)
  {
    assert ps[..k + 1] == ps[..k] + [ps[k]];
    assert i > 0 ==> ls[i - 1] in ls;
    assert i + 1 < |ls| ==> ls[i + 1] in ls;
    var e, e' := Expired(m0, ps[..k]), Expired(m0, ps[..k + 1]);
    forall p ensures p in e' <==> p in e || p == ps[k] {}
    forall p | p in m' ensures m'[p].timeSlot == m[p].timeSlot && m'[p].rotation == m[p].rotation && p != ps[k] {}
    forall p | p in m' && p !in ps ensures m'[p] == m[p] {}
  }

  /** The state of the loop of tick before node k. */
  ghost predicate Ticking(m0: Memory, m: Memory, head: Ptr, tmp: Ptr, fired: seq<Ptr>, ps: seq<Ptr>, s: int, k: nat) {
    k <= |ps| && tmp == At(ps, k) && fired == Expired(m0, ps[..k]) && Ticked(m0, m, ps, k) &&
    ListAt(m, Waiting(m0, ps[..k]) + ps[k..], s, head)
  }

  /** One round of the loop. */
  method TickOne(ghost m0: Memory, m: Memory, head: Ptr, tmp: Ptr, fired: seq<Ptr>, ghost ps: seq<Ptr>, ghost s: int,
      ghost k: nat)
      returns (m': Memory, head': Ptr, tmp': Ptr, fired': seq<Ptr>)
    requires NULL !in m0 && ListAt(m0, ps, s, At(ps, 0)) && k < |ps| && Ticking(m0, m, head, tmp, fired, ps, s, k)
    ensures Ticking(m0, m', head', tmp', fired', ps, s, k + 1)
  {
    m', head', fired' := m, head, fired;
    ghost var w, rest := Waiting(m0, ps[..k]), ps[k..];
    ghost var i := |w|;
    Visit(m0, m, ps, s, At(ps, 0), k);
    VisitLists(m0, ps, k);
    assert NodeAt(m, w + rest, s, i);
    if m[tmp].rotation > 0 {
      m' := m[tmp := m[tmp].(rotation := m[tmp].rotation - 1)];
      Decremented(m, m', w + rest, s, head, i);
      TickedKept(m0, m, m', ps, k);
      tmp' := m'[tmp].next;
    } else {
      fired' := fired + [tmp];
      tmp' := m[tmp].next;
      m', head' := Unlink(m, head, tmp, w + rest, s, i);
      RemoveNode(m, m', w + rest, s, head, i);
      TickedRemoved(m0, m, m', ps, k, w + rest, i);
    }
  }

  /** The loop of tick: every timer of the list loses one rotation, those that have none left run and are deleted. */
  method TickList(m0: Memory, head0: Ptr, ghost ps: seq<Ptr>, ghost s: int)
      returns (m: Memory, head: Ptr, fired: seq<Ptr>)
    requires NULL !in m0 && ListAt(m0, ps, s, head0)
    ensures ListAt(m, Waiting(m0, ps), s, head) && fired == Expired(m0, ps) && Ticked(m0, m, ps, |ps|)
  {
    m, head, fired := m0, head0, [];
    var tmp := head;
    ghost var k := 0;
    assert ps[..0] == [] && [] + ps[0..] == ps;
    while tmp != NULL
      invariant Ticking(m0, m, head, tmp, fired, ps, s, k)
      decreases |ps| - k
    {
      m, head, tmp, fired := TickOne(m0, m, head, tmp, fired, ps, s, k);
      k := k + 1;
    }
    assert k < |ps| ==> NodeAt(m0, ps, s, k);
    assert ps[..k] == ps && ps[k..] == [];
    assert Waiting(m0, ps) + [] == Waiting(m0, ps);
  }

  // ----- The wheel -----

  /** The deadline of every pending timer. */
  type Deadlines = map<Ptr, int>

  ghost predicate WheelOk(m: Memory, heads: seq<Ptr>, now: nat, lists: seq<seq<Ptr>>, pending: Deadlines) {
    |heads| == |lists| == N && NULL !in m && m.Keys == pending.Keys &&
    (forall s :: 0 <= s < N ==> ListAt(m, lists[s], s, heads[s])) &&
    (forall p :: p in m ==> Placed(m, now, lists, pending, p))
  }

  ghost predicate Placed(m: Memory, now: nat, lists: seq<seq<Ptr>>, pending: Deadlines, p: Ptr)
    requires p in m && |lists| == N
  {
    0 <= m[p].timeSlot < N && p in lists[m[p].timeSlot] && p in pending &&
      pending[p] == Due(now, m[p].timeSlot, m[p].rotation)
  }

  lemma {:induction false} Elsewhere(m: Memory, ps: seq<Ptr>, s: int, head: Ptr)
    requires ListAt(m, ps, s, head)
    ensures forall p :: p in ps ==> p in m && m[p].timeSlot == s && m[p].rotation >= 0
  {
    forall p | p in ps ensures p in m && m[p].timeSlot == s && m[p].rotation >= 0 {
      var i := InList(m, ps, s, head, p);
    }
  }

  lemma {:induction false} AddOk(m: Memory, m': Memory, heads: seq<Ptr>, now: nat, lists: seq<seq<Ptr>>,
      pending: Deadlines, p: Ptr, ticks: nat)
    requires WheelOk(m, heads, now, lists, pending) && p !in m && p != NULL
    requires var ts := (now % N + ticks % N) % N;
      m'.Keys == m.Keys + {p} && m'[p] == Timer(ticks / N, ts, heads[ts], NULL) &&
      forall q :: q in m ==> m'[q] == m[q].(prev := if q == heads[ts] then p else m[q].prev)
    ensures var ts := (now % N + ticks % N) % N;
      WheelOk(m', heads[ts := p], now, lists[ts := [p] + lists[ts]], pending[p := now + ticks])
  {
    var ts := (now % N + ticks % N) % N;
    DueAdded(now, ticks);
    PushNode(m, m', lists[ts], ts, heads[ts], p, ticks / N);
    Elsewhere(m, lists[ts], ts, heads[ts]);
    assert heads[ts] != NULL ==> heads[ts] in lists[ts];
    forall s | 0 <= s < N && s != ts ensures ListAt(m', lists[s], s, heads[s]) {
      Elsewhere(m, lists[s], s, heads[s]);
      ListFrame(m, m', lists[s], s, heads[s]);
    }
    forall q | q in m ensures Placed(m', now, lists[ts := [p] + lists[ts]], pending[p := now + ticks], q) {
      assert Placed(m, now, lists, pending, q);
      assert m'[q].timeSlot == m[q].timeSlot && m'[q].rotation == m[q].rotation;
    }
    assert Placed(m', now, lists[ts := [p] + lists[ts]], pending[p := now + ticks], p);
  }

  /** A new timer in front of the list of its slot. */
  method Push(m: Memory, head: Ptr, timer: Ptr, rotation: int, ts: int, ghost ps: seq<Ptr>) returns (m': Memory)
    requires ListAt(m, ps, ts, head) && timer !in m && timer != NULL && NULL !in m
    ensures m'.Keys == m.Keys + {timer} && m'[timer] == Timer(rotation, ts, head, NULL)
    ensures forall q :: q in m ==> m'[q] == m[q].(prev := if q == head then timer else m[q].prev)
  {
    m' := m[timer := Timer(rotation, ts, NULL, NULL)];
    if head != NULL {
      assert NodeAt(m, ps, ts, 0);
      m' := m'[timer := m'[timer].(next := head)];
      m' := m'[head := m'[head].(prev := timer)];
    }
  }

  lemma {:induction false} RemovedElsewhere(m: Memory, m': Memory, ps: seq<Ptr>, s: int, head: Ptr, i: nat,
      qs: seq<Ptr>, t: int, other: Ptr)
    requires ListAt(m, ps, s, head) && i < |ps| && Removed(m, m', ps, i) && NULL !in m && ListAt(m, qs, t, other) &&
      s != t
    ensures ListAt(m', qs, t, other)
  {
    Elsewhere(m, ps, s, head);
    Elsewhere(m, qs, t, other);
    assert i > 0 ==> ps[i - 1] in ps;
    assert i + 1 < |ps| ==> ps[i + 1] in ps;
    ListFrame(m, m', qs, t, other);
  }

  lemma {:induction false} DelOk(m: Memory, m': Memory, heads: seq<Ptr>, now: nat, lists: seq<seq<Ptr>>,
      pending: Deadlines, s: int, i: nat)
    requires WheelOk(m, heads, now, lists, pending) && 0 <= s < N && i < |lists[s]| && Removed(m, m', lists[s], i)
    ensures WheelOk(m', heads[s := At(Without(lists[s], i), 0)], now, lists[s := Without(lists[s], i)],
      pending - {lists[s][i]})
  {
    RemoveNode(m, m', lists[s], s, heads[s], i);
    Elsewhere(m, lists[s], s, heads[s]);
    forall t | 0 <= t < N && t != s ensures ListAt(m', lists[t], t, heads[t]) {
      RemovedElsewhere(m, m', lists[s], s, heads[s], i, lists[t], t, heads[t]);
    }
    forall q | q in m' ensures Placed(m', now, lists[s := Without(lists[s], i)], pending - {lists[s][i]}, q) {
      assert Placed(m, now, lists, pending, q);
    }
  }

  /** The timers due now, and the others. */
  ghost function Later(pending: Deadlines, now: nat): Deadlines {
    map p | p in pending && pending[p] != now :: pending[p]
  }

  lemma {:induction false} DueNow(m: Memory, heads: seq<Ptr>, now: nat, lists: seq<seq<Ptr>>, pending: Deadlines,
      p: Ptr)
    requires WheelOk(m, heads, now, lists, pending) && p in m
    ensures pending[p] == now <==> p in Expired(m, lists[now % N])
    ensures pending[p] >= now
  {
    assert Placed(m, now, lists, pending, p);
    var s := m[p].timeSlot;
    Elsewhere(m, lists[s], s, heads[s]);
    Elsewhere(m, lists[now % N], now % N, heads[now % N]);
    Sifted(m, lists[now % N]);
    if s != now % N { DueElsewhere(now, s, m[p].rotation); } else if m[p].rotation > 0 { DueHere(now, m[p].rotation); }
  }

  /** The wheel after the tick at time now, when slot s has been gone through. */
  lemma {:induction false} TickOk(m: Memory, m': Memory, heads: seq<Ptr>, now: nat, lists: seq<seq<Ptr>>,
      pending: Deadlines, head: Ptr, s: nat, heads': seq<Ptr>, now': nat, lists': seq<seq<Ptr>>, pending': Deadlines)
    requires WheelOk(m, heads, now, lists, pending) && s == now % N
    requires ListAt(m', Waiting(m, lists[s]), s, head) && Ticked(m, m', lists[s], |lists[s]|)
    requires heads' == heads[s := head] && now' == now + 1 && lists' == lists[s := Waiting(m, lists[s])] &&
      pending' == Later(pending, now)
    ensures WheelOk(m', heads', now', lists', pending')
    ensures forall p :: p in Expired(m, lists[s]) <==> p in pending && pending[p] == now
  {
    TickKeys(m, m', heads, now, lists, pending);
    TickLists(m, m', heads, lists, s, head, heads', lists');
    forall q | q in m' ensures Placed(m', now', lists', pending', q) {
      TickPlaced(m, m', heads, now, lists, pending, q);
    }
  }

  lemma {:induction false} TickLists(m: Memory, m': Memory, heads: seq<Ptr>, lists: seq<seq<Ptr>>, s: nat, head: Ptr,
                                     heads': seq<Ptr>, lists': seq<seq<Ptr>>)
    requires |heads| == |lists| == N && s < N && forall t :: 0 <= t < N ==> ListAt(m, lists[t], t, heads[t])
    requires ListAt(m', Waiting(m, lists[s]), s, head) && Ticked(m, m', lists[s], |lists[s]|)
    requires heads' == heads[s := head] && lists' == lists[s := Waiting(m, lists[s])]
    ensures forall t :: 0 <= t < N ==> ListAt(m', lists'[t], t, heads'[t])
  {
    forall t | 0 <= t < N ensures ListAt(m', lists'[t], t, heads'[t]) {
      if t != s { TickElsewhere(m, m', lists[s], s, heads[s], lists[t], t, heads[t]); }
    }
  }

  lemma {:induction false} TickKeys(m: Memory, m': Memory, heads: seq<Ptr>, now: nat, lists: seq<seq<Ptr>>,
      pending: Deadlines)
    requires WheelOk(m, heads, now, lists, pending) && Ticked(m, m', lists[now % N], |lists[now % N]|)
    ensures m'.Keys == Later(pending, now).Keys && NULL !in m'
    ensures forall p :: p in Expired(m, lists[now % N]) <==> p in pending && pending[p] == now
  {
    var ps := lists[now % N];
    assert ps[..|ps|] == ps;
    assert ListAt(m, ps, now % N, heads[now % N]);
    Elsewhere(m, ps, now % N, heads[now % N]);
    Sifted(m, ps);
    var e := Expired(m, ps);
    forall p | p in m ensures (pending[p] == now <==> p in e) { DueNow(m, heads, now, lists, pending, p); }
  }

  lemma {:induction false} TickElsewhere(m: Memory, m': Memory, ps: seq<Ptr>, s: int, head: Ptr, qs: seq<Ptr>, t: int,
      other: Ptr)
    requires ListAt(m, ps, s, head) && Ticked(m, m', ps, |ps|) && ListAt(m, qs, t, other) && s != t
    ensures ListAt(m', qs, t, other)
  {
    assert ps[..|ps|] == ps;
    Sifted(m, ps);
    Elsewhere(m, ps, s, head);
    Elsewhere(m, qs, t, other);
    ListFrame(m, m', qs, t, other);
  }

  lemma {:induction false} TickPlaced(m: Memory, m': Memory, heads: seq<Ptr>, now: nat, lists: seq<seq<Ptr>>,
      pending: Deadlines, q: Ptr)
    requires WheelOk(m, heads, now, lists, pending) && q in m' && Ticked(m, m', lists[now % N], |lists[now % N]|)
    ensures Placed(m', now + 1, lists[now % N := Waiting(m, lists[now % N])], Later(pending, now), q)
  {
    var s := now % N;
    var ps := lists[s];
    assert ps[..|ps|] == ps && q in m;
    Sifted(m, ps);
    DueNow(m, heads, now, lists, pending, q);
    assert Placed(m, now, lists, pending, q);
    var t := m[q].timeSlot;
    assert ListAt(m, ps, s, heads[s]);
    Elsewhere(m, ps, s, heads[s]);
    if t != s {
      assert ListAt(m, lists[t], t, heads[t]);
      Elsewhere(m, lists[t], t, heads[t]);
      DueElsewhere(now, t, m[q].rotation);
    } else {
      DueHere(now, m[q].rotation);
    }
  }

  class Wheel {
    var mem: Memory
    const slots: array<Ptr>
    var curSlot: nat
    ghost var now: nat
    ghost var lists: seq<seq<Ptr>>
    ghost var pending: Deadlines

    ghost predicate Valid()
      reads this, slots
    {
      slots.Length == N && curSlot == now % N && WheelOk(mem, slots[..], now, lists, pending)
    }

    constructor ()
      ensures Valid() && fresh(slots) && now == 0 && pending == map[]
    {
      slots := new Ptr[N];
      new;
      curSlot, now, pending, mem := 0, 0, map[], map[];
      for i := 0 to N
        invariant forall j :: 0 <= j < i ==> slots[j] == NULL
        modifies slots
      {
        slots[i] := NULL;
      }
      lists := seq(N, i => []);
    }

    /** Adds a timer, at the address given by new, that is due after max(1, timeout / TI) more ticks. */
    method AddTimer(timeout: int, address: Ptr) returns (timer: Ptr)
      requires Valid() && address != NULL && address !in mem
      modifies this, slots
      ensures Valid() && now == old(now)
      ensures timeout < 0 ==> timer == NULL && pending == old(pending)
      ensures timeout >= 0 ==>
        timer == address && pending == old(pending)[timer := now + if timeout < TI then 1 else timeout / TI]
    {
      if timeout < 0 {
        return NULL;
      }
      var ticks := 0;
      if timeout < TI {
        ticks := 1;
      } else {
        ticks := timeout / TI;
      }
      var rotation := ticks / N;
      var ts := (curSlot + ticks % N) % N;
      timer := address;
      ghost var m, heads := mem, slots[..];
      assert ListAt(m, lists[ts], ts, slots[ts]);
      mem := Push(mem, slots[ts], timer, rotation, ts, lists[ts]);
      slots[ts] := timer;
      AddOk(m, mem, heads, now, lists, pending, timer, ticks);
      lists, pending := lists[ts := [timer] + lists[ts]], pending[timer := now + ticks];
      assert slots[..] == heads[ts := timer];
    }

    /** Deletes a pending timer. */
    method DelTimer(timer: Ptr)
      requires Valid() && (timer == NULL || timer in pending)
      modifies this, slots
      ensures Valid() && now == old(now) && pending == old(pending) - {timer}
    {
      if timer == NULL {
        return;
      }
      assert Placed(mem, now, lists, pending, timer);
      var ts := mem[timer].timeSlot;
      ghost var m, heads := mem, slots[..];
      ghost var i := InList(mem, lists[ts], ts, slots[ts], timer);
      var head;
      mem, head := Unlink(mem, slots[ts], timer, lists[ts], ts, i);
      slots[ts] := head;
      DelOk(m, mem, heads, now, lists, pending, ts, i);
      lists, pending := lists[ts := Without(lists[ts], i)], pending - {timer};
      assert slots[..] == heads[ts := head];
    }

    /** Runs and deletes exactly the timers that are due, once each. */
    method Tick() returns (fired: seq<Ptr>)
      requires Valid()
      modifies this, slots
      ensures Valid() && now == old(now) + 1 && pending == Later(old(pending), old(now))
      ensures Distinct(fired) && forall p :: p in fired <==> p in old(pending) && old(pending)[p] == old(now)
    {
      ghost var m, heads := mem, slots[..];
      ghost var ps := lists[curSlot];
      var head;
      assert ListAt(m, ps, curSlot, slots[curSlot]);
      mem, head, fired := TickList(mem, slots[curSlot], ps, curSlot);
      Sifted(m, ps);
      ghost var heads', now' := heads[curSlot := head], now + 1;
      ghost var lists', pending' := lists[curSlot := Waiting(m, ps)], Later(pending, now);
      TickOk(m, mem, heads, now, lists, pending, head, curSlot, heads', now', lists', pending');
      slots[curSlot] := head;
      assert slots[..] == heads';
      NextSlot(now);
      curSlot, now, lists, pending := (curSlot + 1) % N, now', lists', pending';
    }
  }

  // ----- Runs -----

  /** A call on the wheel, with the timer it returns, deletes or runs. */
  datatype Call = Add(timer: Ptr, ticks: nat) | Del(timer: Ptr) | Tick(fired: seq<Ptr>)

  datatype State = State(now: nat, pending: Deadlines)

  /** What AddTimer, DelTimer and Tick do to the deadlines. */
  ghost predicate Step(a: State, c: Call, b: State) {
    match c
    case Add(p, k) => p !in a.pending && b == State(a.now, a.pending[p := a.now + k])
    case Del(p) => b == State(a.now, a.pending - {p})
    case Tick(f) =>
      b == State(a.now + 1, Later(a.pending, a.now)) && Distinct(f) &&
      forall p :: p in f <==> p in a.pending && a.pending[p] == a.now
  }

  ghost predicate Run(states: seq<State>, calls: seq<Call>) {
    |states| == |calls| + 1 && forall i :: 0 <= i < |calls| ==> Step(states[i], calls[i], states[i + 1])
  }

  /** The number of ticks among calls i to j - 1. */
  function Ticks(calls: seq<Call>, i: nat, j: nat): nat
    requires i <= j <= |calls|
  {
    if i == j then 0 else Ticks(calls, i, j - 1) + if calls[j - 1].Tick? then 1 else 0
  }

  /** Calls i to j - 1 neither delete the timer nor reuse its address. */
  ghost predicate Untouched(calls: seq<Call>, p: Ptr, i: nat, j: nat)
    requires i <= j <= |calls|
  {
    forall c :: i <= c < j && !calls[c].Tick? ==> calls[c].timer != p
  }

  lemma {:induction false} NowCountsTicks(states: seq<State>, calls: seq<Call>, i: nat, j: nat)
    requires Run(states, calls) && i <= j <= |calls|
    ensures states[j].now == states[i].now + Ticks(calls, i, j)
  {
    if i < j {
      NowCountsTicks(states, calls, i, j - 1);
      assert Step(states[j - 1], calls[j - 1], states[j]);
    }
  }

  /** A timer is pending until its tick has come, and not afterwards. */
  lemma {:induction false} PendingUntilDue(states: seq<State>, calls: seq<Call>, i: nat, j: nat)
    requires Run(states, calls) && i < j <= |calls| && calls[i].Add? && Untouched(calls, calls[i].timer, i + 1, j)
    ensures calls[i].timer in states[j].pending <==> Ticks(calls, i, j) <= calls[i].ticks
    ensures calls[i].timer in states[j].pending ==> states[j].pending[calls[i].timer] == states[i].now + calls[i].ticks
  {
    assert Step(states[j - 1], calls[j - 1], states[j]);
    if i + 1 < j {
      PendingUntilDue(states, calls, i, j - 1);
      NowCountsTicks(states, calls, i, j - 1);
    } else {
      assert Ticks(calls, i, i) == 0;
    }
  }

  /** In every run a timer added for k ticks runs on the (k + 1)-th later tick and on no other, whatever else is
      added and deleted. */
  lemma {:induction false} RunsOnceOnTime(states: seq<State>, calls: seq<Call>, i: nat, j: nat)
    requires Run(states, calls) && i < j < |calls| && calls[i].Add? && Untouched(calls, calls[i].timer, i + 1, j) &&
      calls[j].Tick?
    ensures calls[i].timer in calls[j].fired <==> Ticks(calls, i, j) == calls[i].ticks
    ensures Distinct(calls[j].fired)
  {
    PendingUntilDue(states, calls, i, j);
    NowCountsTicks(states, calls, i, j);
    assert Step(states[j], calls[j], states[j + 1]);
  }
}
