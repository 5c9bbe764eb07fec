/**
 Threads on one core: the run queue, the waiting lists and the timer queue, as a step system.
 Every step is a region the kernel runs with interrupts off.
 */
module Threads {

  const NONE: int := -1

  /** Where a thread is. A finished one stays with its stopped process until that is reaped, and is then gone. */
  datatype Place = Running | Ready | Waiting(list: int) | Sleeping | Stopped | Gone

  /**
   `place` records each thread's place; the queues, the blocking flags and each thread's link to the next in its
   waiting list are what the kernel keeps. `reaped` says that a wait took notice of a stopped thread, and `deleted`
   that its memory was freed; its fields keep what they held.
   */
  datatype Sched = Sched(
    current: int, runq: seq<int>, lists: seq<seq<int>>, timers: seq<int>, blocking: seq<bool>, next: seq<int>,
    finished: seq<bool>, reaped: seq<bool>, deleted: seq<bool>, place: seq<Place>)

  datatype Act =
    | Spawn
    | Enter
    | Yield
    | Block(list: int)
    | Sleep
    | Exit(process: bool)
    | Reap(t: int)
    | Destroy(t: int)
    | Fire(k: int)
    | UnblockNext(list: int)
    | UnblockAll(list: int)

  predicate Enabled(s: Sched, a: Act) {
    match a
    case Spawn => true
    case Enter => s.current == NONE && s.runq != []
    case Yield => s.current != NONE
    case Block(l) => s.current != NONE && 0 <= l < |s.lists|
    case Sleep => s.current != NONE
    case Exit(_) => s.current != NONE
    case Reap(t) => 0 <= t < |s.place| == |s.deleted| && s.place[t] == Stopped && !s.deleted[t]
    case Destroy(t) =>
      s.current == NONE && 0 <= t < |s.place| == |s.deleted| == |s.reaped| && !s.deleted[t] && !s.reaped[t]
    case Fire(k) => 0 <= k < |s.timers|
    case UnblockNext(l) => 0 <= l < |s.lists|
    case UnblockAll(l) => 0 <= l < |s.lists|
  }

  /** Scheduler::schedule puts a thread at the end of the run queue. */
  function Schedule(s: Sched, t: int): Sched
    requires 0 <= t < |s.place|
  {
    s.(runq := s.runq + [t], place := s.place[t := Ready])
  }

  /** Leading threads whose flag is already clear are dropped without being scheduled. */
  function Skip(q: seq<int>, blocking: seq<bool>): seq<int> {
    if q != [] && 0 <= q[0] < |blocking| && !blocking[q[0]] then Skip(q[1..], blocking) else q
  }

  /** unblock_next_thread */
  function WakeNext(s: Sched, l: int): Sched
    requires 0 <= l < |s.lists|
  {
    var q := Skip(s.lists[l], s.blocking);
    if q == [] || !(0 <= q[0] < |s.place| == |s.blocking| == |s.next|) then s.(lists := s.lists[l := q])
    else
      var s1 := s.(lists := s.lists[l := q[1..]]);
      Schedule(s1.(blocking := s.blocking[q[0] := false], next := s.next[q[0] := NONE]), q[0])
  }

  /** One round of unblock_all_threads. */
  function WakeOne(s: Sched, l: int): Sched
    requires 0 <= l < |s.lists| && s.lists[l] != []
    requires 0 <= s.lists[l][0] < |s.place| == |s.blocking| == |s.next|
  {
    var t := s.lists[l][0];
    var s1 := s.(lists := s.lists[l := s.lists[l][1..]]);
    Schedule(s1.(blocking := s.blocking[t := false], next := s.next[t := NONE]), t)
  }

  ghost predicate InTable(s: Sched, q: seq<int>) {
    |s.place| == |s.blocking| == |s.next| && forall i :: 0 <= i < |q| ==> 0 <= q[i] < |s.place|
  }

  /** unblock_all_threads */
  function WakeAll(s: Sched, l: int): (r: Sched)
    requires 0 <= l < |s.lists| && InTable(s, s.lists[l])
    ensures |r.lists| == |s.lists| && r.lists[l] == []
    decreases |s.lists[l]|
  {
    if s.lists[l] == [] then s else WakeAll(WakeOne(s, l), l)
  }

  /** The last thread in line, if there is one, gets a link to the newcomer. */
  function Linked(next: seq<int>, q: seq<int>, t: int): (r: seq<int>)
    requires forall i :: 0 <= i < |q| ==> 0 <= q[i] < |next|
    ensures |r| == |next|
  {
    if q == [] then next else next[q[|q| - 1] := t]
  }

  /** The thread leaves the core; the scheduler puts it back unless its flag is set. */
  function Leave(s: Sched, place: Place): Sched
    requires 0 <= s.current < |s.place|
  {
    s.(current := NONE, place := s.place[s.current := place])
  }

  /** The destructor of a process kills and frees its children's threads, but takes them off no queue. */
  function Destroyed(place: seq<Place>, t: int): seq<Place>
    requires 0 <= t < |place|
  {
    if place[t] == Stopped then place[t := Gone] else place
  }

  ghost predicate Steppable(s: Sched, a: Act) {
    && Enabled(s, a)
    && |s.place| == |s.blocking| == |s.next| == |s.finished| == |s.reaped| == |s.deleted|
    && (s.current == NONE || 0 <= s.current < |s.place|)
    && InTable(s, s.runq) && InTable(s, s.timers)
    && (forall l :: 0 <= l < |s.lists| ==> InTable(s, s.lists[l]))
  }

  function Step(s: Sched, a: Act): Sched
    requires Steppable(s, a)
  {
    match a
    case Spawn =>
      s.(runq := s.runq + [|s.place|], place := s.place + [Ready], blocking := s.blocking + [false],
         next := s.next + [NONE], finished := s.finished + [false], reaped := s.reaped + [false],
         deleted := s.deleted + [false])
    case Enter =>
      var t, s1 := s.runq[0], s.(runq := s.runq[1..]);
      if !s.finished[t] then s1.(current := t, place := s.place[t := Running])
      else if s.reaped[t] then s1.(deleted := s.deleted[t := true], place := s.place[t := Gone])
      else s1.(place := s.place[t := Stopped])
    case Yield =>
      if s.blocking[s.current] then Leave(s, s.place[s.current])
      else Schedule(s, s.current).(current := NONE)
    case Block(l) =>
      Leave(s, Waiting(l)).(lists := s.lists[l := s.lists[l] + [s.current]], blocking := s.blocking[s.current := true],
                            next := Linked(s.next, s.lists[l], s.current))
    case Sleep =>
      Leave(s, Sleeping).(timers := s.timers + [s.current], blocking := s.blocking[s.current := true])
    case Exit(process) =>
      Leave(s, if process then Stopped else Gone).(
        finished := s.finished[s.current := true], deleted := s.deleted[s.current := !process])
    case Reap(t) => Schedule(s, t).(reaped := s.reaped[t := true])
    case Destroy(t) =>
      s.(finished := s.finished[t := true], deleted := s.deleted[t := true], place := Destroyed(s.place, t))
    case Fire(k) =>
      var t := s.timers[k];
      Schedule(s.(timers := s.timers[..k] + s.timers[k + 1..], blocking := s.blocking[t := false]), t)
    case UnblockNext(l) => WakeNext(s, l)
    case UnblockAll(l) => WakeAll(s, l)
  }

  // ---------------------------------------------------------------- the invariant

  ghost predicate Distinct(q: seq<int>) { forall i, j :: 0 <= i < j < |q| ==> q[i] != q[j] }

  /** A queue holds exactly the threads in the place `p`, once each. */
  ghost predicate Queue(q: seq<int>, place: seq<Place>, p: Place) {
    && Distinct(q)
    && (forall i :: 0 <= i < |q| ==> 0 <= q[i] < |place| && place[q[i]] == p)
    && (forall t :: 0 <= t < |place| && place[t] == p ==> t in q)
  }

  predicate Blocked(p: Place) { p.Waiting? || p.Sleeping? }

  ghost predicate FlagsOk(blocking: seq<bool>, place: seq<Place>) {
    |blocking| == |place| && forall t :: 0 <= t < |place| ==> (blocking[t] <==> Blocked(place[t]))
  }

  ghost predicate CurrentOk(current: int, place: seq<Place>) {
    && (current == NONE || 0 <= current < |place|)
    && (forall t :: 0 <= t < |place| ==> (place[t] == Running <==> current == t))
  }

  ghost predicate ListsOk(lists: seq<seq<int>>, place: seq<Place>) {
    && (forall l :: 0 <= l < |lists| ==> Queue(lists[l], place, Waiting(l)))
    && (forall t :: 0 <= t < |place| && place[t].Waiting? ==> 0 <= place[t].list < |lists|)
  }

  /** Each thread in a list links to the one behind it, and the last to nobody. */
  ghost predicate Chained(q: seq<int>, next: seq<int>) {
    && (forall i :: 0 <= i < |q| ==> 0 <= q[i] < |next|)
    && (forall i {:trigger next[q[i]]} :: 0 <= i < |q| ==> next[q[i]] == After1(q, i))
  }

  function After1(q: seq<int>, i: int): int
    requires 0 <= i < |q|
  {
    if i + 1 < |q| then q[i + 1] else NONE
  }

  /** The links follow the lists, and a thread outside every list has none. */
  ghost predicate LinksOk(s: Sched) {
    && |s.next| == |s.place|
    && (forall l :: 0 <= l < |s.lists| ==> Chained(s.lists[l], s.next))
    && (forall t :: 0 <= t < |s.place| && !s.place[t].Waiting? ==> s.next[t] == NONE)
  }

  /**
   A running thread is not finished, and one that waits, sleeps or is ready is so only if it was reaped or destroyed;
   one that stopped or is gone is finished, and the latter deleted.
   */
  predicate StageOk(finished: bool, reaped: bool, deleted: bool, p: Place) {
    match p
    case Running => !finished && !reaped && !deleted
    case Ready => (finished <==> reaped || deleted) && !(reaped && deleted)
    case Waiting(_) => (finished <==> deleted) && !reaped
    case Sleeping => (finished <==> deleted) && !reaped
    case Stopped => finished && !reaped
    case Gone => finished && deleted
  }

  ghost predicate StagesOk(s: Sched) {
    && |s.finished| == |s.reaped| == |s.deleted| == |s.place|
    && forall t :: 0 <= t < |s.place| ==> StageOk(s.finished[t], s.reaped[t], s.deleted[t], s.place[t])
  }

  ghost predicate Valid(s: Sched) {
    && LinksOk(s) && StagesOk(s)
    && CurrentOk(s.current, s.place)
    && Queue(s.runq, s.place, Ready)
    && Queue(s.timers, s.place, Sleeping)
    && ListsOk(s.lists, s.place)
    && FlagsOk(s.blocking, s.place)
  }

  lemma ValidSteppable(s: Sched, a: Act)
    requires Valid(s) && Enabled(s, a)
    ensures Steppable(s, a)
  {
    forall l | 0 <= l < |s.lists| ensures InTable(s, s.lists[l]) { assert Queue(s.lists[l], s.place, Waiting(l)); }
  }

  // ---------------------------------------------------------------- queues

  lemma QueueSame(q: seq<int>, place: seq<Place>, p: Place, t: int, p': Place)
    requires Queue(q, place, p) && 0 <= t < |place| && place[t] != p && p' != p
    ensures Queue(q, place[t := p'], p)
  {
  }

  lemma QueueJoin(q: seq<int>, place: seq<Place>, p: Place, t: int)
    requires Queue(q, place, p) && 0 <= t < |place| && place[t] != p
    ensures Queue(q + [t], place[t := p], p)
  {
  }

  lemma QueueLeave(q: seq<int>, place: seq<Place>, p: Place, k: int, p': Place)
    requires Queue(q, place, p) && 0 <= k < |q| && p' != p
    ensures 0 <= q[k] < |place| && Queue(q[..k] + q[k + 1..], place[q[k] := p'], p)
  {
    var q', place' := q[..k] + q[k + 1..], place[q[k] := p'];
    forall t | 0 <= t < |place'| && place'[t] == p ensures t in q' {
      assert t in q;
      var i :| 0 <= i < |q| && q[i] == t;
      assert if i < k then q'[i] == t else q'[i - 1] == t;
    }
  }

  lemma QueueNew(q: seq<int>, place: seq<Place>, p: Place)
    requires Queue(q, place, p)
    ensures p == Ready ==> Queue(q + [|place|], place + [Ready], p)
    ensures p != Ready ==> Queue(q, place + [Ready], p)
  {
  }

  lemma FlagSet(blocking: seq<bool>, place: seq<Place>, t: int, p: Place)
    requires FlagsOk(blocking, place) && 0 <= t < |place|
    ensures FlagsOk(blocking[t := Blocked(p)], place[t := p])
  {
  }

  lemma CurrentLeaves(place: seq<Place>, t: int, p: Place)
    requires CurrentOk(t, place) && 0 <= t < |place| && p != Running
    ensures CurrentOk(NONE, place[t := p])
  {
  }

  lemma CurrentEnters(place: seq<Place>, t: int)
    requires CurrentOk(NONE, place) && 0 <= t < |place|
    ensures CurrentOk(t, place[t := Running])
  {
  }

  // ---------------------------------------------------------------- each step

  ghost predicate Moved(s: Sched, t: int, p: Place, s': Sched) {
    && 0 <= t < |s.place| && s'.place == s.place[t := p]
    && |s.lists| == |s'.lists| && |s.blocking| == |s.place| && s'.blocking == s.blocking[t := Blocked(p)]
  }

  /** Lists other than the ones a thread leaves and joins are unaffected by its move. */
  lemma ListsMoved(s: Sched, t: int, p: Place, s': Sched)
    requires ListsOk(s.lists, s.place) && Moved(s, t, p, s')
    requires p.Waiting? ==> 0 <= p.list < |s.lists|
    requires forall l :: 0 <= l < |s.lists| && Waiting(l) != s.place[t] && Waiting(l) != p ==> s'.lists[l] == s.lists[l]
    requires forall l :: 0 <= l < |s.lists| && (Waiting(l) == s.place[t] || Waiting(l) == p) ==>
        Queue(s'.lists[l], s'.place, Waiting(l))
    ensures ListsOk(s'.lists, s'.place)
  {
    forall l | 0 <= l < |s'.lists| ensures Queue(s'.lists[l], s'.place, Waiting(l)) {
      if Waiting(l) != s.place[t] && Waiting(l) != p {
        assert Queue(s.lists[l], s.place, Waiting(l));
        QueueSame(s.lists[l], s.place, Waiting(l), t, p);
      }
    }
  }

  lemma WakeOneLinks(s: Sched, l: int)
    requires LinksOk(s) && ListsOk(s.lists, s.place) && FlagsOk(s.blocking, s.place) && 0 <= l < |s.lists|
    requires s.lists[l] != []
    ensures InTable(s, s.lists[l]) && LinksOk(WakeOne(s, l))
  {
    assert Queue(s.lists[l], s.place, Waiting(l));
    var t, s' := s.lists[l][0], WakeOne(s, l);
    forall m | 0 <= m < |s'.lists| ensures Chained(s'.lists[m], s'.next) {
      assert Queue(s.lists[m], s.place, Waiting(m)) && Chained(s.lists[m], s.next);
      if m == l { ChainedTail(s.lists[l], s.next); } else { ChainedOther(s.lists[m], s.next, t, NONE); }
    }
  }

  lemma ChainedTail(q: seq<int>, next: seq<int>)
    requires Chained(q, next) && q != [] && Distinct(q)
    ensures 0 <= q[0] < |next| && Chained(q[1..], next[q[0] := NONE])
  {
    var r := q[1..];
    forall i | 0 <= i < |r| ensures 0 <= r[i] < |next| && next[q[0] := NONE][r[i]] == After1(r, i) {
      assert r[i] == q[i + 1] && q[i + 1] != q[0];
    }
  }

  lemma ChainedOther(q: seq<int>, next: seq<int>, t: int, v: int)
    requires Chained(q, next) && t !in q && 0 <= t < |next|
    ensures Chained(q, next[t := v])
  {
  }

  lemma ChainedJoin(q: seq<int>, next: seq<int>, t: int)
    requires Chained(q, next) && Distinct(q) && t !in q && 0 <= t < |next| && next[t] == NONE
    ensures Chained(q + [t], Linked(next, q, t))
  {
    var r, next' := q + [t], Linked(next, q, t);
    forall i | 0 <= i < |r| ensures 0 <= r[i] < |next'| && next'[r[i]] == After1(r, i) {
      if i < |q| {
        assert r[i] == q[i] && next[q[i]] == After1(q, i);
        assert i < |q| - 1 ==> q[i] != q[|q| - 1];
      }
    }
  }

  lemma BlockLinks(s: Sched, l: int)
    requires LinksOk(s) && ListsOk(s.lists, s.place) && CurrentOk(s.current, s.place) && Steppable(s, Block(l))
    ensures LinksOk(Step(s, Block(l)))
  {
    var t, s' := s.current, Step(s, Block(l));
    assert Queue(s.lists[l], s.place, Waiting(l)) && s.place[t] == Running;
    forall m | 0 <= m < |s'.lists| ensures Chained(s'.lists[m], s'.next) {
      assert Queue(s.lists[m], s.place, Waiting(m)) && Chained(s.lists[m], s.next);
      if m == l {
        ChainedJoin(s.lists[l], s.next, t);
      } else if s.lists[l] != [] {
        var u := s.lists[l][|s.lists[l]| - 1];
        assert s.place[u] == Waiting(l);
        ChainedOther(s.lists[m], s.next, u, t);
      }
    }
  }

  /** Steps that change no list leave the links alone, except that a new thread starts with none. */
  lemma OtherLinks(s: Sched, s': Sched)
    requires LinksOk(s) && s'.lists == s.lists
    requires s'.next == s.next || s'.next == s.next + [NONE]
    requires |s'.place| == |s'.next|
    requires forall t :: 0 <= t < |s.place| && !s'.place[t].Waiting? ==> !s.place[t].Waiting?
    ensures LinksOk(s')
  {
    forall l | 0 <= l < |s'.lists| ensures Chained(s'.lists[l], s'.next) { assert Chained(s.lists[l], s.next); }
  }

  lemma WakeOneValid(s: Sched, l: int)
    requires Valid(s) && 0 <= l < |s.lists| && s.lists[l] != []
    ensures InTable(s, s.lists[l]) && Valid(WakeOne(s, l))
  {
    WakeOneLinks(s, l);
    WakeOneQueues(s, l);
    assert Queue(s.lists[l], s.place, Waiting(l));
    FlagSet(s.blocking, s.place, s.lists[l][0], Ready);
  }

  lemma WakeOneQueues(s: Sched, l: int)
    requires ListsOk(s.lists, s.place) && FlagsOk(s.blocking, s.place) && |s.next| == |s.place|
    requires Queue(s.runq, s.place, Ready) && Queue(s.timers, s.place, Sleeping) && 0 <= l < |s.lists|
    requires s.lists[l] != []
    ensures InTable(s, s.lists[l]) && ListsOk(WakeOne(s, l).lists, WakeOne(s, l).place)
    ensures Queue(WakeOne(s, l).runq, WakeOne(s, l).place, Ready)
    ensures Queue(WakeOne(s, l).timers, WakeOne(s, l).place, Sleeping)
  {
    assert Queue(s.lists[l], s.place, Waiting(l));
    var t := s.lists[l][0];
    QueueJoin(s.runq, s.place, Ready, t);
    QueueSame(s.timers, s.place, Sleeping, t, Ready);
    QueueLeave(s.lists[l], s.place, Waiting(l), 0, Ready);
    assert s.lists[l][..0] + s.lists[l][1..] == s.lists[l][1..];
    ListsMoved(s, t, Ready, WakeOne(s, l));
  }

  /** Every listed thread still has its flag set, so nothing is ever skipped. */
  lemma NothingSkipped(s: Sched, l: int)
    requires Valid(s) && 0 <= l < |s.lists|
    ensures Skip(s.lists[l], s.blocking) == s.lists[l]
    ensures InTable(s, s.lists[l])
    ensures WakeNext(s, l) == if s.lists[l] == [] then s else WakeOne(s, l)
  {
    assert Queue(s.lists[l], s.place, Waiting(l));
    if s.lists[l] != [] {
      assert s.place[s.lists[l][0]] == Waiting(l) && s.blocking[s.lists[l][0]];
    } else {
      assert s.lists[l := []] == s.lists;
    }
  }

  lemma {:induction false} WakeAllValid(s: Sched, l: int)
    requires Valid(s) && 0 <= l < |s.lists|
    ensures InTable(s, s.lists[l]) && Valid(WakeAll(s, l))
    decreases |s.lists[l]|
  {
    NothingSkipped(s, l);
    if s.lists[l] != [] {
      WakeOneValid(s, l);
      WakeAllValid(WakeOne(s, l), l);
    }
  }

  /** The whole list goes to the end of the run queue, in order, and nothing else changes place. */
  lemma {:induction false} WakeAllOrder(s: Sched, l: int)
    requires 0 <= l < |s.lists| && InTable(s, s.lists[l])
    ensures WakeAll(s, l).runq == s.runq + s.lists[l]
    ensures WakeAll(s, l).current == s.current && WakeAll(s, l).timers == s.timers
    ensures WakeAll(s, l).finished == s.finished && WakeAll(s, l).reaped == s.reaped
    ensures WakeAll(s, l).deleted == s.deleted
    decreases |s.lists[l]|
  {
    if s.lists[l] != [] {
      WakeAllOrder(WakeOne(s, l), l);
      assert s.runq + [s.lists[l][0]] + s.lists[l][1..] == s.runq + s.lists[l];
    }
  }

  lemma SpawnValid(s: Sched)
    requires Valid(s)
    ensures Steppable(s, Spawn) && Valid(Step(s, Spawn))
  {
    ValidSteppable(s, Spawn);
    OtherLinks(s, Step(s, Spawn));
    QueueNew(s.runq, s.place, Ready);
    QueueNew(s.timers, s.place, Sleeping);
    forall l | 0 <= l < |s.lists| ensures Queue(s.lists[l], s.place + [Ready], Waiting(l)) {
      QueueNew(s.lists[l], s.place, Waiting(l));
    }
  }

  /** Where a popped thread can go. */
  predicate OffQueue(p: Place) { p == Running || p == Stopped || p == Gone }

  lemma EnterQueues(s: Sched, p: Place)
    requires Queue(s.runq, s.place, Ready) && Queue(s.timers, s.place, Sleeping) && s.runq != [] && OffQueue(p)
    ensures 0 <= s.runq[0] < |s.place| && Queue(s.runq[1..], s.place[s.runq[0] := p], Ready)
    ensures Queue(s.timers, s.place[s.runq[0] := p], Sleeping)
  {
    QueueLeave(s.runq, s.place, Ready, 0, p);
    assert s.runq[..0] + s.runq[1..] == s.runq[1..];
    QueueSame(s.timers, s.place, Sleeping, s.runq[0], p);
  }

  lemma EnterValid(s: Sched)
    requires Valid(s) && Enabled(s, Enter)
    ensures Steppable(s, Enter) && Valid(Step(s, Enter))
  {
    ValidSteppable(s, Enter);
    var t, s' := s.runq[0], Step(s, Enter);
    var p := s'.place[t];
    FlagSet(s.blocking, s.place, t, p);
    assert s.blocking[t := false] == s.blocking;
    EnterQueues(s, p);
    ListsMoved(s, t, p, s');
    if !s.finished[t] { CurrentEnters(s.place, t); }
    OtherLinks(s, s');
  }

  /** A destructor's deletion: the queues stay as they are. */
  lemma DestroyValid(s: Sched, t: int)
    requires Valid(s) && Enabled(s, Destroy(t))
    ensures Steppable(s, Destroy(t)) && Valid(Step(s, Destroy(t)))
  {
    ValidSteppable(s, Destroy(t));
    var s' := Step(s, Destroy(t));
    OtherLinks(s, s');
    if s.place[t] == Stopped {
      FlagSet(s.blocking, s.place, t, Gone);
      assert s.blocking[t := false] == s.blocking;
      QueueSame(s.runq, s.place, Ready, t, Gone);
      QueueSame(s.timers, s.place, Sleeping, t, Gone);
      ListsMoved(s, t, Gone, s');
    }
  }

  /** wait schedules a stopped child's thread once more. */
  lemma ReapValid(s: Sched, t: int)
    requires Valid(s) && Enabled(s, Reap(t))
    ensures Steppable(s, Reap(t)) && Valid(Step(s, Reap(t)))
  {
    ValidSteppable(s, Reap(t));
    var s' := Step(s, Reap(t));
    OtherLinks(s, s');
    FlagSet(s.blocking, s.place, t, Ready);
    assert s.blocking[t := false] == s.blocking;
    QueueJoin(s.runq, s.place, Ready, t);
    QueueSame(s.timers, s.place, Sleeping, t, Ready);
    ListsMoved(s, t, Ready, s');
  }

  /** Leaving the core: the thread is running, so it is in no queue and its flag is clear. */
  lemma LeaveValid(s: Sched, p: Place, s': Sched)
    requires Valid(s) && s.current != NONE && p != Running && Moved(s, s.current, p, s') && s'.current == NONE
    requires s'.runq == if p == Ready then s.runq + [s.current] else s.runq
    requires s'.timers == if p == Sleeping then s.timers + [s.current] else s.timers
    requires p.Waiting? ==> 0 <= p.list < |s.lists| && s'.lists == s.lists[p.list := s.lists[p.list] + [s.current]]
    requires !p.Waiting? ==> s'.lists == s.lists && s'.next == s.next
    requires p.Waiting? ==> LinksOk(s')
    requires StagesOk(s')
    ensures Valid(s')
  {
    var t := s.current;
    assert s.place[t] == Running;
    FlagSet(s.blocking, s.place, t, p);
    CurrentLeaves(s.place, t, p);
    LeaveQueues(s, t, p, s');
    LeaveLists(s, t, p, s');
    LeaveLinks(s, t, p, s');
  }

  lemma LeaveLinks(s: Sched, t: int, p: Place, s': Sched)
    requires LinksOk(s) && 0 <= t < |s.place| && s.place[t] == Running && s'.place == s.place[t := p]
    requires !p.Waiting? ==> s'.lists == s.lists && s'.next == s.next
    requires p.Waiting? ==> LinksOk(s')
    ensures LinksOk(s')
  {
    if !p.Waiting? { OtherLinks(s, s'); }
  }

  lemma LeaveLists(s: Sched, t: int, p: Place, s': Sched)
    requires ListsOk(s.lists, s.place) && Moved(s, t, p, s') && s.place[t] == Running
    requires p.Waiting? ==> 0 <= p.list < |s.lists| && s'.lists == s.lists[p.list := s.lists[p.list] + [t]]
    requires !p.Waiting? ==> s'.lists == s.lists
    ensures ListsOk(s'.lists, s'.place)
  {
    if p.Waiting? {
      assert Queue(s.lists[p.list], s.place, p);
      QueueJoin(s.lists[p.list], s.place, p, t);
    }
    ListsMoved(s, t, p, s');
  }

  lemma LeaveQueues(s: Sched, t: int, p: Place, s': Sched)
    requires Queue(s.runq, s.place, Ready) && Queue(s.timers, s.place, Sleeping)
    requires 0 <= t < |s.place| && s.place[t] == Running && s'.place == s.place[t := p]
    requires s'.runq == if p == Ready then s.runq + [t] else s.runq
    requires s'.timers == if p == Sleeping then s.timers + [t] else s.timers
    ensures Queue(s'.runq, s'.place, Ready) && Queue(s'.timers, s'.place, Sleeping)
  {
    if p == Ready { QueueJoin(s.runq, s.place, Ready, t); } else { QueueSame(s.runq, s.place, Ready, t, p); }
    if p == Sleeping {
      QueueJoin(s.timers, s.place, Sleeping, t);
    } else {
      QueueSame(s.timers, s.place, Sleeping, t, p);
    }
  }

  lemma OffCoreValid(s: Sched, a: Act)
    requires Valid(s) && Enabled(s, a) && (a.Yield? || a.Block? || a.Sleep? || a.Exit?)
    ensures Steppable(s, a) && Valid(Step(s, a))
  {
    ValidSteppable(s, a);
    assert s.place[s.current] == Running && !s.blocking[s.current];
    assert s.blocking[s.current := false] == s.blocking;
    match a {
      case Yield => LeaveValid(s, Ready, Step(s, a));
      case Block(l) =>
        BlockLinks(s, l);
        LeaveValid(s, Waiting(l), Step(s, a));
      case Sleep => LeaveValid(s, Sleeping, Step(s, a));
      case Exit(process) => LeaveValid(s, if process then Stopped else Gone, Step(s, a));
    }
  }

  lemma FireValid(s: Sched, k: int)
    requires Valid(s) && Enabled(s, Fire(k))
    ensures Steppable(s, Fire(k)) && Valid(Step(s, Fire(k)))
  {
    ValidSteppable(s, Fire(k));
    var t := s.timers[k];
    OtherLinks(s, Step(s, Fire(k)));
    QueueLeave(s.timers, s.place, Sleeping, k, Ready);
    QueueJoin(s.runq, s.place, Ready, t);
    ListsMoved(s, t, Ready, Step(s, Fire(k)));
  }

  lemma StepValid(s: Sched, a: Act)
    requires Valid(s) && Enabled(s, a)
    ensures Steppable(s, a) && Valid(Step(s, a))
  {
    ValidSteppable(s, a);
    match a {
      case Spawn => SpawnValid(s);
      case Enter => EnterValid(s);
      case Fire(k) => FireValid(s, k);
      case Reap(t) => ReapValid(s, t);
      case Destroy(t) => DestroyValid(s, t);
      case UnblockNext(l) =>
        NothingSkipped(s, l);
        if s.lists[l] != [] { WakeOneValid(s, l); }
      case UnblockAll(l) => WakeAllValid(s, l);
      case _ => OffCoreValid(s, a);
    }
  }

  // ---------------------------------------------------------------- every run

  ghost predicate IsRun(s: Sched, acts: seq<Act>)
    decreases |acts|
  {
    acts == [] || (Steppable(s, acts[0]) && IsRun(Step(s, acts[0]), acts[1..]))
  }

  ghost function After(s: Sched, acts: seq<Act>): Sched
    requires IsRun(s, acts)
    decreases |acts|
  {
    if acts == [] then s else After(Step(s, acts[0]), acts[1..])
  }

  /** No threads yet, and `n` empty waiting lists. */
  function Boot(n: nat): Sched { Sched(NONE, [], seq(n, _ => []), [], [], [], [], [], [], []) }

  lemma {:induction false} RunValid(s: Sched, acts: seq<Act>)
    requires Valid(s) && IsRun(s, acts)
    ensures Valid(After(s, acts))
    decreases |acts|
  {
    if acts != [] {
      StepValid(s, acts[0]);
      RunValid(Step(s, acts[0]), acts[1..]);
    }
  }

  ghost predicate OnList(s: Sched, l: int, t: int) { 0 <= l < |s.lists| && t in s.lists[l] }

  /** How many of the core, the run queue, the timer queue and the waiting lists a thread is found in. */
  ghost function Places(s: Sched, t: int): int {
    (if s.current == t then 1 else 0) + (if t in s.runq then 1 else 0) + (if t in s.timers then 1 else 0)
    + (if exists l :: OnList(s, l, t) then 1 else 0)
  }

  /**
   In every reachable state a thread is found in exactly one of: the core, the run queue, one waiting list, the timer
   queue, and there once, unless it finished and its process has stopped, or it is gone; its flag is set exactly in
   the last two, and outside a list its link is null.
   */
  lemma {:induction false} EveryThreadOnePlace(n: nat, acts: seq<Act>, t: int)
    requires IsRun(Boot(n), acts)
    requires 0 <= t < |After(Boot(n), acts).place|
    ensures var s := After(Boot(n), acts);
      && |s.blocking| == |s.next| == |s.place|
      && Places(s, t) == (if s.place[t] == Stopped || s.place[t] == Gone then 0 else 1)
      && ((forall l :: !OnList(s, l, t)) ==> s.next[t] == NONE)
      && (s.blocking[t] <==> t in s.timers || exists l :: OnList(s, l, t))
      && (forall l, m :: OnList(s, l, t) && OnList(s, m, t) ==> l == m)
      && Distinct(s.runq) && Distinct(s.timers) && (forall l :: 0 <= l < |s.lists| ==> Distinct(s.lists[l]))
  {
    RunValid(Boot(n), acts);
    OnePlace(After(Boot(n), acts), t);
  }

  lemma OnePlace(s: Sched, t: int)
    requires Valid(s) && 0 <= t < |s.place|
    ensures Places(s, t) == (if s.place[t] == Stopped || s.place[t] == Gone then 0 else 1)
    ensures (forall l :: !OnList(s, l, t)) ==> s.next[t] == NONE
    ensures s.blocking[t] <==> t in s.timers || exists l :: OnList(s, l, t)
    ensures forall l, m :: OnList(s, l, t) && OnList(s, m, t) ==> l == m
    ensures Distinct(s.runq) && Distinct(s.timers) && (forall l :: 0 <= l < |s.lists| ==> Distinct(s.lists[l]))
  {
    forall l ensures OnList(s, l, t) <==> s.place[t] == Waiting(l) {
      if 0 <= l < |s.lists| { assert Queue(s.lists[l], s.place, Waiting(l)); }
    }
    if s.place[t].Waiting? { assert OnList(s, s.place[t].list, t); }
    assert t in s.runq <==> s.place[t] == Ready;
    assert t in s.timers <==> s.place[t] == Sleeping;
    forall l | 0 <= l < |s.lists| ensures Distinct(s.lists[l]) { assert Queue(s.lists[l], s.place, Waiting(l)); }
  }

  // ---------------------------------------------------------------- dispatch order

  ghost function Enters(acts: seq<Act>): nat {
    if acts == [] then 0 else (if acts[0] == Enter then 1 else 0) + Enters(acts[1..])
  }

  /** The thread was dispatched: it runs, or, if it was finished, is gone with its process or stops. */
  ghost predicate Entered(s: Sched, t: int) {
    && 0 <= t < |s.place| == |s.finished| == |s.reaped|
    && if !s.finished[t] then s.current == t else s.place[t] == if s.reaped[t] then Gone else Stopped
  }

  /** Only entering takes a thread off the run queue, and then the first; all else adds at the end. */
  lemma RunqStep(s: Sched, a: Act)
    requires Valid(s) && Enabled(s, a)
    ensures Steppable(s, a)
    ensures a != Enter ==> s.runq <= Step(s, a).runq
    ensures a == Enter ==> Entered(Step(s, a), s.runq[0]) && Step(s, a).runq == s.runq[1..]
  {
    ValidSteppable(s, a);
    match a {
      case UnblockNext(l) => NothingSkipped(s, l);
      case UnblockAll(l) => WakeAllOrder(s, l);
      case _ =>
    }
  }

  /** In the run queue only destruction finishes a thread. */
  lemma QueuedStaysSo(s: Sched, a: Act, t: int)
    requires Valid(s) && Steppable(s, a) && t in s.runq
    ensures 0 <= t < |s.finished| <= |Step(s, a).finished|
    ensures Step(s, a).finished[t] <==> s.finished[t] || a == Destroy(t)
  {
    assert s.place[t] == Ready;
    match a {
      case UnblockNext(l) => NothingSkipped(s, l);
      case UnblockAll(l) => WakeAllOrder(s, l);
      case Exit(_) => assert s.place[s.current] == Running;
      case _ =>
    }
  }

  /** A step moves a queued thread up one place if it is an enter, and leaves it where it is otherwise. */
  lemma PositionStep(s: Sched, a: Act, k: nat)
    requires Valid(s) && Steppable(s, a) && k < |s.runq|
    ensures Valid(Step(s, a)) && 0 <= s.runq[k] < |s.finished| <= |Step(s, a).finished|
    ensures Step(s, a).finished[s.runq[k]] <==> s.finished[s.runq[k]] || a == Destroy(s.runq[k])
    ensures a != Enter ==> k < |Step(s, a).runq| && Step(s, a).runq[k] == s.runq[k]
    ensures a == Enter && k == 0 ==> Entered(Step(s, a), s.runq[k])
    ensures a == Enter && k > 0 ==> k - 1 < |Step(s, a).runq| && Step(s, a).runq[k - 1] == s.runq[k]
  {
    RunqStep(s, a);
    QueuedStaysSo(s, a, s.runq[k]);
    StepValid(s, a);
  }

  /**
   A thread at position `k` of the run queue is dispatched by exactly the `k + 1`-th successful enter: it then runs,
   unless it was finished or was destroyed on the way.
   */
  lemma {:induction false} Dispatched(s: Sched, acts: seq<Act>, k: nat)
    requires Valid(s) && IsRun(s, acts) && k < |s.runq|
    requires acts != [] && acts[|acts| - 1] == Enter && Enters(acts) == k + 1
    ensures var t := s.runq[k];
      && Entered(After(s, acts), t) && t < |s.finished|
      && (After(s, acts).finished[t] <==> s.finished[t] || Destroy(t) in acts)
    decreases |acts|
  {
    var a, rest := acts[0], acts[1..];
    PositionStep(s, a, k);
    assert acts == [a] + rest;
    if |acts| == 1 {
      assert Enters(rest) == 0;
      assert After(s, acts) == Step(s, a);
    } else {
      assert rest[|rest| - 1] == Enter;
      EntersLast(rest);
      Dispatched(Step(s, a), rest, if a == Enter then k - 1 else k);
    }
  }

  predicate QueuedAt(q: seq<int>, k: int, t: int) { 0 <= k < |q| && q[k] == t }

  /** Until then it is in the queue, one place further for every enter. */
  lemma {:induction false} StillQueued(s: Sched, acts: seq<Act>, k: nat, t: int)
    requires Valid(s) && IsRun(s, acts) && QueuedAt(s.runq, k, t) && Enters(acts) <= k
    ensures QueuedAt(After(s, acts).runq, k - Enters(acts), t)
    decreases |acts|
  {
    if acts != [] {
      var s', rest := Step(s, acts[0]), acts[1..];
      PositionStep(s, acts[0], k);
      var k' := if acts[0] == Enter then k - 1 else k;
      StillQueued(s', rest, k', t);
      assert After(s, acts) == After(s', rest) && k' - Enters(rest) == k - Enters(acts);
    }
  }

  lemma {:induction false} EntersLast(acts: seq<Act>)
    requires acts != [] && acts[|acts| - 1] == Enter
    ensures Enters(acts) >= 1
  {
    if |acts| > 1 { EntersLast(acts[1..]); }
  }

  // ---------------------------------------------------------------- the order of a waiting list

  /** Unblocking moves the head of that list, if there is one, to the end of the run queue, and no other thread. */
  lemma UnblockNextMoves(s: Sched, l: int)
    requires Valid(s) && Enabled(s, UnblockNext(l))
    ensures Steppable(s, UnblockNext(l))
    ensures var s' := Step(s, UnblockNext(l));
      && |s'.lists| == |s.lists| && s'.current == s.current && s'.timers == s.timers
      && (forall m :: 0 <= m < |s.lists| && m != l ==> s'.lists[m] == s.lists[m])
      && (if s.lists[l] == [] then s' == s
          else s'.lists[l] == s.lists[l][1..] && s'.runq == s.runq + [s.lists[l][0]])
  {
    ValidSteppable(s, UnblockNext(l));
    NothingSkipped(s, l);
  }

  /** Blocking takes the running thread off the core and puts it at the end of that list. */
  lemma BlockJoins(s: Sched, l: int)
    requires Valid(s) && Enabled(s, Block(l))
    ensures Steppable(s, Block(l))
    ensures var s' := Step(s, Block(l));
      && |s'.lists| == |s.lists| && s'.current == NONE && s'.runq == s.runq && s'.timers == s.timers
      && (forall m :: 0 <= m < |s.lists| && m != l ==> s'.lists[m] == s.lists[m])
      && s'.lists[l] == s.lists[l] + [s.current]
  {
    ValidSteppable(s, Block(l));
  }

  /** Yielding and sleeping put the running thread at the end of the run queue and of the timers. */
  lemma YieldSleepJoin(s: Sched, k: int)
    requires Valid(s)
    ensures s.current != NONE ==>
      && Steppable(s, Yield) && Step(s, Yield).runq == s.runq + [s.current] && Step(s, Yield).current == NONE
      && Step(s, Yield).timers == s.timers && Step(s, Yield).lists == s.lists
      && Steppable(s, Sleep) && Step(s, Sleep).timers == s.timers + [s.current] && Step(s, Sleep).current == NONE
      && Step(s, Sleep).runq == s.runq && Step(s, Sleep).lists == s.lists
    ensures Enabled(s, Fire(k)) ==>
      && Steppable(s, Fire(k)) && Step(s, Fire(k)).runq == s.runq + [s.timers[k]]
      && Step(s, Fire(k)).timers == s.timers[..k] + s.timers[k + 1..] && Step(s, Fire(k)).lists == s.lists
      && Step(s, Fire(k)).current == s.current
  {
    if s.current != NONE {
      ValidSteppable(s, Yield);
      ValidSteppable(s, Sleep);
      assert s.place[s.current] == Running && !s.blocking[s.current];
    }
    if Enabled(s, Fire(k)) { ValidSteppable(s, Fire(k)); }
  }

  /** A new thread joins the end of the run queue; so does the thread of a stopped process once it is reaped. */
  lemma SpawnReapJoin(s: Sched, t: int)
    requires Valid(s)
    ensures Steppable(s, Spawn) && var s' := Step(s, Spawn);
      && s'.runq == s.runq + [|s.place|] && |s'.place| == |s.place| + 1
      && s'.current == s.current && s'.lists == s.lists && s'.timers == s.timers
    ensures Enabled(s, Reap(t)) ==> Steppable(s, Reap(t)) && var s' := Step(s, Reap(t));
      && s'.runq == s.runq + [t] && s'.current == s.current && s'.lists == s.lists && s'.timers == s.timers
  {
    ValidSteppable(s, Spawn);
    if Enabled(s, Reap(t)) { ValidSteppable(s, Reap(t)); }
  }

  /** Exiting takes the running thread off the core and out of every queue; it is finished from then on. */
  lemma ExitLeaves(s: Sched, process: bool)
    requires Valid(s) && s.current != NONE
    ensures Steppable(s, Exit(process)) && var s', t := Step(s, Exit(process)), s.current;
      && s'.current == NONE && s'.runq == s.runq && s'.lists == s.lists && s'.timers == s.timers
      && Places(s', t) == 0 && t < |s'.finished| == |s'.deleted| && s'.finished[t] && (s'.deleted[t] <==> !process)
  {
    StepValid(s, Exit(process));
    OnePlace(Step(s, Exit(process)), s.current);
  }

  /** How many of the acts unblock one thread of list `l`. */
  ghost function Unblocks(acts: seq<Act>, l: int): nat {
    if acts == [] then 0 else (if acts[0] == UnblockNext(l) then 1 else 0) + Unblocks(acts[1..], l)
  }

  /** None of the acts unblocks the whole of list `l`. */
  ghost predicate Uncleared(acts: seq<Act>, l: int) {
    acts == [] || (acts[0] != UnblockAll(l) && Uncleared(acts[1..], l))
  }

  lemma {:induction false} WakeAllOthers(s: Sched, l: int, m: int)
    requires 0 <= l < |s.lists| && 0 <= m < |s.lists| && m != l && InTable(s, s.lists[l])
    ensures |WakeAll(s, l).lists| == |s.lists| && WakeAll(s, l).lists[m] == s.lists[m]
    decreases |s.lists[l]|
  {
    if s.lists[l] != [] { WakeAllOthers(WakeOne(s, l), l, m); }
  }

  /** Only unblocking takes threads off a waiting list, from its front; all else adds at its end. */
  lemma ListStep(s: Sched, a: Act, l: int)
    requires Valid(s) && Steppable(s, a) && 0 <= l < |s.lists| && a != UnblockAll(l)
    ensures |Step(s, a).lists| == |s.lists|
    ensures a != UnblockNext(l) ==> s.lists[l] <= Step(s, a).lists[l]
    ensures a == UnblockNext(l) && s.lists[l] != [] ==> Step(s, a).lists[l] == s.lists[l][1..]
  {
    match a {
      case UnblockNext(m) => UnblockNextMoves(s, m);
      case UnblockAll(m) => WakeAllOthers(s, m, l);
      case Block(m) => BlockJoins(s, m);
      case _ =>
    }
  }

  /** Thread `t` is at position `k` of list `l`. */
  predicate WaitsAt(s: Sched, l: int, k: int, t: int) { 0 <= l < |s.lists| && QueuedAt(s.lists[l], k, t) }

  lemma WaitsStep(s: Sched, a: Act, l: int, k: nat, t: int)
    requires Valid(s) && Steppable(s, a) && a != UnblockAll(l) && WaitsAt(s, l, k, t)
    ensures Valid(Step(s, a))
    ensures a != UnblockNext(l) ==> WaitsAt(Step(s, a), l, k, t)
    ensures a == UnblockNext(l) && k > 0 ==> WaitsAt(Step(s, a), l, k - 1, t)
  {
    ListStep(s, a, l);
    StepValid(s, a);
  }

  /**
   A waiting list is served in order: until it is cleared, a thread at position `k` of it moves up one place for each
   thread unblocked, whatever else happens.
   */
  lemma {:induction false} StillWaits(s: Sched, acts: seq<Act>, l: int, k: nat, t: int, j: nat)
    requires Valid(s) && IsRun(s, acts) && WaitsAt(s, l, k, t) && Unblocks(acts, l) + j == k && Uncleared(acts, l)
    ensures WaitsAt(After(s, acts), l, j, t)
    decreases |acts|
  {
    if acts == [] {
      assert After(s, acts) == s;
    } else {
      var s', rest := Step(s, acts[0]), acts[1..];
      WaitsStep(s, acts[0], l, k, t);
      StillWaits(s', rest, l, if acts[0] == UnblockNext(l) then k - 1 else k, t, j);
      assert After(s, acts) == After(s', rest);
    }
  }

  // ---------------------------------------------------------------- deleted threads

  /** A destructor deletes a thread that has not stopped. */
  ghost predicate TooSoon(s: Sched, a: Act)
    requires Steppable(s, a)
  {
    a.Destroy? && s.place[a.t] != Stopped
  }

  ghost predicate EntersDeleted(s: Sched, a: Act)
    requires Steppable(s, a)
  {
    a == Enter && s.deleted[s.runq[0]]
  }

  ghost predicate EverTooSoon(s: Sched, acts: seq<Act>)
    requires IsRun(s, acts)
    decreases |acts|
  {
    acts != [] && (TooSoon(s, acts[0]) || EverTooSoon(Step(s, acts[0]), acts[1..]))
  }

  ghost predicate EverEntersDeleted(s: Sched, acts: seq<Act>)
    requires IsRun(s, acts)
    decreases |acts|
  {
    acts != [] && (EntersDeleted(s, acts[0]) || EverEntersDeleted(Step(s, acts[0]), acts[1..]))
  }

  /** Thread `t` was deleted and is still in a queue. */
  predicate HeldDeleted(s: Sched, t: int) {
    0 <= t < |s.place| == |s.deleted| && s.deleted[t] && s.place[t] != Stopped && s.place[t] != Gone
  }

  ghost predicate AnyHeldDeleted(s: Sched) { exists t :: HeldDeleted(s, t) }

  lemma WakeOneHolds(s: Sched, l: int, t: int)
    requires Valid(s) && 0 <= l < |s.lists| && s.lists[l] != []
    ensures InTable(s, s.lists[l]) && (HeldDeleted(WakeOne(s, l), t) <==> HeldDeleted(s, t))
  {
    assert Queue(s.lists[l], s.place, Waiting(l));
    assert s.place[s.lists[l][0]] == Waiting(l);
  }

  lemma {:induction false} WakeAllHolds(s: Sched, l: int, t: int)
    requires Valid(s) && 0 <= l < |s.lists|
    ensures InTable(s, s.lists[l]) && (HeldDeleted(WakeAll(s, l), t) <==> HeldDeleted(s, t))
    decreases |s.lists[l]|
  {
    NothingSkipped(s, l);
    if s.lists[l] != [] {
      WakeOneHolds(s, l, t);
      WakeOneValid(s, l);
      WakeAllHolds(WakeOne(s, l), l, t);
    }
  }

  /** Only entering takes a deleted thread out of the queues, and only a deletion too soon leaves one there. */
  lemma HeldStep(s: Sched, a: Act, t: int)
    requires Valid(s) && Steppable(s, a) && !EntersDeleted(s, a)
    ensures HeldDeleted(Step(s, a), t) <==> HeldDeleted(s, t) || (TooSoon(s, a) && a.t == t)
  {
    match a {
      case UnblockNext(l) => HeldUnblock(s, l, t);
      case UnblockAll(l) => WakeAllHolds(s, l, t);
      case Fire(k) => HeldFire(s, k, t);
      case Enter => HeldEnter(s, t);
      case Spawn => HeldInPlace(s, a, t);
      case Reap(_) => HeldInPlace(s, a, t);
      case Destroy(_) => HeldInPlace(s, a, t);
      case _ => HeldOffCore(s, a, t);
    }
  }

  lemma HeldFire(s: Sched, k: int, t: int)
    requires Steppable(s, Fire(k)) && Queue(s.timers, s.place, Sleeping)
    ensures HeldDeleted(Step(s, Fire(k)), t) <==> HeldDeleted(s, t)
  {
    assert s.place[s.timers[k]] == Sleeping;
  }

  lemma HeldEnter(s: Sched, t: int)
    requires Steppable(s, Enter) && StagesOk(s) && Queue(s.runq, s.place, Ready) && !EntersDeleted(s, Enter)
    ensures HeldDeleted(Step(s, Enter), t) <==> HeldDeleted(s, t)
  {
    assert s.place[s.runq[0]] == Ready;
  }

  lemma HeldInPlace(s: Sched, a: Act, t: int)
    requires Steppable(s, a) && StagesOk(s) && (a.Spawn? || a.Reap? || a.Destroy?)
    ensures HeldDeleted(Step(s, a), t) <==> HeldDeleted(s, t) || (TooSoon(s, a) && a.t == t)
  {
  }

  lemma HeldUnblock(s: Sched, l: int, t: int)
    requires Valid(s) && 0 <= l < |s.lists|
    ensures HeldDeleted(WakeNext(s, l), t) <==> HeldDeleted(s, t)
  {
    NothingSkipped(s, l);
    if s.lists[l] != [] { WakeOneHolds(s, l, t); }
  }

  lemma HeldOffCore(s: Sched, a: Act, t: int)
    requires Steppable(s, a) && StagesOk(s) && CurrentOk(s.current, s.place)
    requires a.Yield? || a.Block? || a.Sleep? || a.Exit?
    ensures HeldDeleted(Step(s, a), t) <==> HeldDeleted(s, t)
  {
    assert s.place[s.current] == Running;
  }

  lemma AnyHeldStep(s: Sched, a: Act)
    requires Valid(s) && Steppable(s, a) && !EntersDeleted(s, a)
    ensures AnyHeldDeleted(Step(s, a)) <==> AnyHeldDeleted(s) || TooSoon(s, a)
  {
    forall t ensures HeldDeleted(Step(s, a), t) <==> HeldDeleted(s, t) || (TooSoon(s, a) && a.t == t) {
      HeldStep(s, a, t);
    }
    if TooSoon(s, a) { assert HeldDeleted(Step(s, a), a.t); }
  }

  lemma {:induction false} HeldRun(s: Sched, acts: seq<Act>)
    requires Valid(s) && IsRun(s, acts) && !EverEntersDeleted(s, acts)
    ensures AnyHeldDeleted(After(s, acts)) <==> AnyHeldDeleted(s) || EverTooSoon(s, acts)
    decreases |acts|
  {
    if acts != [] {
      StepValid(s, acts[0]);
      AnyHeldStep(s, acts[0]);
      HeldRun(Step(s, acts[0]), acts[1..]);
    }
  }

  /**
   As long as no deleted thread was entered, a deleted thread is found in the run queue, a waiting list or the timer
   queue exactly if some destructor met a thread that had not stopped.
   */
  lemma {:induction false} DeletedFoundIff(n: nat, acts: seq<Act>)
    requires IsRun(Boot(n), acts) && !EverEntersDeleted(Boot(n), acts)
    ensures var s := After(Boot(n), acts);
      && |s.deleted| == |s.place|
      && ((exists t :: 0 <= t < |s.place| && s.deleted[t] && Places(s, t) != 0) <==> EverTooSoon(Boot(n), acts))
  {
    RunValid(Boot(n), acts);
    HeldRun(Boot(n), acts);
    var s := After(Boot(n), acts);
    forall t | 0 <= t < |s.place| && s.deleted[t] ensures Places(s, t) != 0 <==> HeldDeleted(s, t) { OnePlace(s, t); }
  }
}
