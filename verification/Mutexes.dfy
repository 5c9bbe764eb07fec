/**
 The mutex: an atomic exchange, and a waiting list that is joined in a separate step after the exchange failed.
 */
module Mutexes {

  /**
   A thread outside the mutex's code, about to exchange (after a wakeup or not), between a failed exchange and
   joining the list, waiting, holding the mutex, or having released it and about to wake the next in line.
   */
  datatype Pc = Outside | Trying(woken: bool) | Failed | Waiting | Holding | Notifying

  /**
   `raced` records that a release found nobody in line while some thread had failed its exchange but had not joined
   yet, and that nobody has taken the mutex since.
   */
  datatype Mutex = Mutex(locked: bool, waiters: seq<int>, pcs: seq<Pc>, raced: bool)

  datatype Act = Lock(t: int) | Exchange(t: int) | Join(t: int) | TryLock(t: int) | Release(t: int) | Notify(t: int)

  ghost predicate Enabled(s: Mutex, a: Act) {
    && 0 <= a.t < |s.pcs|
    && match a
       case Lock(t) => s.pcs[t] == Outside
       case Exchange(t) => s.pcs[t].Trying?
       case Join(t) => s.pcs[t] == Failed
       case TryLock(t) => s.pcs[t] == Outside
       case Release(t) => s.pcs[t] == Holding
       case Notify(t) => s.pcs[t] == Notifying
  }

  function Set(s: Mutex, t: int, pc: Pc): Mutex
    requires 0 <= t < |s.pcs|
  {
    s.(pcs := s.pcs[t := pc])
  }

  ghost predicate Some(pcs: seq<Pc>, pc: Pc) { exists t :: 0 <= t < |pcs| && pcs[t] == pc }

  ghost function Step(s: Mutex, a: Act): Mutex
    requires Enabled(s, a)
  {
    match a
    case Lock(t) => Set(s, t, Trying(false))
    case Exchange(t) => Set(s, t, if s.locked then Failed else Holding).(locked := true, raced := false)
    case Join(t) => Set(s, t, Waiting).(waiters := s.waiters + [t])
    case TryLock(t) => Set(s, t, if s.locked then Outside else Holding).(locked := true, raced := false)
    case Release(t) => Set(s, t, Notifying).(locked := false)
    case Notify(t) =>
      if s.waiters == [] || !(0 <= s.waiters[0] < |s.pcs|) then
        Set(s, t, Outside).(raced := s.raced || (!s.locked && Some(s.pcs, Failed)))
      else Set(Set(s, t, Outside), s.waiters[0], Trying(true)).(waiters := s.waiters[1..])
  }

  // ---------------------------------------------------------------- mutual exclusion

  /** The byte is set exactly while one thread holds the mutex, and never two do. */
  ghost predicate Exclusive(s: Mutex) {
    && (forall t, u :: 0 <= t < |s.pcs| && 0 <= u < |s.pcs| && s.pcs[t] == Holding && s.pcs[u] == Holding ==> t == u)
    && (s.locked <==> Some(s.pcs, Holding))
  }

  ghost predicate Line(waiters: seq<int>, pcs: seq<Pc>) {
    && (forall i, j :: 0 <= i < j < |waiters| ==> waiters[i] != waiters[j])
    && (forall i :: 0 <= i < |waiters| ==> 0 <= waiters[i] < |pcs| && pcs[waiters[i]] == Waiting)
    && (forall t :: 0 <= t < |pcs| && pcs[t] == Waiting ==> t in waiters)
  }

  ghost predicate WaitersOk(s: Mutex) { Line(s.waiters, s.pcs) }

  /**
   Without a race, a free mutex that somebody failed to get has a thread on its way to hand it on; after one it is
   free, and somebody is still after it.
   */
  ghost predicate HandedOn(s: Mutex) {
    && ((s.waiters != [] || Some(s.pcs, Failed)) && !s.locked ==>
          Some(s.pcs, Notifying) || Some(s.pcs, Trying(true)) || s.raced)
    && (s.raced ==> !s.locked && (s.waiters != [] || Some(s.pcs, Failed) || Some(s.pcs, Trying(true))))
  }

  ghost predicate Valid(s: Mutex) { Exclusive(s) && WaitersOk(s) && HandedOn(s) }

  lemma SomeSet(pcs: seq<Pc>, t: int, pc: Pc, p: Pc)
    requires 0 <= t < |pcs|
    ensures pc == p ==> Some(pcs[t := pc], p)
    ensures pcs[t] != p && pc != p ==> (Some(pcs[t := pc], p) <==> Some(pcs, p))
  {
    if pc == p { assert pcs[t := pc][t] == p; }
    if pcs[t] != p && pc != p {
      if Some(pcs, p) {
        var u :| 0 <= u < |pcs| && pcs[u] == p;
        assert pcs[t := pc][u] == p;
      }
      if Some(pcs[t := pc], p) {
        var u :| 0 <= u < |pcs| && pcs[t := pc][u] == p;
        assert pcs[u] == p;
      }
    }
  }

  lemma TakeExclusive(s: Mutex, t: int, other: Pc)
    requires Exclusive(s) && 0 <= t < |s.pcs| && s.pcs[t] != Holding && other != Holding
    ensures Exclusive(Set(s, t, if s.locked then other else Holding).(locked := true))
  {
    if s.locked {
      SomeSet(s.pcs, t, other, Holding);
    } else {
      assert forall u :: 0 <= u < |s.pcs| ==> s.pcs[u] != Holding;
      SomeSet(s.pcs, t, Holding, Holding);
    }
  }

  lemma OtherExclusive(s: Mutex, t: int, pc: Pc)
    requires Exclusive(s) && 0 <= t < |s.pcs| && s.pcs[t] != Holding && pc != Holding
    ensures Exclusive(Set(s, t, pc))
  {
    SomeSet(s.pcs, t, pc, Holding);
  }

  lemma ReleaseExclusive(s: Mutex, t: int)
    requires Exclusive(s) && 0 <= t < |s.pcs| && s.pcs[t] == Holding
    ensures Exclusive(Set(s, t, Notifying).(locked := false))
  {
    var pcs := s.pcs[t := Notifying];
    assert forall u :: 0 <= u < |pcs| ==> pcs[u] != Holding;
  }

  lemma ExclusiveStep(s: Mutex, a: Act)
    requires Exclusive(s) && WaitersOk(s) && Enabled(s, a)
    ensures Exclusive(Step(s, a))
  {
    var t := a.t;
    match a {
      case Lock(_) => OtherExclusive(s, t, Trying(false));
      case Exchange(_) => TakeExclusive(s, t, Failed);
      case Join(_) => OtherExclusive(s, t, Waiting);
      case TryLock(_) => TakeExclusive(s, t, Outside);
      case Release(_) => ReleaseExclusive(s, t);
      case Notify(_) =>
        OtherExclusive(s, t, Outside);
        if s.waiters != [] {
          OtherExclusive(Set(s, t, Outside), s.waiters[0], Trying(true));
        }
    }
  }

  lemma LineSame(waiters: seq<int>, pcs: seq<Pc>, t: int, pc: Pc)
    requires Line(waiters, pcs) && 0 <= t < |pcs| && pcs[t] != Waiting && pc != Waiting
    ensures Line(waiters, pcs[t := pc])
  {
  }

  lemma LineJoin(waiters: seq<int>, pcs: seq<Pc>, t: int)
    requires Line(waiters, pcs) && 0 <= t < |pcs| && pcs[t] != Waiting
    ensures Line(waiters + [t], pcs[t := Waiting])
  {
  }

  lemma LineLeave(waiters: seq<int>, pcs: seq<Pc>, pc: Pc)
    requires Line(waiters, pcs) && waiters != [] && pc != Waiting
    ensures 0 <= waiters[0] < |pcs| && Line(waiters[1..], pcs[waiters[0] := pc])
  {
    forall t | 0 <= t < |pcs| && pcs[waiters[0] := pc][t] == Waiting ensures t in waiters[1..] {
      assert t in waiters && t != waiters[0];
    }
  }

  lemma WaitersStep(s: Mutex, a: Act)
    requires WaitersOk(s) && Enabled(s, a)
    ensures WaitersOk(Step(s, a))
  {
    if a.Join? {
      LineJoin(s.waiters, s.pcs, a.t);
    } else if a.Notify? {
      LineSame(s.waiters, s.pcs, a.t, Outside);
      if s.waiters != [] { LineLeave(s.waiters, s.pcs[a.t := Outside], Trying(true)); }
    } else {
      LineSame(s.waiters, s.pcs, a.t, Step(s, a).pcs[a.t]);
    }
  }

  lemma NotifyHandsOn(s: Mutex, t: int)
    requires HandedOn(s) && WaitersOk(s) && Enabled(s, Notify(t))
    ensures HandedOn(Step(s, Notify(t)))
  {
    if s.waiters != [] {
      SomeSet(Set(s, t, Outside).pcs, s.waiters[0], Trying(true), Trying(true));
    } else {
      SomeSet(s.pcs, t, Outside, Failed);
      SomeSet(s.pcs, t, Outside, Trying(true));
    }
  }

  /** A step of a thread that neither had nor gets a place that matters. */
  lemma KeepHandedOn(s: Mutex, t: int, pc: Pc)
    requires HandedOn(s) && 0 <= t < |s.pcs| && s.pcs[t] == Outside && pc == Trying(false)
    ensures HandedOn(Set(s, t, pc))
  {
    SomeSet(s.pcs, t, pc, Failed);
    SomeSet(s.pcs, t, pc, Notifying);
    SomeSet(s.pcs, t, pc, Trying(true));
  }

  lemma JoinHandsOn(s: Mutex, t: int)
    requires HandedOn(s) && Enabled(s, Join(t))
    ensures HandedOn(Step(s, Join(t)))
  {
    SomeSet(s.pcs, t, Waiting, Notifying);
    SomeSet(s.pcs, t, Waiting, Trying(true));
    assert s.pcs[t] == Failed && Some(s.pcs, Failed);
  }

  /** The holder's release: nobody raced while it held the mutex. */
  lemma ReleaseHandsOn(s: Mutex, t: int)
    requires HandedOn(s) && Exclusive(s) && Enabled(s, Release(t))
    ensures HandedOn(Step(s, Release(t)))
  {
    SomeSet(s.pcs, t, Notifying, Notifying);
    assert Some(s.pcs, Holding);
  }

  lemma HandedOnStep(s: Mutex, a: Act)
    requires HandedOn(s) && Exclusive(s) && WaitersOk(s) && Enabled(s, a)
    ensures HandedOn(Step(s, a))
  {
    match a {
      case Lock(t) => KeepHandedOn(s, t, Trying(false));
      case Join(t) => JoinHandsOn(s, t);
      case Release(t) => ReleaseHandsOn(s, t);
      case Notify(t) => NotifyHandsOn(s, t);
      case _ =>
    }
  }

  lemma StepValid(s: Mutex, a: Act)
    requires Valid(s) && Enabled(s, a)
    ensures Valid(Step(s, a))
  {
    ExclusiveStep(s, a);
    WaitersStep(s, a);
    HandedOnStep(s, a);
  }

  // ---------------------------------------------------------------- every run

  ghost predicate IsRun(s: Mutex, acts: seq<Act>)
    decreases |acts|
  {
    acts == [] || (Enabled(s, acts[0]) && IsRun(Step(s, acts[0]), acts[1..]))
  }

  ghost function After(s: Mutex, acts: seq<Act>): Mutex
    requires IsRun(s, acts)
    decreases |acts|
  {
    if acts == [] then s else After(Step(s, acts[0]), acts[1..])
  }

  function Start(n: nat): Mutex { Mutex(false, [], seq(n, _ => Outside), false) }

  lemma {:induction false} RunValid(s: Mutex, acts: seq<Act>)
    requires Valid(s) && IsRun(s, acts)
    ensures Valid(After(s, acts))
    decreases |acts|
  {
    if acts != [] {
      StepValid(s, acts[0]);
      RunValid(Step(s, acts[0]), acts[1..]);
    }
  }

  /** No run gives the mutex to two threads. */
  lemma {:induction false} EveryRunExclusive(n: nat, acts: seq<Act>, t: int, u: int)
    requires IsRun(Start(n), acts)
    requires var s := After(Start(n), acts); 0 <= t < |s.pcs| && 0 <= u < |s.pcs|
    ensures var s := After(Start(n), acts); s.pcs[t] == Holding && s.pcs[u] == Holding ==> t == u
    ensures var s := After(Start(n), acts); s.pcs[t] == Holding ==> s.locked
  {
    RunValid(Start(n), acts);
  }

  /** A waiter with nobody on the way to hand the mutex on, although it is free. */
  ghost predicate Stranded(s: Mutex) {
    && s.waiters != [] && !s.locked && Quiet(s)
  }

  ghost predicate Quiet(s: Mutex) {
    forall t :: 0 <= t < |s.pcs| ==> s.pcs[t] == Outside || s.pcs[t] == Waiting
  }

  /**
   In every run that ends with every thread outside or waiting, a waiter is stranded exactly if the last release found
   nobody in line while a thread was between its failed exchange and joining.
   */
  lemma {:induction false} StrandedIffRaced(n: nat, acts: seq<Act>)
    requires IsRun(Start(n), acts) && Quiet(After(Start(n), acts))
    ensures Stranded(After(Start(n), acts)) <==> After(Start(n), acts).raced
  {
    RunValid(Start(n), acts);
  }

  /** The race is real: a release between the second thread's exchange and its joining strands it. */
  lemma RaceStrands()
    ensures var acts := [Lock(0), Exchange(0), Lock(1), Exchange(1), Release(0), Notify(0), Join(1)];
            IsRun(Start(2), acts) && Stranded(After(Start(2), acts))
  {
    var acts := [Lock(0), Exchange(0), Lock(1), Exchange(1), Release(0), Notify(0), Join(1)];
    var s4 := RaceFirst();
    var s7 := RaceSecond();
    RunIs(Step(Step(Step(Start(2), Lock(0)), Exchange(0)), Lock(1)), acts[3..], s7);
    RunIs(Step(Step(Start(2), Lock(0)), Exchange(0)), acts[2..], s7);
    RunIs(Step(Start(2), Lock(0)), acts[1..], s7);
    RunIs(Start(2), acts, s7);
  }

  /** The second thread fails its exchange. */
  lemma RaceFirst() returns (s: Mutex)
    ensures s == Mutex(true, [], [Holding, Failed], false)
    ensures var s0 := Start(2);
      && Enabled(s0, Lock(0)) && Enabled(Step(s0, Lock(0)), Exchange(0))
      && Enabled(Step(Step(s0, Lock(0)), Exchange(0)), Lock(1))
      && Enabled(Step(Step(Step(s0, Lock(0)), Exchange(0)), Lock(1)), Exchange(1))
      && s == Step(Step(Step(Step(s0, Lock(0)), Exchange(0)), Lock(1)), Exchange(1))
  {
    assert Step(Start(2), Lock(0)) == Mutex(false, [], [Trying(false), Outside], false);
    assert Step(Mutex(false, [], [Trying(false), Outside], false), Exchange(0)) ==
        Mutex(true, [], [Holding, Outside], false);
    assert Step(Mutex(true, [], [Holding, Outside], false), Lock(1)) ==
        Mutex(true, [], [Holding, Trying(false)], false);
    s := Step(Mutex(true, [], [Holding, Trying(false)], false), Exchange(1));
    assert s.pcs == [Holding, Failed];
  }

  /** The first thread releases and finds nobody in line; then the second joins it. */
  lemma RaceSecond() returns (s: Mutex)
    ensures Stranded(s)
    ensures var s4, rest := Mutex(true, [], [Holding, Failed], false), [Release(0), Notify(0), Join(1)];
            IsRun(s4, rest) && After(s4, rest) == s
  {
    var s4, rest := Mutex(true, [], [Holding, Failed], false), [Release(0), Notify(0), Join(1)];
    var s5 := Step(s4, Release(0));
    assert s5.pcs == [Notifying, Failed];
    var s6 := Step(s5, Notify(0));
    assert s6.pcs == [Outside, Failed];
    s := Step(s6, Join(1));
    assert s.pcs == [Outside, Waiting];
    assert rest[2..][1..] == [];
    RunIs(s6, rest[2..], s);
    RunIs(s5, rest[1..], s);
    RunIs(s4, rest, s);
  }

  lemma {:induction false} RunIs(s: Mutex, acts: seq<Act>, end: Mutex)
    requires acts != [] && Enabled(s, acts[0])
    requires IsRun(Step(s, acts[0]), acts[1..]) && After(Step(s, acts[0]), acts[1..]) == end
    ensures IsRun(s, acts) && After(s, acts) == end
  {
  }

  // ---------------------------------------------------------------- who gets it

  /**
   The exchange and try_lock get the mutex exactly if it was free; failing, the one joins the end of the line and the
   other changes nothing; a release frees it, and the wakeup after it goes to the head of the line.
   */
  lemma WhoGetsIt(s: Mutex, t: int)
    requires Valid(s) && 0 <= t < |s.pcs|
    ensures Enabled(s, Exchange(t)) ==>
      (Step(s, Exchange(t)).pcs[t] == Holding <==> !s.locked) && Step(s, Exchange(t)).locked
    ensures Enabled(s, TryLock(t)) ==>
      && (Step(s, TryLock(t)).pcs[t] == Holding <==> !s.locked)
      && (s.locked ==> Step(s, TryLock(t)).pcs == s.pcs && Step(s, TryLock(t)).locked)
    ensures Enabled(s, Join(t)) ==> Step(s, Join(t)).waiters == s.waiters + [t] && Step(s, Join(t)).locked == s.locked
    ensures Enabled(s, Release(t)) ==> !Step(s, Release(t)).locked && Step(s, Release(t)).pcs[t] == Notifying
    ensures Enabled(s, Notify(t)) ==>
      && Step(s, Notify(t)).pcs[t] == Outside && Step(s, Notify(t)).locked == s.locked
      && (s.waiters != [] ==>
            && Step(s, Notify(t)).waiters == s.waiters[1..]
            && s.waiters[0] < |s.pcs| && Step(s, Notify(t)).pcs[s.waiters[0]] == Trying(true))
  {
    if s.waiters != [] { assert s.pcs[s.waiters[0]] == Waiting; }
    assert s.pcs[t := s.pcs[t]] == s.pcs;
  }
}
