/**
 The counting semaphore: a retry loop whose test, decrement and joining of the waiting list are one region with
 interrupts off.
 */
module Semaphores {

  /** A thread outside the semaphore's code, about to test the count (after a wakeup or not), or waiting. */
  datatype Pc = Outside | Trying(woken: bool) | Waiting

  datatype Sem = Sem(count: int, waiters: seq<int>, pcs: seq<Pc>, held: seq<int>)

  datatype Act = Lock(t: int) | Test(t: int) | TryLock(t: int) | Release(t: int)

  /** Only a holder releases; a thread inside lock only tests. */
  ghost predicate Enabled(s: Sem, a: Act) {
    && 0 <= a.t < |s.pcs| == |s.held|
    && match a
       case Lock(t) => s.pcs[t] == Outside
       case Test(t) => s.pcs[t].Trying?
       case TryLock(t) => s.pcs[t] == Outside
       case Release(t) => s.pcs[t] == Outside && s.held[t] > 0
  }

  function Take(s: Sem, t: int): Sem
    requires 0 <= t < |s.pcs| && t < |s.held|
  {
    Sem(s.count - 1, s.waiters, s.pcs[t := Outside], s.held[t := s.held[t] + 1])
  }

  function Give(s: Sem, t: int): Sem
    requires 0 <= t < |s.held|
  {
    Sem(s.count + 1, s.waiters, s.pcs, s.held[t := s.held[t] - 1])
  }

  function WakeNext(s: Sem): Sem {
    if s.waiters == [] || !(0 <= s.waiters[0] < |s.pcs|) then s
    else s.(waiters := s.waiters[1..], pcs := s.pcs[s.waiters[0] := Trying(true)])
  }

  function Step(s: Sem, a: Act): Sem
    requires Enabled(s, a)
  {
    match a
    case Lock(t) => s.(pcs := s.pcs[t := Trying(false)])
    case Test(t) =>
      if s.count > 0 then Take(s, t) else s.(waiters := s.waiters + [t], pcs := s.pcs[t := Waiting])
    case TryLock(t) => if s.count > 0 then Take(s, t) else s
    case Release(t) => WakeNext(Give(s, t))
  }

  // ---------------------------------------------------------------- counting

  ghost function Sum(q: seq<int>): int { if q == [] then 0 else q[0] + Sum(q[1..]) }

  lemma {:induction false} SumUpdate(q: seq<int>, i: int, v: int)
    requires 0 <= i < |q|
    ensures Sum(q[i := v]) == Sum(q) - q[i] + v
  {
    if i == 0 {
      assert q[i := v][1..] == q[1..];
    } else {
      SumUpdate(q[1..], i - 1, v);
      assert q[i := v][1..] == q[1..][i - 1 := v];
    }
  }

  function One(pc: Pc): int { if pc == Trying(true) then 1 else 0 }

  /** Threads that were woken and have not tested the count again. */
  ghost function Woken(pcs: seq<Pc>): int { if pcs == [] then 0 else One(pcs[0]) + Woken(pcs[1..]) }

  lemma {:induction false} WokenUpdate(pcs: seq<Pc>, i: int, pc: Pc)
    requires 0 <= i < |pcs|
    ensures Woken(pcs[i := pc]) == Woken(pcs) - One(pcs[i]) + One(pc)
  {
    if i == 0 {
      assert pcs[i := pc][1..] == pcs[1..];
    } else {
      WokenUpdate(pcs[1..], i - 1, pc);
      assert pcs[i := pc][1..] == pcs[1..][i - 1 := pc];
    }
  }

  lemma {:induction false} WokenNone(pcs: seq<Pc>)
    requires forall t :: 0 <= t < |pcs| ==> !pcs[t].Trying?
    ensures Woken(pcs) == 0
  {
    if pcs != [] { WokenNone(pcs[1..]); }
  }

  // ---------------------------------------------------------------- the invariant

  ghost predicate WaitersOk(waiters: seq<int>, pcs: seq<Pc>) {
    && (forall i, j :: 0 <= i < j < |waiters| ==> waiters[i] != waiters[j])
    && (forall i :: 0 <= i < |waiters| ==> 0 <= waiters[i] < |pcs| && pcs[waiters[i]] == Waiting)
    && (forall t :: 0 <= t < |pcs| && pcs[t] == Waiting ==> t in waiters)
  }

  ghost predicate Valid(s: Sem, initial: int) {
    && |s.pcs| == |s.held|
    && (forall t :: 0 <= t < |s.held| ==> s.held[t] >= 0)
    && s.count + Sum(s.held) == initial
    && WaitersOk(s.waiters, s.pcs)
    && (s.waiters != [] ==> s.count <= Woken(s.pcs))
  }

  lemma LeaveWaiters(waiters: seq<int>, pcs: seq<Pc>, pc: Pc)
    requires WaitersOk(waiters, pcs) && waiters != [] && pc != Waiting
    ensures 0 <= waiters[0] < |pcs| && WaitersOk(waiters[1..], pcs[waiters[0] := pc])
  {
    forall t | 0 <= t < |pcs| && pcs[waiters[0] := pc][t] == Waiting ensures t in waiters[1..] {
      assert t in waiters && t != waiters[0];
    }
  }

  lemma TakeValid(s: Sem, initial: int, t: int)
    requires Valid(s, initial) && 0 <= t < |s.pcs| && s.pcs[t] != Waiting && s.count > 0
    ensures Valid(Take(s, t), initial)
  {
    SumUpdate(s.held, t, s.held[t] + 1);
    WokenUpdate(s.pcs, t, Outside);
    WaitersSame(s.waiters, s.pcs, t, Outside);
  }

  lemma WaitersSame(waiters: seq<int>, pcs: seq<Pc>, t: int, pc: Pc)
    requires WaitersOk(waiters, pcs) && 0 <= t < |pcs| && pcs[t] != Waiting && pc != Waiting
    ensures WaitersOk(waiters, pcs[t := pc])
  {
  }

  lemma JoinWaiters(waiters: seq<int>, pcs: seq<Pc>, t: int)
    requires WaitersOk(waiters, pcs) && 0 <= t < |pcs| && pcs[t] != Waiting
    ensures WaitersOk(waiters + [t], pcs[t := Waiting])
  {
  }

  lemma WaitValid(s: Sem, initial: int, t: int)
    requires Valid(s, initial) && 0 <= t < |s.pcs| && s.pcs[t].Trying? && s.count <= 0
    ensures Valid(s.(waiters := s.waiters + [t], pcs := s.pcs[t := Waiting]), initial)
  {
    JoinWaiters(s.waiters, s.pcs, t);
    WokenNonNegative(s.pcs[t := Waiting]);
  }

  lemma ReleaseValid(s: Sem, initial: int, t: int)
    requires Valid(s, initial) && Enabled(s, Release(t))
    ensures Valid(WakeNext(Give(s, t)), initial)
  {
    SumUpdate(s.held, t, s.held[t] - 1);
    if s.waiters != [] {
      LeaveWaiters(s.waiters, s.pcs, Trying(true));
      WokenUpdate(s.pcs, s.waiters[0], Trying(true));
    }
  }

  lemma StepValid(s: Sem, initial: int, a: Act)
    requires Valid(s, initial) && Enabled(s, a)
    ensures Valid(Step(s, a), initial)
  {
    match a {
      case Lock(t) =>
        WokenUpdate(s.pcs, t, Trying(false));
        WaitersSame(s.waiters, s.pcs, t, Trying(false));
      case Test(t) => if s.count > 0 { TakeValid(s, initial, t); } else { WaitValid(s, initial, t); }
      case TryLock(t) => if s.count > 0 { TakeValid(s, initial, t); }
      case Release(t) => ReleaseValid(s, initial, t);
    }
  }

  lemma {:induction false} WokenNonNegative(pcs: seq<Pc>)
    ensures Woken(pcs) >= 0
  {
    if pcs != [] { WokenNonNegative(pcs[1..]); }
  }

  // ---------------------------------------------------------------- every run

  ghost predicate IsRun(s: Sem, acts: seq<Act>)
    decreases |acts|
  {
    acts == [] || (Enabled(s, acts[0]) && IsRun(Step(s, acts[0]), acts[1..]))
  }

  ghost function After(s: Sem, acts: seq<Act>): Sem
    requires IsRun(s, acts)
    decreases |acts|
  {
    if acts == [] then s else After(Step(s, acts[0]), acts[1..])
  }

  function Start(count: int, n: nat): Sem { Sem(count, [], seq(n, _ => Outside), seq(n, _ => 0)) }

  lemma {:induction false} SumZero(n: nat)
    ensures Sum(seq(n, _ => 0)) == 0
  {
    if n > 0 {
      SumZero(n - 1);
      assert seq(n, _ => 0)[1..] == seq(n - 1, _ => 0);
    }
  }

  lemma {:induction false} RunValid(s: Sem, initial: int, acts: seq<Act>)
    requires Valid(s, initial) && IsRun(s, acts)
    ensures Valid(After(s, acts), initial)
    decreases |acts|
  {
    if acts != [] {
      StepValid(s, initial, acts[0]);
      RunValid(Step(s, acts[0]), initial, acts[1..]);
    }
  }

  /**
   In every run where only holders release, the count plus the units held is the initial count, and no wakeup is
   lost: while somebody waits, the count is at most the number of woken threads that have yet to test it.
   */
  lemma {:induction false} EveryRunCounts(count: int, n: nat, acts: seq<Act>)
    requires IsRun(Start(count, n), acts)
    ensures var s := After(Start(count, n), acts);
      && s.count + Sum(s.held) == count
      && (s.waiters == [] || s.count <= Woken(s.pcs))
  {
    SumZero(n);
    RunValid(Start(count, n), count, acts);
  }

  /** When nobody is inside lock except waiters, somebody waits only if no unit is left. */
  lemma {:induction false} NobodyStranded(count: int, n: nat, acts: seq<Act>, t: int)
    requires IsRun(Start(count, n), acts)
    requires var s := After(Start(count, n), acts);
      (forall u :: 0 <= u < |s.pcs| ==> !s.pcs[u].Trying?) && 0 <= t < |s.pcs| && s.pcs[t] == Waiting
    ensures After(Start(count, n), acts).count <= 0
  {
    SumZero(n);
    RunValid(Start(count, n), count, acts);
    var s := After(Start(count, n), acts);
    WokenNone(s.pcs);
    assert t in s.waiters;
  }

  // ---------------------------------------------------------------- who holds what

  /** How often an act occurs. */
  function Times(acts: seq<Act>, a: Act): nat {
    if acts == [] then 0 else (if acts[0] == a then 1 else 0) + Times(acts[1..], a)
  }

  /** How many of a thread's try_locks met a positive count. */
  ghost function Tries(s: Sem, acts: seq<Act>, t: int): nat
    requires IsRun(s, acts)
    decreases |acts|
  {
    if acts == [] then 0
    else (if acts[0] == TryLock(t) && s.count > 0 then 1 else 0) + Tries(Step(s, acts[0]), acts[1..], t)
  }

  /** Inside lock: it was called and has not returned. */
  function Inside(pc: Pc): int { if pc == Outside then 0 else 1 }

  /** What one step does to thread `t`. */
  lemma HoldsStep(s: Sem, initial: int, a: Act, t: int)
    requires Valid(s, initial) && Enabled(s, a) && 0 <= t < |s.pcs|
    ensures var s' := Step(s, a);
      && |s'.held| == |s'.pcs| == |s.pcs|
      && s'.held[t] + Inside(s'.pcs[t]) == s.held[t] + Inside(s.pcs[t])
           + (if a == Lock(t) then 1 else 0) + (if a == TryLock(t) && s.count > 0 then 1 else 0)
           - (if a == Release(t) then 1 else 0)
  {
    if s.waiters != [] { assert s.pcs[s.waiters[0]] == Waiting; }
  }

  lemma {:induction false} HoldsRun(s: Sem, initial: int, acts: seq<Act>, t: int)
    requires Valid(s, initial) && IsRun(s, acts) && 0 <= t < |s.pcs|
    ensures var s' := After(s, acts);
      && |s'.held| == |s'.pcs| == |s.pcs|
      && s'.held[t] + Inside(s'.pcs[t])
         == s.held[t] + Inside(s.pcs[t]) + Times(acts, Lock(t)) + Tries(s, acts, t) - Times(acts, Release(t))
    decreases |acts|
  {
    if acts != [] {
      StepValid(s, initial, acts[0]);
      HoldsStep(s, initial, acts[0], t);
      HoldsRun(Step(s, acts[0]), initial, acts[1..], t);
    }
  }

  /**
   In every run a thread holds one unit for each lock that returned and each try_lock that met a positive count, less
   one for each release.
   */
  lemma {:induction false} EveryRunHolds(count: int, n: nat, acts: seq<Act>, t: int)
    requires IsRun(Start(count, n), acts) && 0 <= t < n
    ensures var s := After(Start(count, n), acts);
      && |s.held| == |s.pcs| == n
      && s.held[t]
         == Times(acts, Lock(t)) - Inside(s.pcs[t]) + Tries(Start(count, n), acts, t) - Times(acts, Release(t))
  {
    SumZero(n);
    HoldsRun(Start(count, n), count, acts, t);
  }

  /** A lock returns exactly from a test that meets a positive count; a release wakes the one that waited longest. */
  lemma FirstWoken(s: Sem, initial: int, t: int)
    requires Valid(s, initial)
    ensures Enabled(s, Test(t)) ==>
      && (Step(s, Test(t)).pcs[t] == Outside <==> s.count > 0)
      && (s.count <= 0 ==> Step(s, Test(t)).waiters == s.waiters + [t])
    ensures Enabled(s, Release(t)) && s.waiters != [] ==>
      && Step(s, Release(t)).waiters == s.waiters[1..]
      && s.waiters[0] < |s.pcs| && Step(s, Release(t)).pcs == s.pcs[s.waiters[0] := Trying(true)]
    ensures Enabled(s, TryLock(t)) && s.count <= 0 ==> Step(s, TryLock(t)) == s
  {
  }
}
