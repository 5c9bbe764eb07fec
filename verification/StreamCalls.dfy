/**
 What a stream call did against what it was asked: over every interleaving, the bytes a call moved are those of its
 own request, and the stream is closed exactly by a close that was asked for.
 */
module StreamCalls {
  import opened Streams
  import opened StreamRuns

  // ---------------------------------------------------------------- runs from the end

  lemma {:induction false} RunSnoc(s: St, acts: seq<Act>, a: Act)
    requires IsRun(s, acts + [a])
    ensures IsRun(s, acts) && Enabled(After(s, acts), a) && InRange(After(s, acts).ring)
    ensures After(s, acts + [a]) == Step(After(s, acts), a)
    decreases |acts|
  {
    var all := acts + [a];
    if acts == [] {
      assert all[1..] == [];
      assert After(Step(s, a), []) == Step(s, a);
    } else {
      assert all[0] == acts[0] && all[1..] == acts[1..] + [a];
      RunSnoc(Step(s, acts[0]), acts[1..], a);
    }
  }

  /** The requests that thread `t` made, in order. */
  ghost function Asked(acts: seq<Act>, t: int): seq<Request> {
    if acts == [] then []
    else
      var a, front := acts[|acts| - 1], Asked(acts[..|acts| - 1], t);
      if a.Begin? && a.t == t then front + [a.request] else front
  }

  lemma {:induction false} AskedSnoc(acts: seq<Act>, a: Act, t: int)
    ensures Asked(acts + [a], t) == if a.Begin? && a.t == t then Asked(acts, t) + [a.request] else Asked(acts, t)
  {
    var all := acts + [a];
    assert all[..|all| - 1] == acts && all[|all| - 1] == a;
  }

  // ---------------------------------------------------------------- why a call moved less than it was asked to

  /** In state `s` the loop of the call, having moved `n` bytes, meets a full ring, or an empty one. */
  ghost predicate Stuck(s: St, t: int, turn: int, write: bool, n: int) {
    && Thread(s, t) && s.turns[t] == turn
    && match s.pcs[t]
       case WLoop(_, _, i, _) => write && i == n && Full(s.ring)
       case RLoop(_, _, out, _) => !write && |out| == n && Empty(s.ring)
       case _ => false
  }

  /** The call is blocked or was woken, and the stream is closed. */
  ghost predicate Lapsed(s: St, t: int, turn: int) {
    && Thread(s, t) && s.turns[t] == turn && s.closed
    && match s.pcs[t]
       case WBlocked(_) => true
       case RBlocked(_) => true
       case WWant(_, resumed) => resumed
       case RWant(_, resumed) => resumed
       case _ => false
  }

  /** The state after the first `m` acts of a run. */
  ghost predicate Passed(s0: St, acts: seq<Act>, m: int, s: St) {
    0 <= m <= |acts| && IsRun(s0, acts[..m]) && After(s0, acts[..m]) == s
  }

  ghost predicate WasStuck(s0: St, acts: seq<Act>, t: int, turn: int, write: bool, n: int) {
    exists m, s :: Passed(s0, acts, m, s) && Stuck(s, t, turn, write, n)
  }

  ghost predicate WasLapsed(s0: St, acts: seq<Act>, t: int, turn: int) {
    exists m, s :: Passed(s0, acts, m, s) && Lapsed(s, t, turn)
  }

  lemma {:induction false} PassedGrows(s0: St, acts: seq<Act>, a: Act, m: int, s: St)
    requires IsRun(s0, acts + [a])
    ensures Passed(s0, acts, m, s) ==> Passed(s0, acts + [a], m, s)
    ensures Passed(s0, acts + [a], m, s) ==> Passed(s0, acts, m, s) || s == After(s0, acts + [a])
  {
    if 0 <= m <= |acts| { assert (acts + [a])[..m] == acts[..m]; }
    if m == |acts| + 1 { assert (acts + [a])[..m] == acts + [a]; }
  }

  lemma {:induction false} PassedNow(s0: St, acts: seq<Act>)
    requires IsRun(s0, acts)
    ensures Passed(s0, acts, |acts|, After(s0, acts))
  {
    assert acts[..|acts|] == acts;
  }

  lemma {:induction false} StuckGrows(s0: St, acts: seq<Act>, a: Act, t: int, turn: int, write: bool, n: int)
    requires IsRun(s0, acts + [a])
    ensures WasStuck(s0, acts, t, turn, write, n) ==> WasStuck(s0, acts + [a], t, turn, write, n)
    ensures IsRun(s0, acts) && Stuck(After(s0, acts), t, turn, write, n) ==> WasStuck(s0, acts + [a], t, turn, write, n)
  {
    if WasStuck(s0, acts, t, turn, write, n) {
      var m, s :| Passed(s0, acts, m, s) && Stuck(s, t, turn, write, n);
      PassedGrows(s0, acts, a, m, s);
    }
    if IsRun(s0, acts) && Stuck(After(s0, acts), t, turn, write, n) {
      PassedNow(s0, acts);
      PassedGrows(s0, acts, a, |acts|, After(s0, acts));
    }
  }

  lemma {:induction false} LapsedGrows(s0: St, acts: seq<Act>, a: Act, t: int, turn: int)
    requires IsRun(s0, acts + [a])
    ensures WasLapsed(s0, acts + [a], t, turn) ==>
              WasLapsed(s0, acts, t, turn) || Lapsed(After(s0, acts + [a]), t, turn)
  {
    if WasLapsed(s0, acts + [a], t, turn) {
      var m, s :| Passed(s0, acts + [a], m, s) && Lapsed(s, t, turn);
      PassedGrows(s0, acts, a, m, s);
    }
  }

  lemma LoopChanges(s: St, t: int)
    requires Thread(s, t) && InRange(s.ring)
    ensures s.pcs[t].WLoop? ==> WriteStep(s, t).pcs[t] != s.pcs[t]
    ensures s.pcs[t].RLoop? ==> ReadStep(s, t).pcs[t] != s.pcs[t]
  {
  }

  lemma WakeChanges(s: St)
    ensures s.readers != [] ==> WakeReader(s).readers != s.readers
    ensures s.writers != [] ==> WakeWriter(s).writers != s.writers
  {
  }

  /** No step leaves everything as it was. */
  lemma StepChanges(s: St, a: Act)
    requires Enabled(s, a) && InRange(s.ring)
    ensures Step(s, a) != s
  {
    var t := a.t;
    if a.Begin? {
      assert BeginCall(s, t, a.request).pcs[t] != Idle;
    } else if s.pcs[t].WLoop? || s.pcs[t].RLoop? {
      LoopChanges(s, t);
    } else if s.pcs[t].WWant? || s.pcs[t].RWant? || s.pcs[t].CWant? {
      assert Advance(s, t).pcs[t] != s.pcs[t];
    } else {
      WakeChanges(s);
    }
  }

  // ---------------------------------------------------------------- the invariant

  /** What a thread is doing is its latest request, and it stopped short only for a reason. */
  ghost predicate Doing(s0: St, acts: seq<Act>, s: St, t: int)
    requires Thread(s, t)
  {
    var qs, turn := Asked(acts, t), s.turns[t];
    && 0 <= turn && |qs| == turn + (if s.pcs[t].Idle? then 0 else 1)
    && match s.pcs[t]
       case Idle => true
       case WWant(buf, resumed) => qs[turn] == Write(buf) && (resumed ==> WasStuck(s0, acts, t, turn, true, 0))
       case WLoop(buf, _, _, _) => qs[turn] == Write(buf)
       case WBlocked(buf) => qs[turn] == Write(buf) && WasStuck(s0, acts, t, turn, true, 0)
       case WNotify(buf, _, i) => qs[turn] == Write(buf) && (i == |buf| || WasStuck(s0, acts, t, turn, true, i))
       case RWant(n, resumed) => qs[turn] == Read(n) && (resumed ==> WasStuck(s0, acts, t, turn, false, 0))
       case RLoop(n, _, _, _) => qs[turn] == Read(n)
       case RBlocked(n) => qs[turn] == Read(n) && WasStuck(s0, acts, t, turn, false, 0)
       case RNotify(n, _, out) => qs[turn] == Read(n) && (|out| == n || WasStuck(s0, acts, t, turn, false, |out|))
       case CWant => qs[turn] == Close
       case CNotify => qs[turn] == Close
  }

  /** What a finished call moved, against its request. */
  ghost predicate Did(s0: St, acts: seq<Act>, c: Call) {
    var qs := Asked(acts, c.thread);
    && 0 <= c.turn < |qs| && (c.write <==> qs[c.turn].Write?) && (!c.write <==> qs[c.turn].Read?)
    && (c.write ==> c.moved <= qs[c.turn].buf)
    && (!c.write ==> |c.moved| <= qs[c.turn].n)
    && (|c.moved| == Size(qs[c.turn]) || WasStuck(s0, acts, c.thread, c.turn, c.write, |c.moved|))
  }

  /** How many bytes a request is for. */
  function Size(q: Request): int {
    match q
    case Write(buf) => |buf|
    case Read(n) => n
    case Close => 0
  }

  ghost predicate AllDoing(s0: St, acts: seq<Act>, s: St) {
    |s.pcs| == |s.turns| && forall t :: Thread(s, t) ==> Doing(s0, acts, s, t)
  }

  ghost predicate AllDid(s0: St, acts: seq<Act>, s: St) {
    forall k :: 0 <= k < |s.done| ==> 0 <= s.done[k].thread < |s.turns| && Did(s0, acts, s.done[k])
  }

  lemma {:induction false} DoingOther(s0: St, acts: seq<Act>, a: Act, s: St, s': St, u: int)
    requires IsRun(s0, acts + [a]) && u != a.t && Thread(s, u) && Thread(s', u) && Doing(s0, acts, s, u)
    requires s'.turns[u] == s.turns[u] && Woken(s.pcs[u], s'.pcs[u])
    ensures Doing(s0, acts + [a], s', u)
  {
    AskedSnoc(acts, a, u);
    match s.pcs[u] {
      case WNotify(_, _, i) => StuckGrows(s0, acts, a, u, s.turns[u], true, i);
      case RNotify(_, _, out) => StuckGrows(s0, acts, a, u, s.turns[u], false, |out|);
      case _ =>
        StuckGrows(s0, acts, a, u, s.turns[u], true, 0);
        StuckGrows(s0, acts, a, u, s.turns[u], false, 0);
    }
  }

  lemma {:induction false} DoingBegin(s0: St, acts: seq<Act>, s: St, t: int, q: Request)
    requires IsRun(s0, acts + [Begin(t, q)]) && Enabled(s, Begin(t, q)) && Doing(s0, acts, s, t)
    ensures Thread(BeginCall(s, t, q), t) && Doing(s0, acts + [Begin(t, q)], BeginCall(s, t, q), t)
  {
    AskedSnoc(acts, Begin(t, q), t);
  }

  /** A thread that takes the mutex, or finds that it was woken after the close. */
  lemma {:induction false} DoingWant(s0: St, acts: seq<Act>, s: St, t: int)
    requires IsRun(s0, acts + [Go(t)]) && IsRun(s0, acts) && s == After(s0, acts)
    requires Enabled(s, Go(t)) && InRange(s.ring) && Doing(s0, acts, s, t)
    requires s.pcs[t].WWant? || s.pcs[t].RWant? || s.pcs[t].CWant?
    ensures Thread(Advance(s, t), t) && Doing(s0, acts + [Go(t)], Advance(s, t), t)
  {
    AskedSnoc(acts, Go(t), t);
    StuckGrows(s0, acts, Go(t), t, s.turns[t], s.pcs[t].WWant?, 0);
  }

  lemma {:induction false} DoingWrite(s0: St, acts: seq<Act>, s: St, t: int)
    requires IsRun(s0, acts + [Go(t)]) && IsRun(s0, acts) && s == After(s0, acts)
    requires Thread(s, t) && InRange(s.ring) && Doing(s0, acts, s, t) && PcHistory(s, t) && s.pcs[t].WLoop?
    ensures Thread(WriteStep(s, t), t) && Doing(s0, acts + [Go(t)], WriteStep(s, t), t)
  {
    AskedSnoc(acts, Go(t), t);
    StuckGrows(s0, acts, Go(t), t, s.turns[t], true, s.pcs[t].i);
  }

  lemma {:induction false} DoingRead(s0: St, acts: seq<Act>, s: St, t: int)
    requires IsRun(s0, acts + [Go(t)]) && IsRun(s0, acts) && s == After(s0, acts)
    requires Thread(s, t) && InRange(s.ring) && Doing(s0, acts, s, t) && PcHistory(s, t) && s.pcs[t].RLoop?
    ensures Thread(ReadStep(s, t), t) && Doing(s0, acts + [Go(t)], ReadStep(s, t), t)
  {
    AskedSnoc(acts, Go(t), t);
    StuckGrows(s0, acts, Go(t), t, s.turns[t], false, |s.pcs[t].out|);
  }

  /** A thread that stays where it is in its call. */
  lemma {:induction false} DoingStays(s0: St, acts: seq<Act>, s: St, s': St, t: int)
    requires IsRun(s0, acts + [Go(t)]) && Thread(s, t) && Doing(s0, acts, s, t)
    requires s.pcs[t].WNotify? || s.pcs[t].RNotify? || s.pcs[t].CNotify?
    requires Thread(s', t) && s'.pcs[t] == s.pcs[t] && s'.turns[t] == s.turns[t]
    ensures Doing(s0, acts + [Go(t)], s', t)
  {
    AskedSnoc(acts, Go(t), t);
    match s.pcs[t] {
      case WNotify(_, _, i) => StuckGrows(s0, acts, Go(t), t, s.turns[t], true, i);
      case RNotify(_, _, out) => StuckGrows(s0, acts, Go(t), t, s.turns[t], false, |out|);
      case CNotify =>
    }
  }

  lemma WakeElsewhere(s: St, t: int)
    requires Thread(s, t) && !s.pcs[t].RBlocked? && !s.pcs[t].WBlocked?
    ensures s.readers != [] ==> var s' := WakeReader(s);
      Thread(s', t) && s'.pcs[t] == s.pcs[t] && s'.turns == s.turns
    ensures s.writers != [] ==> var s' := WakeWriter(s);
      Thread(s', t) && s'.pcs[t] == s.pcs[t] && s'.turns == s.turns
  {
  }

  /** A thread that wakes somebody, or ends its call. */
  lemma {:induction false} DoingNotify(s0: St, acts: seq<Act>, s: St, t: int)
    requires IsRun(s0, acts + [Go(t)]) && Enabled(s, Go(t)) && InRange(s.ring) && Doing(s0, acts, s, t)
    requires s.pcs[t].WNotify? || s.pcs[t].RNotify? || s.pcs[t].CNotify?
    ensures Thread(Advance(s, t), t) && Doing(s0, acts + [Go(t)], Advance(s, t), t)
  {
    if if s.pcs[t].RNotify? then s.writers != [] else s.readers != [] {
      WakeElsewhere(s, t);
      DoingStays(s0, acts, s, Advance(s, t), t);
    } else {
      AskedSnoc(acts, Go(t), t);
    }
  }

  lemma {:induction false} DoingOwn(s0: St, acts: seq<Act>, a: Act, s: St)
    requires IsRun(s0, acts + [a]) && IsRun(s0, acts) && s == After(s0, acts)
    requires Enabled(s, a) && InRange(s.ring) && Doing(s0, acts, s, a.t) && PcHistory(s, a.t)
    ensures Thread(Step(s, a), a.t) && Doing(s0, acts + [a], Step(s, a), a.t)
  {
    match a {
      case Begin(t, q) => DoingBegin(s0, acts, s, t, q);
      case Go(t) =>
        if s.pcs[t].WLoop? {
          DoingWrite(s0, acts, s, t);
        } else if s.pcs[t].RLoop? {
          DoingRead(s0, acts, s, t);
        } else if s.pcs[t].WWant? || s.pcs[t].RWant? || s.pcs[t].CWant? {
          DoingWant(s0, acts, s, t);
        } else {
          DoingNotify(s0, acts, s, t);
        }
    }
  }

  lemma {:induction false} DoingStep(s0: St, acts: seq<Act>, a: Act, s: St)
    requires IsRun(s0, acts + [a]) && IsRun(s0, acts) && s == After(s0, acts)
    requires Enabled(s, a) && Valid(s) && AllDoing(s0, acts, s)
    ensures AllDoing(s0, acts + [a], Step(s, a))
  {
    assert PcHistory(s, a.t) && (Holds(s.pcs[a.t]) ==> s.owner == a.t);
    StepMoved(s, a);
    forall u | Thread(Step(s, a), u) ensures Doing(s0, acts + [a], Step(s, a), u) {
      assert Doing(s0, acts, s, u);
      if u == a.t { DoingOwn(s0, acts, a, s); } else { DoingOther(s0, acts, a, s, Step(s, a), u); }
    }
  }

  lemma {:induction false} DidKept(s0: St, acts: seq<Act>, a: Act, c: Call)
    requires IsRun(s0, acts + [a]) && Did(s0, acts, c)
    ensures Did(s0, acts + [a], c)
  {
    AskedSnoc(acts, a, c.thread);
    StuckGrows(s0, acts, a, c.thread, c.turn, c.write, |c.moved|);
  }

  /** The call that a thread would report as finished now. */
  ghost function Ending(s: St, t: int): Call
    requires Thread(s, t)
  {
    match s.pcs[t]
    case WNotify(buf, start, i) => Call(t, s.turns[t], true, start, if 0 <= i <= |buf| then buf[..i] else [])
    case RNotify(_, start, out) => Call(t, s.turns[t], false, start, out)
    case _ => Call(t, s.turns[t], false, 0, [])
  }

  lemma {:induction false} EndingDid(s0: St, acts: seq<Act>, a: Act, s: St, t: int)
    requires IsRun(s0, acts + [a]) && Thread(s, t) && Doing(s0, acts, s, t) && PcHistory(s, t)
    requires s.pcs[t].WNotify? || s.pcs[t].RNotify?
    ensures Did(s0, acts + [a], Ending(s, t))
  {
    assert Did(s0, acts, Ending(s, t));
    DidKept(s0, acts, a, Ending(s, t));
  }

  lemma LoopTurns(s: St, t: int)
    requires Thread(s, t) && InRange(s.ring) && (s.pcs[t].WLoop? || s.pcs[t].RLoop?)
    ensures var s' := if s.pcs[t].WLoop? then WriteStep(s, t) else ReadStep(s, t);
            s'.turns == s.turns && s'.done == s.done && |s'.pcs| == |s.pcs| && s'.closed == s.closed
  {
  }

  lemma WakeTurns(s: St)
    ensures s.readers != [] ==> var s' := WakeReader(s);
              s'.turns == s.turns && s'.done == s.done && |s'.pcs| == |s.pcs| && s'.closed == s.closed
    ensures s.writers != [] ==> var s' := WakeWriter(s);
              s'.turns == s.turns && s'.done == s.done && |s'.pcs| == |s.pcs| && s'.closed == s.closed
  {
  }

  /** The call of thread `t` ends with this step. */
  ghost predicate Ends(s: St, a: Act) {
    a.Go? && Thread(s, a.t) &&
    match s.pcs[a.t]
    case WNotify(_, _, _) => s.readers == []
    case RNotify(_, _, _) => s.writers == []
    case CNotify => s.readers == []
    case _ => false
  }

  /** Only the stepping thread can end its call, and reports it unless it was a close. */
  lemma TurnsStep(s: St, a: Act)
    requires Enabled(s, a) && InRange(s.ring)
    ensures |Step(s, a).pcs| == |s.pcs| == |s.turns|
    ensures Step(s, a).turns == if Ends(s, a) then s.turns[a.t := s.turns[a.t] + 1] else s.turns
    ensures Step(s, a).done == if Ends(s, a) && !s.pcs[a.t].CNotify? then s.done + [Ending(s, a.t)] else s.done
    ensures Ends(s, a) ==> Step(s, a).pcs[a.t] == Idle
    ensures Step(s, a).closed <==> s.closed || (a.Go? && s.pcs[a.t] == CWant)
  {
    if a.Go? && (s.pcs[a.t].WLoop? || s.pcs[a.t].RLoop?) {
      LoopTurns(s, a.t);
    } else if a.Go? {
      WakeTurns(s);
    }
  }

  lemma {:induction false} DidStep(s0: St, acts: seq<Act>, a: Act, s: St)
    requires IsRun(s0, acts + [a]) && Enabled(s, a) && Valid(s) && AllDoing(s0, acts, s) && AllDid(s0, acts, s)
    ensures AllDid(s0, acts + [a], Step(s, a))
  {
    TurnsStep(s, a);
    assert PcHistory(s, a.t) && Doing(s0, acts, s, a.t);
    forall k | 0 <= k < |Step(s, a).done|
      ensures 0 <= Step(s, a).done[k].thread < |s.turns| && Did(s0, acts + [a], Step(s, a).done[k])
    {
      if k < |s.done| { DidKept(s0, acts, a, s.done[k]); } else { EndingDid(s0, acts, a, s, a.t); }
    }
  }

  lemma StartDoing(size: nat, n: nat)
    ensures var s := Start(size, n); AllDoing(s, [], s) && AllDid(s, [], s)
  {
  }

  lemma {:induction false} RunDoing(size: nat, n: nat, acts: seq<Act>)
    requires IsRun(Start(size, n), acts)
    ensures var s0 := Start(size, n); var s := After(s0, acts);
            Valid(s) && AllDoing(s0, acts, s) && AllDid(s0, acts, s)
    decreases |acts|
  {
    var s0 := Start(size, n);
    StartValid(size, n);
    RunValid(s0, acts);
    if acts == [] {
      StartDoing(size, n);
    } else {
      var front, a := acts[..|acts| - 1], acts[|acts| - 1];
      assert acts == front + [a];
      RunSnoc(s0, front, a);
      RunDoing(size, n, front);
      DoingStep(s0, front, a, After(s0, front));
      DidStep(s0, front, a, After(s0, front));
    }
  }

  /**
   Over every interleaving, a finished write put in a prefix of the buffer that its thread passed in that call, and a
   finished read took no more than it asked for. Either moved all it was asked to, unless at some moment of the call
   the ring was full, or empty, in front of its next byte.
   */
  lemma {:induction false} EveryCallAsked(size: nat, n: nat, acts: seq<Act>, k: int)
    requires IsRun(Start(size, n), acts) && 0 <= k < |After(Start(size, n), acts).done|
    ensures var c := After(Start(size, n), acts).done[k]; var qs := Asked(acts, c.thread);
      && 0 <= c.turn < |qs|
      && match qs[c.turn]
         case Write(buf) =>
           && c.write && c.moved <= buf
           && (c.moved == buf || WasStuck(Start(size, n), acts, c.thread, c.turn, true, |c.moved|))
         case Read(m) =>
           && !c.write && |c.moved| <= m
           && (|c.moved| == m || WasStuck(Start(size, n), acts, c.thread, c.turn, false, |c.moved|))
         case Close => false
  {
    RunDoing(size, n, acts);
  }

  // ---------------------------------------------------------------- every call is reported once

  ghost predicate ReportOf(s: St, j: int, t: int, k: int) {
    0 <= j < |s.done| && s.done[j].thread == t && s.done[j].turn == k
  }

  /** Each call a thread has finished, unless it was a close, is reported. */
  ghost predicate Reported(acts: seq<Act>, s: St, t: int)
    requires Thread(s, t)
  {
    forall k :: 0 <= k < s.turns[t] && k < |Asked(acts, t)| && Asked(acts, t)[k] != Close ==>
      exists j :: ReportOf(s, j, t, k)
  }

  ghost predicate AllReported(acts: seq<Act>, s: St) {
    && (forall t :: Thread(s, t) ==> Reported(acts, s, t))
    && (forall i, j :: 0 <= i < j < |s.done| ==>
          (s.done[i].thread, s.done[i].turn) != (s.done[j].thread, s.done[j].turn))
  }

  lemma ReportedStep(s0: St, acts: seq<Act>, a: Act, s: St, t: int)
    requires Enabled(s, a) && InRange(s.ring) && Thread(s, t) && Doing(s0, acts, s, t) && Reported(acts, s, t)
    ensures Thread(Step(s, a), t) && Reported(acts + [a], Step(s, a), t)
  {
    TurnsStep(s, a);
    AskedSnoc(acts, a, t);
    var s', qs := Step(s, a), Asked(acts, t);
    forall k | 0 <= k < s'.turns[t] && k < |Asked(acts + [a], t)| && Asked(acts + [a], t)[k] != Close
      ensures exists j :: ReportOf(s', j, t, k)
    {
      if k < s.turns[t] {
        var j :| ReportOf(s, j, t, k);
        assert ReportOf(s', j, t, k);
      } else {
        assert s'.done == s.done + [Ending(s, t)];
        assert ReportOf(s', |s.done|, t, k);
      }
    }
  }

  lemma DistinctStep(acts: seq<Act>, a: Act, s: St)
    requires Valid(s) && Enabled(s, a) && AllReported(acts, s)
    ensures var d := Step(s, a).done;
            forall i, j :: 0 <= i < j < |d| ==> (d[i].thread, d[i].turn) != (d[j].thread, d[j].turn)
  {
    TurnsStep(s, a);
    forall i | 0 <= i < |s.done| ensures s.done[i].thread != a.t || s.done[i].turn < s.turns[a.t] {
      assert DoneOk(s, s.done[i]);
    }
  }

  // ---------------------------------------------------------------- closing

  /** The `k`-th call of thread `t` is a close that has taken the mutex. */
  ghost predicate Closing(acts: seq<Act>, s: St, t: int, k: int) {
    && Thread(s, t) && 0 <= k < |Asked(acts, t)| && Asked(acts, t)[k] == Close
    && (k < s.turns[t] || s.pcs[t] == CNotify)
  }

  ghost predicate ClosedBySome(acts: seq<Act>, s: St) { exists t, k :: Closing(acts, s, t, k) }

  lemma ClosingKept(s0: St, acts: seq<Act>, a: Act, s: St, t: int, k: int)
    requires Enabled(s, a) && InRange(s.ring) && Closing(acts, s, t, k) && Doing(s0, acts, s, t)
    requires forall u :: Thread(s, u) && u != a.t && Thread(Step(s, a), u) ==> Woken(s.pcs[u], Step(s, a).pcs[u])
    ensures Closing(acts + [a], Step(s, a), t, k)
  {
    TurnsStep(s, a);
    AskedSnoc(acts, a, t);
  }

  lemma ClosingBefore(s0: St, acts: seq<Act>, a: Act, s: St, t: int, k: int)
    requires Enabled(s, a) && InRange(s.ring) && Closing(acts + [a], Step(s, a), t, k) && AllDoing(s0, acts, s)
    requires forall u :: Thread(s, u) && u != a.t && Thread(Step(s, a), u) ==> Woken(s.pcs[u], Step(s, a).pcs[u])
    ensures Closing(acts, s, t, k) || (a == Go(t) && s.pcs[t] == CWant)
  {
    TurnsStep(s, a);
    AskedSnoc(acts, a, t);
    assert Doing(s0, acts, s, t);
  }

  lemma StillOpen(s0: St, acts: seq<Act>, a: Act, s: St)
    requires Enabled(s, a) && InRange(s.ring) && AllDoing(s0, acts, s) && !ClosedBySome(acts, s)
    requires !(a.Go? && s.pcs[a.t] == CWant)
    requires forall u :: Thread(s, u) && u != a.t && Thread(Step(s, a), u) ==> Woken(s.pcs[u], Step(s, a).pcs[u])
    ensures !ClosedBySome(acts + [a], Step(s, a))
  {
    forall t, k ensures !Closing(acts + [a], Step(s, a), t, k) {
      if Closing(acts + [a], Step(s, a), t, k) { ClosingBefore(s0, acts, a, s, t, k); }
    }
  }

  lemma ClosedStep(s0: St, acts: seq<Act>, a: Act, s: St)
    requires Enabled(s, a) && InRange(s.ring) && AllDoing(s0, acts, s) && (s.closed <==> ClosedBySome(acts, s))
    requires forall u :: Thread(s, u) && u != a.t && Thread(Step(s, a), u) ==> Woken(s.pcs[u], Step(s, a).pcs[u])
    ensures Step(s, a).closed <==> ClosedBySome(acts + [a], Step(s, a))
  {
    TurnsStep(s, a);
    if s.closed {
      var t, k :| Closing(acts, s, t, k);
      assert Doing(s0, acts, s, t);
      ClosingKept(s0, acts, a, s, t, k);
    } else if a.Go? && s.pcs[a.t] == CWant {
      AskedSnoc(acts, a, a.t);
      assert Doing(s0, acts, s, a.t);
      assert Closing(acts + [a], Step(s, a), a.t, s.turns[a.t]);
    } else {
      StillOpen(s0, acts, a, s);
    }
  }

  // ---------------------------------------------------------------- calls that outlive the stream

  /** A call that was waiting, or was just woken, when the stream was closed, moves nothing. */
  ghost predicate Spent(s0: St, acts: seq<Act>, s: St, t: int)
    requires Thread(s, t)
  {
    && (forall k :: WasLapsed(s0, acts, t, k) ==> k <= s.turns[t])
    && (WasLapsed(s0, acts, t, s.turns[t]) ==>
          || Lapsed(s, t, s.turns[t]) || (s.pcs[t].WNotify? && s.pcs[t].i == 0)
          || (s.pcs[t].RNotify? && s.pcs[t].out == []))
  }

  ghost predicate AllSpent(s0: St, acts: seq<Act>, s: St) {
    && (forall t :: Thread(s, t) ==> Spent(s0, acts, s, t))
    && (forall k :: 0 <= k < |s.done| && WasLapsed(s0, acts, s.done[k].thread, s.done[k].turn) ==>
          s.done[k].moved == [])
  }

  /** What a step does to a thread whose call is spent. */
  lemma LapsedMoves(s: St, a: Act, t: int)
    requires Enabled(s, a) && InRange(s.ring) && Thread(s, t) && Thread(Step(s, a), t)
    requires t != a.t ==> Woken(s.pcs[t], Step(s, a).pcs[t])
    requires Step(s, a).turns[t] == s.turns[t]
    ensures Lapsed(s, t, s.turns[t]) ==>
      var pc := Step(s, a).pcs[t];
      Lapsed(Step(s, a), t, s.turns[t]) || (pc.WNotify? && pc.i == 0) || (pc.RNotify? && pc.out == [])
    ensures s.pcs[t].WNotify? ==> Step(s, a).pcs[t] == s.pcs[t]
    ensures s.pcs[t].RNotify? ==> Step(s, a).pcs[t] == s.pcs[t]
  {
  }

  lemma {:induction false} SpentStep(s0: St, acts: seq<Act>, a: Act, s: St, t: int)
    requires Valid(s) && Enabled(s, a) && IsRun(s0, acts + [a]) && After(s0, acts + [a]) == Step(s, a)
    requires Thread(s, t) && Spent(s0, acts, s, t)
    ensures Thread(Step(s, a), t) && Spent(s0, acts + [a], Step(s, a), t)
  {
    var s' := Step(s, a);
    assert PcHistory(s, a.t) && (Holds(s.pcs[a.t]) ==> s.owner == a.t);
    StepMoved(s, a);
    TurnsStep(s, a);
    forall k | WasLapsed(s0, acts + [a], t, k) ensures k <= s'.turns[t] { LapsedGrows(s0, acts, a, t, k); }
    LapsedGrows(s0, acts, a, t, s'.turns[t]);
    if s'.turns[t] == s.turns[t] { LapsedMoves(s, a, t); }
  }

  lemma {:induction false} SpentDone(s0: St, acts: seq<Act>, a: Act, s: St, c: Call)
    requires Valid(s) && Enabled(s, a) && IsRun(s0, acts + [a]) && After(s0, acts + [a]) == Step(s, a)
    requires DoneOk(s, c) && (WasLapsed(s0, acts, c.thread, c.turn) ==> c.moved == [])
    ensures WasLapsed(s0, acts + [a], c.thread, c.turn) ==> c.moved == []
  {
    TurnsStep(s, a);
    LapsedGrows(s0, acts, a, c.thread, c.turn);
  }

  lemma {:induction false} SpentEnds(s0: St, acts: seq<Act>, a: Act, s: St)
    requires Valid(s) && Enabled(s, a) && IsRun(s0, acts + [a]) && After(s0, acts + [a]) == Step(s, a)
    requires Ends(s, a) && !s.pcs[a.t].CNotify? && Spent(s0, acts, s, a.t)
    ensures WasLapsed(s0, acts + [a], a.t, s.turns[a.t]) ==> Ending(s, a.t).moved == []
  {
    TurnsStep(s, a);
    LapsedGrows(s0, acts, a, a.t, s.turns[a.t]);
  }

  lemma {:induction false} AllSpentStep(s0: St, acts: seq<Act>, a: Act, s: St)
    requires Valid(s) && Enabled(s, a) && IsRun(s0, acts + [a]) && After(s0, acts + [a]) == Step(s, a)
    requires AllSpent(s0, acts, s)
    ensures AllSpent(s0, acts + [a], Step(s, a))
  {
    var s' := Step(s, a);
    TurnsStep(s, a);
    forall t | Thread(s', t) ensures Spent(s0, acts + [a], s', t) { SpentStep(s0, acts, a, s, t); }
    forall k | 0 <= k < |s'.done| && WasLapsed(s0, acts + [a], s'.done[k].thread, s'.done[k].turn)
      ensures s'.done[k].moved == []
    {
      if k < |s.done| {
        assert DoneOk(s, s.done[k]);
        SpentDone(s0, acts, a, s, s.done[k]);
      } else {
        SpentEnds(s0, acts, a, s);
      }
    }
  }

  // ---------------------------------------------------------------- every run

  ghost predicate CallsOk(s0: St, acts: seq<Act>, s: St) {
    AllDoing(s0, acts, s) && AllReported(acts, s) && AllSpent(s0, acts, s) && (s.closed <==> ClosedBySome(acts, s))
  }

  lemma StartCalls(size: nat, n: nat)
    ensures CallsOk(Start(size, n), [], Start(size, n))
  {
    var s, none: seq<Act> := Start(size, n), [];
    StartDoing(size, n);
    forall m, s' | Passed(s, none, m, s') ensures s' == s { assert none[..m] == none; }
  }

  lemma {:induction false} CallsStep(s0: St, acts: seq<Act>, a: Act, s: St)
    requires IsRun(s0, acts + [a]) && IsRun(s0, acts) && s == After(s0, acts)
    requires Valid(s) && Enabled(s, a) && After(s0, acts + [a]) == Step(s, a) && CallsOk(s0, acts, s)
    ensures CallsOk(s0, acts + [a], Step(s, a))
  {
    var s' := Step(s, a);
    assert PcHistory(s, a.t) && (Holds(s.pcs[a.t]) ==> s.owner == a.t);
    StepMoved(s, a);
    DoingStep(s0, acts, a, s);
    AllSpentStep(s0, acts, a, s);
    ClosedStep(s0, acts, a, s);
    DistinctStep(acts, a, s);
    forall t | Thread(s', t) ensures Reported(acts + [a], s', t) {
      assert Doing(s0, acts, s, t);
      ReportedStep(s0, acts, a, s, t);
    }
  }

  lemma {:induction false} RunCalls(size: nat, n: nat, acts: seq<Act>)
    requires IsRun(Start(size, n), acts)
    ensures Valid(After(Start(size, n), acts)) && CallsOk(Start(size, n), acts, After(Start(size, n), acts))
    decreases |acts|
  {
    var s0 := Start(size, n);
    StartValid(size, n);
    RunValid(s0, acts);
    if acts == [] {
      StartCalls(size, n);
    } else {
      var front, a := acts[..|acts| - 1], acts[|acts| - 1];
      assert acts == front + [a];
      RunSnoc(s0, front, a);
      RunCalls(size, n, front);
      CallsStep(s0, front, a, After(s0, front));
    }
  }

  /**
   In every run each finished call but a close is reported exactly once, and a call that was waiting, or had just
   been woken, when the stream was closed moved nothing.
   */
  lemma {:induction false} EveryCallReported(size: nat, n: nat, acts: seq<Act>, t: int, k: int)
    requires IsRun(Start(size, n), acts) && Thread(After(Start(size, n), acts), t)
    requires 0 <= k < After(Start(size, n), acts).turns[t]
    ensures var s := After(Start(size, n), acts);
      && k < |Asked(acts, t)|
      && (Asked(acts, t)[k] != Close ==> exists j :: ReportOf(s, j, t, k))
      && (forall i, j :: ReportOf(s, i, t, k) && ReportOf(s, j, t, k) ==> i == j)
      && (WasLapsed(Start(size, n), acts, t, k) ==> forall j :: ReportOf(s, j, t, k) ==> s.done[j].moved == [])
  {
    RunCalls(size, n, acts);
    var s := After(Start(size, n), acts);
    assert Doing(Start(size, n), acts, s, t) && Reported(acts, s, t);
    forall i, j | ReportOf(s, i, t, k) && ReportOf(s, j, t, k) ensures i == j {
      assert (s.done[i].thread, s.done[i].turn) == (s.done[j].thread, s.done[j].turn);
    }
  }

  /** In every run the stream is closed exactly if some thread asked for a close that has taken the mutex. */
  lemma {:induction false} ClosedIff(size: nat, n: nat, acts: seq<Act>)
    requires IsRun(Start(size, n), acts)
    ensures After(Start(size, n), acts).closed <==> ClosedBySome(acts, After(Start(size, n), acts))
  {
    RunCalls(size, n, acts);
  }

  /** So once a close has finished, a state in which nobody can step has no blocked reader. */
  lemma {:induction false} CloseFreesReaders(size: nat, n: nat, acts: seq<Act>, t: int, k: int, u: int)
    requires IsRun(Start(size, n), acts)
    requires var s := After(Start(size, n), acts);
      && Quiet(s) && Thread(s, t) && Thread(s, u)
      && 0 <= k < s.turns[t] && k < |Asked(acts, t)| && Asked(acts, t)[k] == Close
    ensures !After(Start(size, n), acts).pcs[u].RBlocked?
  {
    var s := After(Start(size, n), acts);
    ClosedIff(size, n, acts);
    assert Closing(acts, s, t, k);
    NoLostWakeup(size, n, acts, u);
  }

  /** In every run, unless all threads are between calls or blocked, some thread can step: no deadlock. */
  lemma {:induction false} NoDeadlock(size: nat, n: nat, acts: seq<Act>)
    requires IsRun(Start(size, n), acts) && !Quiet(After(Start(size, n), acts))
    ensures exists t :: Enabled(After(Start(size, n), acts), Go(t))
  {
    StartValid(size, n);
    RunValid(Start(size, n), acts);
    SomeoneSteps(After(Start(size, n), acts));
  }

  lemma SomeoneSteps(s: St)
    requires OwnerOk(s) && !Quiet(s)
    ensures exists t :: Enabled(s, Go(t))
  {
    if s.owner != NOBODY {
      assert Thread(s, s.owner) && Holds(s.pcs[s.owner]);
      assert Enabled(s, Go(s.owner));
    } else {
      var t :| 0 <= t < |s.pcs| && !(s.pcs[t].Idle? || s.pcs[t].RBlocked? || s.pcs[t].WBlocked?);
      assert Enabled(s, Go(t));
    }
  }

  /** A waiting list changes only by losing its head, who asks for the mutex again, or by gaining the one who blocks. */
  ghost predicate InOrder(q: seq<int>, q': seq<int>, t: int, blocks: bool) {
    q' == (if blocks then q + [t] else q) || (q != [] && q' == q[1..])
  }

  lemma WakesInOrder(s: St)
    requires ListsOk(s)
    ensures s.readers != [] ==> var u := s.readers[0];
      && 0 <= u < |s.pcs| && s.pcs[u].RBlocked? && WakeReader(s).pcs[u] == RWant(s.pcs[u].n, true)
      && WakeReader(s).readers == s.readers[1..] && WakeReader(s).writers == s.writers
    ensures s.writers != [] ==> var u := s.writers[0];
      && 0 <= u < |s.pcs| && s.pcs[u].WBlocked? && WakeWriter(s).pcs[u] == WWant(s.pcs[u].buf, true)
      && WakeWriter(s).writers == s.writers[1..] && WakeWriter(s).readers == s.readers
  {
  }

  lemma LoopInOrder(s: St, t: int)
    requires Thread(s, t) && InRange(s.ring) && (s.pcs[t].WLoop? || s.pcs[t].RLoop?)
    ensures var s' := if s.pcs[t].WLoop? then WriteStep(s, t) else ReadStep(s, t);
      && |s'.pcs| == |s.pcs| && InOrder(s.readers, s'.readers, t, s'.pcs[t].RBlocked?)
      && InOrder(s.writers, s'.writers, t, s'.pcs[t].WBlocked?)
  {
  }

  lemma NotifyInOrder(s: St, t: int)
    requires ListsOk(s) && Enabled(s, Go(t)) && InRange(s.ring)
    requires s.pcs[t].WNotify? || s.pcs[t].RNotify? || s.pcs[t].CNotify?
    ensures var s' := Advance(s, t);
      && |s'.pcs| == |s.pcs| && !s'.pcs[t].RBlocked? && !s'.pcs[t].WBlocked?
      && InOrder(s.readers, s'.readers, t, false) && InOrder(s.writers, s'.writers, t, false)
  {
    WakesInOrder(s);
  }

  /** So whoever has waited longest on a side is woken first. */
  lemma ServedInOrder(s: St, a: Act)
    requires Valid(s) && Enabled(s, a)
    ensures var s' := Step(s, a);
      && |s'.pcs| == |s.pcs| && InOrder(s.readers, s'.readers, a.t, s'.pcs[a.t].RBlocked?)
      && InOrder(s.writers, s'.writers, a.t, s'.pcs[a.t].WBlocked?)
  {
    if a.Go? && (s.pcs[a.t].WLoop? || s.pcs[a.t].RLoop?) {
      LoopInOrder(s, a.t);
    } else if a.Go? && (s.pcs[a.t].WNotify? || s.pcs[a.t].RNotify? || s.pcs[a.t].CNotify?) {
      NotifyInOrder(s, a.t);
    }
  }
}
