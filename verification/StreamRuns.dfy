/**
 Every interleaving of stream calls keeps the invariant of Streams, and what follows from it.
 */
module StreamRuns {
  import opened Streams

  // ---------------------------------------------------------------- history

  ghost predicate Extends(log: seq<Entry>, log': seq<Entry>, t: int) {
    log' == log || exists e: Entry :: e.thread == t && log' == log + [e]
  }

  ghost predicate Woken(p: Pc, p': Pc) {
    || p' == p
    || (p.RBlocked? && p' == RWant(p.n, true))
    || (p.WBlocked? && p' == WWant(p.buf, true))
  }

  lemma ChunkExtends(log: seq<Entry>, log': seq<Entry>, t: int, u: int, turn: int, start: int, vals: seq<int>)
    requires Extends(log, log', t) && u != t
    requires Chunk(log, u, turn, start, vals)
    ensures Chunk(log', u, turn, start, vals)
  {
    if log' != log {
      var e: Entry :| e.thread == t && log' == log + [e];
      ChunkOther(log, e, u, turn, start, vals);
    }
  }

  lemma UpToExtends(log: seq<Entry>, log': seq<Entry>, t: int, u: int, turn: int)
    requires Extends(log, log', t) && u != t
    ensures Unused(log, u, turn) ==> Unused(log', u, turn)
    ensures UpTo(log, u, turn) ==> UpTo(log', u, turn)
  {
  }

  /** A step of thread `t` leaves another thread's part of the history alone. */
  lemma PcHistoryOther(s: St, s': St, t: int, u: int)
    requires Thread(s, u) && Thread(s', u) && u != t && PcHistory(s, u)
    requires s'.turns[u] == s.turns[u] && Woken(s.pcs[u], s'.pcs[u])
    requires Extends(s.sent, s'.sent, t) && Extends(s.got, s'.got, t)
    requires s.pcs[u].WLoop? ==> s'.sent == s.sent
    requires s.pcs[u].RLoop? ==> s'.got == s.got
    ensures PcHistory(s', u)
  {
    var turn := s.turns[u];
    UpToExtends(s.sent, s'.sent, t, u, turn);
    UpToExtends(s.got, s'.got, t, u, turn);
    match s.pcs[u] {
      case WNotify(buf, start, i) => ChunkExtends(s.sent, s'.sent, t, u, turn, start, buf[..i]);
      case RNotify(n, start, out) => ChunkExtends(s.got, s'.got, t, u, turn, start, out);
      case _ =>
    }
  }

  /** A finished call's bytes stay where they are. */
  lemma DoneKept(s: St, s': St, t: int, c: Call)
    requires 0 <= t < |s.turns| == |s'.turns| && DoneOk(s, c)
    requires forall u :: 0 <= u < |s.turns| ==> s.turns[u] <= s'.turns[u]
    requires Logged(s, s.sent, s'.sent, t) && Logged(s, s.got, s'.got, t)
    ensures DoneOk(s', c)
  {
    if c.write && s'.sent != s.sent {
      var v :| s'.sent == s.sent + [Entry(t, s.turns[t], v)];
      ChunkOther(s.sent, Entry(t, s.turns[t], v), c.thread, c.turn, c.start, c.moved);
    }
    if !c.write && s'.got != s.got {
      var v :| s'.got == s.got + [Entry(t, s.turns[t], v)];
      ChunkOther(s.got, Entry(t, s.turns[t], v), c.thread, c.turn, c.start, c.moved);
    }
  }

  lemma IdleHistory(s: St, t: int)
    requires Thread(s, t) && UpTo(s.sent, t, s.turns[t]) && UpTo(s.got, t, s.turns[t])
    ensures Unused(s.sent, t, s.turns[t] + 1) && Unused(s.got, t, s.turns[t] + 1)
  {
  }

  lemma UnusedChunk(log: seq<Entry>, t: int, turn: int, start: int)
    requires Unused(log, t, turn) && 0 <= start <= |log|
    ensures Chunk(log, t, turn, start, []) && UpTo(log, t, turn)
  {
  }

  lemma WriteOwn(s: St, t: int)
    requires Thread(s, t) && s.pcs[t].WLoop? && PcHistory(s, t) && InRange(s.ring)
    ensures Thread(WriteStep(s, t), t) && PcHistory(WriteStep(s, t), t)
  {
    var p := s.pcs[t];
    if p.i < |p.buf| && !Full(s.ring) {
      var v := p.buf[p.i];
      ChunkGrow(s.sent, t, s.turns[t], p.start, p.buf[..p.i], v);
      assert p.buf[..p.i + 1] == p.buf[..p.i] + [v];
    } else if p.i < |p.buf| && !p.written {
      assert p.buf[..0] == [];
    }
  }

  lemma ReadOwn(s: St, t: int)
    requires Thread(s, t) && s.pcs[t].RLoop? && PcHistory(s, t) && InRange(s.ring)
    ensures Thread(ReadStep(s, t), t) && PcHistory(ReadStep(s, t), t)
  {
    var p := s.pcs[t];
    if |p.out| < p.n && !Empty(s.ring) {
      ChunkGrow(s.got, t, s.turns[t], p.start, p.out, s.ring.data[s.ring.read]);
    }
  }

  lemma WantOwn(s: St, t: int)
    requires Enabled(s, Go(t)) && (s.pcs[t].WWant? || s.pcs[t].RWant? || s.pcs[t].CWant?) && PcHistory(s, t)
    requires InRange(s.ring)
    ensures Thread(Advance(s, t), t) && PcHistory(Advance(s, t), t)
  {
    var turn := s.turns[t];
    if s.pcs[t].WWant? {
      UnusedChunk(s.sent, t, turn, 0);
      UnusedChunk(s.sent, t, turn, |s.sent|);
      assert s.pcs[t].buf[..0] == [];
    } else if s.pcs[t].RWant? {
      UnusedChunk(s.got, t, turn, 0);
      UnusedChunk(s.got, t, turn, |s.got|);
    }
  }

  lemma IdleOwn(s: St, t: int)
    requires Thread(s, t) && s.pcs[t] == Idle && Unused(s.sent, t, s.turns[t]) && Unused(s.got, t, s.turns[t])
    ensures PcHistory(s, t)
  {
  }

  lemma SameOwn(s: St, s': St, t: int)
    requires Thread(s, t) && PcHistory(s, t) && Thread(s', t)
    requires s'.pcs[t] == s.pcs[t] && s'.turns[t] == s.turns[t] && s'.sent == s.sent && s'.got == s.got
    ensures PcHistory(s', t)
  {
  }

  lemma WakeOwn(s: St, t: int)
    requires Thread(s, t) && PcHistory(s, t) && !s.pcs[t].RBlocked? && !s.pcs[t].WBlocked?
    ensures s.readers != [] ==> Thread(WakeReader(s), t) && PcHistory(WakeReader(s), t)
    ensures s.writers != [] ==> Thread(WakeWriter(s), t) && PcHistory(WakeWriter(s), t)
  {
    if s.readers != [] { SameOwn(s, WakeReader(s), t); }
    if s.writers != [] { SameOwn(s, WakeWriter(s), t); }
  }

  lemma WriterNotifyOwn(s: St, t: int)
    requires Enabled(s, Go(t)) && s.pcs[t].WNotify? && PcHistory(s, t) && InRange(s.ring)
    ensures Thread(Advance(s, t), t) && PcHistory(Advance(s, t), t)
  {
    if s.readers == [] {
      IdleHistory(s, t);
      IdleOwn(Advance(s, t), t);
    } else {
      WakeOwn(s, t);
    }
  }

  lemma ReaderNotifyOwn(s: St, t: int)
    requires Enabled(s, Go(t)) && s.pcs[t].RNotify? && PcHistory(s, t) && InRange(s.ring)
    ensures Thread(Advance(s, t), t) && PcHistory(Advance(s, t), t)
  {
    if s.writers == [] {
      IdleHistory(s, t);
      IdleOwn(Advance(s, t), t);
    } else {
      WakeOwn(s, t);
    }
  }

  lemma CloserNotifyOwn(s: St, t: int)
    requires Enabled(s, Go(t)) && s.pcs[t].CNotify? && PcHistory(s, t) && InRange(s.ring)
    ensures Thread(Advance(s, t), t) && PcHistory(Advance(s, t), t)
  {
    if s.readers == [] {
      IdleHistory(s, t);
      IdleOwn(Advance(s, t), t);
    } else {
      WakeOwn(s, t);
    }
  }

  /** The stepping thread's own part. */
  lemma OwnHistory(s: St, a: Act)
    requires Enabled(s, a) && PcHistory(s, a.t) && InRange(s.ring)
    ensures Thread(Step(s, a), a.t) && PcHistory(Step(s, a), a.t)
  {
    if a.Go? {
      match s.pcs[a.t] {
        case WLoop(_, _, _, _) => WriteOwn(s, a.t);
        case RLoop(_, _, _, _) => ReadOwn(s, a.t);
        case WWant(_, _) => WantOwn(s, a.t);
        case RWant(_, _) => WantOwn(s, a.t);
        case CWant => WantOwn(s, a.t);
        case WNotify(_, _, _) => WriterNotifyOwn(s, a.t);
        case RNotify(_, _, _) => ReaderNotifyOwn(s, a.t);
        case CNotify => CloserNotifyOwn(s, a.t);
      }
    }
  }

  ghost predicate Logged(s: St, log: seq<Entry>, log': seq<Entry>, t: int)
    requires 0 <= t < |s.turns|
  {
    log' == log || (s.owner == t && exists v :: log' == log + [Entry(t, s.turns[t], v)])
  }

  ghost predicate Moved(s: St, s': St, t: int) {
    && |s.pcs| == |s'.pcs| == |s'.turns| == |s.turns| && 0 <= t < |s.pcs|
    && (forall u :: Thread(s, u) && u != t ==> s'.turns[u] == s.turns[u] && Woken(s.pcs[u], s'.pcs[u]))
    && s.turns[t] <= s'.turns[t]
    && Logged(s, s.sent, s'.sent, t) && Logged(s, s.got, s'.got, t)
    && (s'.done == s.done || exists c :: s'.done == s.done + [c] && DoneOk(s', c))
  }

  lemma FinishDone(s: St, t: int)
    requires Enabled(s, Go(t)) && PcHistory(s, t) && InRange(s.ring)
    requires (s.pcs[t].WNotify? && s.readers == []) || (s.pcs[t].RNotify? && s.writers == [])
    ensures Moved(s, Advance(s, t), t)
  {
    var p, s' := s.pcs[t], Advance(s, t);
    var c := Call(t, s.turns[t], p.WNotify?, p.start, if p.WNotify? then p.buf[..p.i] else p.out);
    assert s'.done == s.done + [c] && DoneOk(s', c);
  }

  lemma WriteMoved(s: St, t: int)
    requires Thread(s, t) && s.pcs[t].WLoop? && InRange(s.ring) && s.owner == t
    ensures Moved(s, WriteStep(s, t), t)
  {
  }

  lemma ReadMoved(s: St, t: int)
    requires Thread(s, t) && s.pcs[t].RLoop? && InRange(s.ring) && s.owner == t
    ensures Moved(s, ReadStep(s, t), t)
  {
  }

  lemma WakeMoved(s: St, t: int)
    requires Thread(s, t) && !s.pcs[t].RBlocked? && !s.pcs[t].WBlocked?
    ensures s.readers != [] ==> Moved(s, WakeReader(s), t)
    ensures s.writers != [] ==> Moved(s, WakeWriter(s), t)
  {
  }

  lemma StepMoved(s: St, a: Act)
    requires Enabled(s, a) && PcHistory(s, a.t) && InRange(s.ring) && (Holds(s.pcs[a.t]) ==> s.owner == a.t)
    ensures Moved(s, Step(s, a), a.t)
  {
    if a.Go? {
      var t := a.t;
      match s.pcs[t] {
        case WLoop(_, _, _, _) => WriteMoved(s, t);
        case RLoop(_, _, _, _) => ReadMoved(s, t);
        case WNotify(_, _, _) => if s.readers == [] { FinishDone(s, t); } else { WakeMoved(s, t); }
        case RNotify(_, _, _) => if s.writers == [] { FinishDone(s, t); } else { WakeMoved(s, t); }
        case CNotify => WakeMoved(s, t);
        case _ =>
      }
    }
  }

  lemma HistoryStep(s: St, a: Act)
    requires HistoryOk(s) && OwnerOk(s) && InRange(s.ring) && Enabled(s, a)
    ensures HistoryOk(Step(s, a))
  {
    var t := a.t;
    assert PcHistory(s, t);
    StepMoved(s, a);
    OwnHistory(s, a);
    HistoryMoved(s, Step(s, a), t);
  }

  lemma HistoryMoved(s: St, s': St, t: int)
    requires HistoryOk(s) && OwnerOk(s) && Moved(s, s', t) && PcHistory(s', t)
    ensures HistoryOk(s')
  {
    forall u | Thread(s', u) ensures PcHistory(s', u) {
      if u != t {
        assert Thread(s, u) && PcHistory(s, u);
        assert Holds(s.pcs[u]) ==> s.owner == u;
        PcHistoryOther(s, s', t, u);
      }
    }
    forall k | 0 <= k < |s'.done| ensures DoneOk(s', s'.done[k]) {
      if k < |s.done| {
        assert DoneOk(s, s.done[k]);
        DoneKept(s, s', t, s.done[k]);
      }
    }
  }

  // ---------------------------------------------------------------- conservation

  lemma ConserveStep(s: St, a: Act)
    requires RingOk(s.ring) && Enabled(s, a) && Values(s.sent) == Values(s.got) + Held(s.ring)
    ensures RingOk(Step(s, a).ring) && Values(Step(s, a).sent) == Values(Step(s, a).got) + Held(Step(s, a).ring)
  {
    if a.Go? && s.pcs[a.t].WLoop? {
      WriteConserves(s, a.t);
    } else if a.Go? && s.pcs[a.t].RLoop? {
      ReadConserves(s, a.t);
    } else {
      assert Step(s, a).ring == s.ring && Step(s, a).sent == s.sent && Step(s, a).got == s.got;
    }
  }

  lemma WriteConserves(s: St, t: int)
    requires RingOk(s.ring) && Thread(s, t) && s.pcs[t].WLoop? && Values(s.sent) == Values(s.got) + Held(s.ring)
    ensures var s' := WriteStep(s, t); RingOk(s'.ring) && Values(s'.sent) == Values(s'.got) + Held(s'.ring)
  {
    var p := s.pcs[t];
    if 0 <= p.i < |p.buf| && !Full(s.ring) {
      PushHeld(s.ring, p.buf[p.i]);
      ValuesAppend(s.sent, Entry(t, s.turns[t], p.buf[p.i]));
      assert Values(s.got) + Held(s.ring) + [p.buf[p.i]] == Values(s.got) + (Held(s.ring) + [p.buf[p.i]]);
    }
  }

  lemma ReadConserves(s: St, t: int)
    requires RingOk(s.ring) && Thread(s, t) && s.pcs[t].RLoop? && Values(s.sent) == Values(s.got) + Held(s.ring)
    ensures var s' := ReadStep(s, t); RingOk(s'.ring) && Values(s'.sent) == Values(s'.got) + Held(s'.ring)
  {
    var p := s.pcs[t];
    if |p.out| < p.n && !Empty(s.ring) {
      var v := s.ring.data[s.ring.read];
      PopHeld(s.ring);
      ValuesAppend(s.got, Entry(t, s.turns[t], v));
      assert Values(s.got) + ([v] + Held(Pop(s.ring))) == Values(s.got) + [v] + Held(Pop(s.ring));
    }
  }

  // ---------------------------------------------------------------- mutex and lists

  lemma WakeOwner(s: St)
    requires OwnerOk(s)
    ensures s.readers != [] ==> OwnerOk(WakeReader(s))
    ensures s.writers != [] ==> OwnerOk(WakeWriter(s))
  {
  }

  lemma WriteOwner(s: St, t: int)
    requires OwnerOk(s) && InRange(s.ring) && Thread(s, t) && s.pcs[t].WLoop? && s.owner == t
    ensures OwnerOk(WriteStep(s, t))
  {
  }

  lemma ReadOwner(s: St, t: int)
    requires OwnerOk(s) && InRange(s.ring) && Thread(s, t) && s.pcs[t].RLoop? && s.owner == t
    ensures OwnerOk(ReadStep(s, t))
  {
  }

  lemma SetOwner(s: St, t: int, pc: Pc, owner: int)
    requires OwnerOk(s) && Thread(s, t) && (s.owner == NOBODY || s.owner == t)
    requires owner == if Holds(pc) then t else NOBODY
    ensures OwnerOk(Set(s, t, pc).(owner := owner))
  {
    forall u | Thread(s, u) ensures Holds(Set(s, t, pc).pcs[u]) <==> owner == u {
      assert Holds(s.pcs[u]) <==> s.owner == u;
    }
  }

  lemma KeepOwner(s: St, t: int, pc: Pc)
    requires OwnerOk(s) && Thread(s, t) && !Holds(s.pcs[t]) && !Holds(pc)
    ensures OwnerOk(Set(s, t, pc))
  {
  }

  lemma OwnerSame(s: St, s': St)
    requires OwnerOk(s) && s'.pcs == s.pcs && |s'.turns| == |s.turns| && s'.owner == s.owner
    ensures OwnerOk(s')
  {
  }

  lemma WantOwner(s: St, t: int)
    requires OwnerOk(s) && InRange(s.ring) && Enabled(s, Go(t))
    requires (s.pcs[t].WWant? || s.pcs[t].RWant? || s.pcs[t].CWant?)
    ensures OwnerOk(Advance(s, t))
  {
    var s' := Advance(s, t);
    SetOwner(s, t, s'.pcs[t], s'.owner);
    OwnerSame(Set(s, t, s'.pcs[t]).(owner := s'.owner), s');
  }

  lemma NotifyOwner(s: St, t: int)
    requires OwnerOk(s) && InRange(s.ring) && Enabled(s, Go(t))
    requires (s.pcs[t].WNotify? || s.pcs[t].RNotify? || s.pcs[t].CNotify?)
    ensures OwnerOk(Advance(s, t))
  {
    if if s.pcs[t].RNotify? then s.writers != [] else s.readers != [] {
      WakeOwner(s);
    } else if s.pcs[t].CNotify? {
      assert s.owner == t;
      SetOwner(s, t, Idle, NOBODY);
      OwnerSame(Set(s, t, Idle).(owner := NOBODY), Advance(s, t));
    } else {
      KeepOwner(s, t, Idle);
      OwnerSame(Set(s, t, Idle), Advance(s, t));
    }
  }

  lemma OwnerStep(s: St, a: Act)
    requires OwnerOk(s) && InRange(s.ring) && Enabled(s, a)
    ensures OwnerOk(Step(s, a))
  {
    match a {
      case Begin(t, q) => KeepOwner(s, t, BeginCall(s, t, q).pcs[t]);
      case Go(t) =>
        assert Holds(s.pcs[t]) <==> s.owner == t;
        if s.pcs[t].WLoop? {
          WriteOwner(s, t);
        } else if s.pcs[t].RLoop? {
          ReadOwner(s, t);
        } else if s.pcs[t].WWant? || s.pcs[t].RWant? || s.pcs[t].CWant? {
          WantOwner(s, t);
        } else {
          NotifyOwner(s, t);
        }
    }
  }

  lemma ListSame(q: seq<int>, pcs: seq<Pc>, write: bool, t: int, pc: Pc)
    requires ListOk(q, pcs, write) && 0 <= t < |pcs| && !Waits(pcs[t], write) && !Waits(pc, write)
    ensures ListOk(q, pcs[t := pc], write)
  {
  }

  lemma ListJoin(q: seq<int>, pcs: seq<Pc>, write: bool, t: int, pc: Pc)
    requires ListOk(q, pcs, write) && 0 <= t < |pcs| && !Waits(pcs[t], write) && Waits(pc, write)
    ensures ListOk(q + [t], pcs[t := pc], write)
  {
  }

  lemma ListLeave(q: seq<int>, pcs: seq<Pc>, write: bool, pc: Pc)
    requires ListOk(q, pcs, write) && q != [] && !Waits(pc, write)
    ensures 0 <= q[0] < |pcs| && ListOk(q[1..], pcs[q[0] := pc], write)
  {
    forall t | 0 <= t < |pcs| && Waits(pcs[q[0] := pc][t], write) ensures t in q[1..] {
      assert t in q && t != q[0];
    }
  }

  lemma WakeLists(s: St)
    requires ListsOk(s)
    ensures s.readers != [] ==> ListsOk(WakeReader(s))
    ensures s.writers != [] ==> ListsOk(WakeWriter(s))
  {
    if s.readers != [] {
      var u := s.readers[0];
      ListLeave(s.readers, s.pcs, false, RWant(s.pcs[u].n, true));
      ListSame(s.writers, s.pcs, true, u, RWant(s.pcs[u].n, true));
    }
    if s.writers != [] {
      var u := s.writers[0];
      ListLeave(s.writers, s.pcs, true, WWant(s.pcs[u].buf, true));
      ListSame(s.readers, s.pcs, false, u, WWant(s.pcs[u].buf, true));
    }
  }

  /** Only the stepping thread's place changed, and it joined a list exactly if it blocked. */
  lemma ListsOwn(s: St, s': St, t: int)
    requires ListsOk(s) && 0 <= t < |s.pcs| == |s'.pcs| && s'.pcs == s.pcs[t := s'.pcs[t]]
    requires !s.pcs[t].RBlocked? && !s.pcs[t].WBlocked?
    requires s'.readers == if s'.pcs[t].RBlocked? then s.readers + [t] else s.readers
    requires s'.writers == if s'.pcs[t].WBlocked? then s.writers + [t] else s.writers
    ensures ListsOk(s')
  {
    if s'.pcs[t].RBlocked? {
      ListJoin(s.readers, s.pcs, false, t, s'.pcs[t]);
    } else {
      ListSame(s.readers, s.pcs, false, t, s'.pcs[t]);
    }
    if s'.pcs[t].WBlocked? {
      ListJoin(s.writers, s.pcs, true, t, s'.pcs[t]);
    } else {
      ListSame(s.writers, s.pcs, true, t, s'.pcs[t]);
    }
  }

  lemma WriteLists(s: St, t: int)
    requires ListsOk(s) && InRange(s.ring) && Thread(s, t) && s.pcs[t].WLoop?
    ensures ListsOk(WriteStep(s, t))
  {
    ListsOwn(s, WriteStep(s, t), t);
  }

  lemma ReadLists(s: St, t: int)
    requires ListsOk(s) && InRange(s.ring) && Thread(s, t) && s.pcs[t].RLoop?
    ensures ListsOk(ReadStep(s, t))
  {
    ListsOwn(s, ReadStep(s, t), t);
  }

  lemma WantLists(s: St, t: int)
    requires ListsOk(s) && InRange(s.ring) && Enabled(s, Go(t))
    requires (s.pcs[t].WWant? || s.pcs[t].RWant? || s.pcs[t].CWant?)
    ensures ListsOk(Advance(s, t))
  {
    ListsOwn(s, Advance(s, t), t);
  }

  lemma NotifyLists(s: St, t: int)
    requires ListsOk(s) && InRange(s.ring) && Enabled(s, Go(t))
    requires (s.pcs[t].WNotify? || s.pcs[t].RNotify? || s.pcs[t].CNotify?)
    ensures ListsOk(Advance(s, t))
  {
    if if s.pcs[t].RNotify? then s.writers != [] else s.readers != [] {
      WakeLists(s);
    } else {
      ListsOwn(s, Advance(s, t), t);
    }
  }

  lemma ListsStep(s: St, a: Act)
    requires ListsOk(s) && InRange(s.ring) && Enabled(s, a)
    ensures ListsOk(Step(s, a))
  {
    match a {
      case Begin(t, q) => ListsOwn(s, BeginCall(s, t, q), t);
      case Go(t) =>
        if s.pcs[t].WLoop? {
          WriteLists(s, t);
        } else if s.pcs[t].RLoop? {
          ReadLists(s, t);
        } else if s.pcs[t].WWant? || s.pcs[t].RWant? || s.pcs[t].CWant? {
          WantLists(s, t);
        } else {
          NotifyLists(s, t);
        }
    }
  }

  // ---------------------------------------------------------------- wakeups

  /** Threads that are busy waking others stay so while somebody else steps. */
  lemma WakersKept(s: St, s': St, t: int)
    requires Moved(s, s', t)
    ensures (exists u :: 0 <= u < |s.pcs| && u != t && WakesReaders(s.pcs[u])) ==> SomeWakesReaders(s')
    ensures (exists u :: 0 <= u < |s.pcs| && u != t && WakesWriters(s.pcs[u])) ==> SomeWakesWriters(s')
    ensures (exists u :: 0 <= u < |s.pcs| && u != t && s.pcs[u].CNotify?) ==> SomeCloses(s')
    ensures WakesReaders(s'.pcs[t]) ==> SomeWakesReaders(s')
    ensures WakesWriters(s'.pcs[t]) ==> SomeWakesWriters(s')
    ensures s'.pcs[t].CNotify? ==> SomeCloses(s')
  {
    forall u | 0 <= u < |s.pcs| && u != t && (WakesReaders(s.pcs[u]) || WakesWriters(s.pcs[u]) || s.pcs[u].CNotify?)
      ensures s'.pcs[u] == s.pcs[u]
    {
      assert Thread(s, u) && Woken(s.pcs[u], s'.pcs[u]);
    }
  }

  /** A thread stops waking a side only when nobody of that side is left waiting. */
  lemma WakeMove(s: St, s': St, t: int)
    requires Moved(s, s', t) && WakeOk(s)
    requires WakesReaders(s.pcs[t]) ==> WakesReaders(s'.pcs[t]) || s'.readers == []
    requires WakesWriters(s.pcs[t]) ==> WakesWriters(s'.pcs[t]) || s'.writers == []
    requires s.pcs[t].CNotify? ==> s'.pcs[t].CNotify? || s'.readers == []
    requires s'.readers != [] ==> s.readers != [] || (Empty(s'.ring) && !s'.closed)
    requires s'.writers != [] ==> s.writers != [] || Full(s'.ring)
    requires !Empty(s'.ring) ==> !Empty(s.ring) || WakesReaders(s'.pcs[t])
    requires !Full(s'.ring) ==> !Full(s.ring) || WakesWriters(s'.pcs[t])
    requires s'.closed ==> s.closed || s'.pcs[t].CNotify?
    ensures WakeOk(s')
  {
    WakersKept(s, s', t);
  }

  lemma WriteWakes(s: St, t: int)
    requires RingOk(s.ring) && Thread(s, t) && s.pcs[t].WLoop? && s.owner == t && PcHistory(s, t) && WakeOk(s)
    ensures WakeOk(WriteStep(s, t))
  {
    var s', p := WriteStep(s, t), s.pcs[t];
    WriteMoved(s, t);
    WakeMove(s, s', t);
  }

  /** A reader that finds the ring closed has not been left waiting: it never joins the list then. */
  lemma ReadWakes(s: St, t: int)
    requires RingOk(s.ring) && Thread(s, t) && s.pcs[t].RLoop? && s.owner == t && PcHistory(s, t) && WakeOk(s)
    ensures WakeOk(ReadStep(s, t))
  {
    var s', p := ReadStep(s, t), s.pcs[t];
    ReadMoved(s, t);
    if |p.out| < p.n && !Empty(s.ring) { PopHeld(s.ring); }
    WakeMove(s, s', t);
  }

  lemma NotifyWakes(s: St, t: int)
    requires Enabled(s, Go(t)) && InRange(s.ring) && Moved(s, Advance(s, t), t) && WakeOk(s)
    requires s.pcs[t].WNotify? || s.pcs[t].RNotify? || s.pcs[t].CNotify?
    ensures WakeOk(Advance(s, t))
  {
    WakeMove(s, Advance(s, t), t);
  }

  lemma WantWakes(s: St, t: int)
    requires Enabled(s, Go(t)) && InRange(s.ring) && Moved(s, Advance(s, t), t) && WakeOk(s)
    requires s.pcs[t].WWant? || s.pcs[t].RWant? || s.pcs[t].CWant?
    ensures WakeOk(Advance(s, t))
  {
    WakeMove(s, Advance(s, t), t);
  }

  lemma BeginWakes(s: St, t: int, q: Request)
    requires Enabled(s, Begin(t, q)) && Moved(s, BeginCall(s, t, q), t) && WakeOk(s)
    ensures WakeOk(BeginCall(s, t, q))
  {
    WakeMove(s, BeginCall(s, t, q), t);
  }

  lemma WakeStep(s: St, a: Act)
    requires RingOk(s.ring) && HistoryOk(s) && OwnerOk(s) && WakeOk(s) && Enabled(s, a)
    ensures WakeOk(Step(s, a))
  {
    assert PcHistory(s, a.t) && (Holds(s.pcs[a.t]) ==> s.owner == a.t);
    StepMoved(s, a);
    match a {
      case Begin(t, q) => BeginWakes(s, t, q);
      case Go(t) =>
        if s.pcs[t].WLoop? {
          WriteWakes(s, t);
        } else if s.pcs[t].RLoop? {
          ReadWakes(s, t);
        } else if s.pcs[t].WWant? || s.pcs[t].RWant? || s.pcs[t].CWant? {
          WantWakes(s, t);
        } else {
          NotifyWakes(s, t);
        }
    }
  }

  // ---------------------------------------------------------------- every run

  lemma StepValid(s: St, a: Act)
    requires Valid(s) && Enabled(s, a)
    ensures Valid(Step(s, a))
  {
    ConserveStep(s, a);
    HistoryStep(s, a);
    OwnerStep(s, a);
    ListsStep(s, a);
    WakeStep(s, a);
  }

  ghost predicate IsRun(s: St, acts: seq<Act>)
    decreases |acts|
  {
    acts == [] || (Enabled(s, acts[0]) && InRange(s.ring) && IsRun(Step(s, acts[0]), acts[1..]))
  }

  ghost function After(s: St, acts: seq<Act>): St
    requires IsRun(s, acts)
    decreases |acts|
  {
    if acts == [] then s else After(Step(s, acts[0]), acts[1..])
  }

  /** A new stream of any size, and `n` threads that have made no call. */
  function Start(size: nat, n: nat): St {
    St(NewRing(size), false, NOBODY, [], [], seq(n, _ => Idle), seq(n, _ => 0), [], [], [])
  }

  lemma StartValid(size: nat, n: nat)
    ensures Valid(Start(size, n))
  {
  }

  lemma {:induction false} RunValid(s: St, acts: seq<Act>)
    requires Valid(s) && IsRun(s, acts)
    ensures Valid(After(s, acts)) && After(s, acts).ring.size == s.ring.size
    decreases |acts|
  {
    if acts != [] {
      StepValid(s, acts[0]);
      SizeKept(s, acts[0]);
      RunValid(Step(s, acts[0]), acts[1..]);
    }
  }

  lemma SizeKept(s: St, a: Act)
    requires Enabled(s, a) && InRange(s.ring)
    ensures Step(s, a).ring.size == s.ring.size
  {
  }

  /** The guard `InRange` of a run costs nothing: a reachable state meets it. */
  lemma {:induction false} ReachableInRange(size: nat, n: nat, acts: seq<Act>)
    requires IsRun(Start(size, n), acts)
    ensures InRange(After(Start(size, n), acts).ring)
  {
    StartValid(size, n);
    RunValid(Start(size, n), acts);
  }

  /**
   Over every interleaving, the bytes accepted by writes are the bytes delivered by reads followed by the bytes
   held, in order, and at most `size - 1` bytes are held.
   */
  lemma {:induction false} EveryRunConserves(size: nat, n: nat, acts: seq<Act>)
    requires IsRun(Start(size, n), acts)
    ensures var s := After(Start(size, n), acts);
      && RingOk(s.ring) && Values(s.sent) == Values(s.got) + Held(s.ring)
      && |Held(s.ring)| <= (if size >= 2 then size - 1 else 0)
  {
    StartValid(size, n);
    RunValid(Start(size, n), acts);
    RingBounds(After(Start(size, n), acts).ring);
  }

  /** Every finished call moved one contiguous piece of the stream, and a blocked call has moved nothing yet. */
  lemma {:induction false} EveryRunContiguous(size: nat, n: nat, acts: seq<Act>)
    requires IsRun(Start(size, n), acts)
    ensures var s := After(Start(size, n), acts);
      && (forall k :: 0 <= k < |s.done| ==>
            var c := s.done[k];
            Chunk(if c.write then s.sent else s.got, c.thread, c.turn, c.start, c.moved))
      && (forall t :: Thread(s, t) && (s.pcs[t].RBlocked? || s.pcs[t].WBlocked?) ==>
            Unused(s.sent, t, s.turns[t]) && Unused(s.got, t, s.turns[t]))
  {
    StartValid(size, n);
    RunValid(Start(size, n), acts);
    var s := After(Start(size, n), acts);
    forall k | 0 <= k < |s.done|
      ensures var c := s.done[k]; Chunk(if c.write then s.sent else s.got, c.thread, c.turn, c.start, c.moved)
    {
      assert DoneOk(s, s.done[k]);
    }
    forall t | Thread(s, t) && (s.pcs[t].RBlocked? || s.pcs[t].WBlocked?)
      ensures Unused(s.sent, t, s.turns[t]) && Unused(s.got, t, s.turns[t])
    {
      assert PcHistory(s, t);
    }
  }

  ghost predicate Quiet(s: St) {
    forall t :: 0 <= t < |s.pcs| ==> s.pcs[t].Idle? || s.pcs[t].RBlocked? || s.pcs[t].WBlocked?
  }

  /**
   No wakeup is lost: when every thread is idle or blocked, a blocked reader faces an empty open stream and a
   blocked writer a full one, and the mutex is free.
   */
  lemma {:induction false} NoLostWakeup(size: nat, n: nat, acts: seq<Act>, t: int)
    requires IsRun(Start(size, n), acts)
    requires var s := After(Start(size, n), acts); Quiet(s) && 0 <= t < |s.pcs|
    ensures var s := After(Start(size, n), acts);
      && RingOk(s.ring) && s.owner == NOBODY
      && (s.pcs[t].RBlocked? ==> Held(s.ring) == [] && !s.closed)
      && (s.pcs[t].WBlocked? ==> |Held(s.ring)| == (if size >= 2 then size - 1 else 0))
  {
    StartValid(size, n);
    RunValid(Start(size, n), acts);
    var s := After(Start(size, n), acts);
    RingBounds(s.ring);
    QuietState(s, t);
  }

  lemma QuietState(s: St, t: int)
    requires RingOk(s.ring) && OwnerOk(s) && ListsOk(s) && WakeOk(s) && Quiet(s) && 0 <= t < |s.pcs|
    ensures s.owner == NOBODY
    ensures s.pcs[t].RBlocked? ==> Empty(s.ring) && !s.closed
    ensures s.pcs[t].WBlocked? ==> Full(s.ring)
  {
    assert s.owner == NOBODY || (Thread(s, s.owner) && Holds(s.pcs[s.owner]));
    assert Waits(s.pcs[t], false) ==> t in s.readers;
    assert Waits(s.pcs[t], true) ==> t in s.writers;
  }
}
