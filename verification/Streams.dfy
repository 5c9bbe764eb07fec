/**
 The bounded byte stream behind a pipe: a ring buffer under a mutex, with blocking readers and writers.
 A call is a program counter that advances one byte at a time; calls of different threads interleave freely.
 */
module Streams {

  // ---------------------------------------------------------------- the ring

  /** `size` is the field the loops use; the constructor allocates at least two bytes whatever it is. */
  datatype Ring = Ring(size: int, data: seq<int>, read: int, write: int)

  function NextIndex(size: int, i: int): int { if i + 1 < size then i + 1 else 0 }

  ghost predicate RingOk(r: Ring) {
    && 0 <= r.size <= |r.data| && 2 <= |r.data|
    && 0 <= r.read && 0 <= r.write
    && (r.size <= 1 ==> r.read == r.write == 0)
    && (r.size >= 2 ==> r.read < r.size && r.write < r.size)
  }

  predicate InRange(r: Ring) { 0 <= r.write < |r.data| && 0 <= r.read < |r.data| }

  function NewRing(size: nat): Ring {
    Ring(size, seq(if size <= 1 then 2 else size, _ => 0), 0, 0)
  }

  predicate Full(r: Ring) { NextIndex(r.size, r.write) == r.read }

  predicate Empty(r: Ring) { r.read == r.write }

  function Push(r: Ring, v: int): Ring
    requires 0 <= r.write < |r.data|
  {
    r.(data := r.data[r.write := v], write := NextIndex(r.size, r.write))
  }

  function Pop(r: Ring): Ring {
    r.(read := NextIndex(r.size, r.read))
  }

  function Count(r: Ring): int { if r.read <= r.write then r.write - r.read else r.size - r.read + r.write }

  /** The bytes held, oldest first. */
  ghost function Held(r: Ring): seq<int>
    requires RingOk(r)
  {
    seq(Count(r), k requires 0 <= k < Count(r) =>
      if r.read + k < r.size then r.data[r.read + k] else r.data[r.read + k - r.size])
  }

  /** The ring never holds more than `size - 1` bytes; it is full exactly then. A size below two holds nothing. */
  lemma RingBounds(r: Ring)
    requires RingOk(r)
    ensures 0 <= |Held(r)| == Count(r) <= (if r.size >= 2 then r.size - 1 else 0)
    ensures Full(r) <==> |Held(r)| == (if r.size >= 2 then r.size - 1 else 0)
    ensures Empty(r) <==> Held(r) == []
  {
  }

  lemma PushHeld(r: Ring, v: int)
    requires RingOk(r) && !Full(r)
    ensures RingOk(Push(r, v)) && !Empty(Push(r, v))
    ensures Held(Push(r, v)) == Held(r) + [v]
  {
    var p := Push(r, v);
    assert Count(p) == Count(r) + 1;
    forall k | 0 <= k < Count(r) ensures Held(p)[k] == Held(r)[k] { }
  }

  lemma PopHeld(r: Ring)
    requires RingOk(r) && !Empty(r)
    ensures RingOk(Pop(r)) && !Full(Pop(r))
    ensures Held(r) == [r.data[r.read]] + Held(Pop(r))
  {
    var p := Pop(r);
    assert Count(p) == Count(r) - 1;
    forall k | 0 <= k < Count(p) ensures Held(p)[k] == Held(r)[k + 1] { }
  }

  // ---------------------------------------------------------------- calls in progress

  /** A byte of the stream's history, with the call (the `turn`-th of its thread) that moved it. */
  datatype Entry = Entry(thread: int, turn: int, val: int)

  /**
   Where a thread is in its current call. Want: about to take the mutex, for the first time or after a wakeup.
   Loop: holds it. Blocked: on a waiting list. Notify: released it and is waking the other side.
   `start` is where the call's bytes begin in the history.
   */
  datatype Pc =
    | Idle
    | WWant(buf: seq<int>, resumed: bool)
    | WLoop(buf: seq<int>, start: int, i: int, written: bool)
    | WBlocked(buf: seq<int>)
    | WNotify(buf: seq<int>, start: int, i: int)
    | RWant(n: int, resumed: bool)
    | RLoop(n: int, start: int, out: seq<int>, got: bool)
    | RBlocked(n: int)
    | RNotify(n: int, start: int, out: seq<int>)
    | CWant
    | CNotify

  /** A finished call: what it moved and where that lies in the history. */
  datatype Call = Call(thread: int, turn: int, write: bool, start: int, moved: seq<int>)

  datatype St = St(
    ring: Ring, closed: bool, owner: int, readers: seq<int>, writers: seq<int>,
    pcs: seq<Pc>, turns: seq<int>, sent: seq<Entry>, got: seq<Entry>, done: seq<Call>)

  const NOBODY: int := -1

  datatype Request = Write(buf: seq<int>) | Read(n: int) | Close

  datatype Act = Begin(t: int, request: Request) | Go(t: int)

  ghost predicate Thread(s: St, t: int) { 0 <= t < |s.pcs| == |s.turns| }

  /** A thread between calls may begin one; a thread in a call advances unless it is blocked or the mutex is taken. */
  ghost predicate Enabled(s: St, a: Act) {
    && Thread(s, a.t)
    && match a
       case Begin(t, q) => s.pcs[t] == Idle && (q.Read? ==> q.n >= 0)
       case Go(t) =>
         && !s.pcs[t].Idle? && !s.pcs[t].WBlocked? && !s.pcs[t].RBlocked?
         && (s.pcs[t].WWant? || s.pcs[t].RWant? || s.pcs[t].CWant? ==> s.owner == NOBODY)
  }

  function Set(s: St, t: int, pc: Pc): St
    requires 0 <= t < |s.pcs|
  {
    s.(pcs := s.pcs[t := pc])
  }

  /** Wake the first thread of a list, which will ask for the mutex again. */
  function WakeReader(s: St): St
    requires s.readers != []
  {
    var u := s.readers[0];
    var s1 := s.(readers := s.readers[1..]);
    if 0 <= u < |s.pcs| && s.pcs[u].RBlocked? then Set(s1, u, RWant(s.pcs[u].n, true)) else s1
  }

  function WakeWriter(s: St): St
    requires s.writers != []
  {
    var u := s.writers[0];
    var s1 := s.(writers := s.writers[1..]);
    if 0 <= u < |s.pcs| && s.pcs[u].WBlocked? then Set(s1, u, WWant(s.pcs[u].buf, true)) else s1
  }

  function Finish(s: St, t: int, write: bool, start: int, moved: seq<int>): St
    requires 0 <= t < |s.pcs| && t < |s.turns|
  {
    Set(s, t, Idle).(turns := s.turns[t := s.turns[t] + 1], done := s.done + [Call(t, s.turns[t], write, start, moved)])
  }

  /** One iteration of the write loop. */
  function WriteStep(s: St, t: int): St
    requires Thread(s, t) && s.pcs[t].WLoop? && InRange(s.ring)
  {
    var p := s.pcs[t];
    if 0 <= p.i < |p.buf| then
      if Full(s.ring) then
        if p.written then Set(s, t, WNotify(p.buf, p.start, p.i)).(owner := NOBODY)
        else Set(s, t, WBlocked(p.buf)).(owner := NOBODY, writers := s.writers + [t])
      else
        Set(s, t, WLoop(p.buf, p.start, p.i + 1, true))
          .(ring := Push(s.ring, p.buf[p.i]), sent := s.sent + [Entry(t, s.turns[t], p.buf[p.i])])
    else Set(s, t, WNotify(p.buf, p.start, p.i)).(owner := NOBODY)
  }

  /** One iteration of the read loop. */
  function ReadStep(s: St, t: int): St
    requires Thread(s, t) && s.pcs[t].RLoop? && InRange(s.ring)
  {
    var p := s.pcs[t];
    if |p.out| < p.n then
      if Empty(s.ring) then
        if p.got || s.closed then Set(s, t, RNotify(p.n, p.start, p.out)).(owner := NOBODY)
        else Set(s, t, RBlocked(p.n)).(owner := NOBODY, readers := s.readers + [t])
      else
        var v := s.ring.data[s.ring.read];
        Set(s, t, RLoop(p.n, p.start, p.out + [v], true))
          .(ring := Pop(s.ring), got := s.got + [Entry(t, s.turns[t], v)])
    else Set(s, t, RNotify(p.n, p.start, p.out)).(owner := NOBODY)
  }

  function Advance(s: St, t: int): St
    requires Enabled(s, Go(t)) && InRange(s.ring)
  {
    match s.pcs[t]
    case WWant(buf, resumed) =>
      if resumed && s.closed then Set(s, t, WNotify(buf, 0, 0))
      else Set(s, t, WLoop(buf, |s.sent|, 0, false)).(owner := t)
    case WLoop(_, _, _, _) => WriteStep(s, t)
    case WNotify(buf, start, i) =>
      if s.readers != [] then WakeReader(s)
      else Finish(s, t, true, start, if 0 <= i <= |buf| then buf[..i] else [])
    case RWant(n, resumed) =>
      if resumed && s.closed then Set(s, t, RNotify(n, 0, []))
      else Set(s, t, RLoop(n, |s.got|, [], false)).(owner := t)
    case RLoop(_, _, _, _) => ReadStep(s, t)
    case RNotify(_, start, out) =>
      if s.writers != [] then WakeWriter(s) else Finish(s, t, false, start, out)
    case CWant => Set(s, t, CNotify).(owner := t, closed := true)
    case CNotify =>
      if s.readers != [] then WakeReader(s)
      else Set(s, t, Idle).(owner := NOBODY, turns := s.turns[t := s.turns[t] + 1])
  }

  function BeginCall(s: St, t: int, q: Request): St
    requires Thread(s, t)
  {
    match q
    case Write(buf) => Set(s, t, WWant(buf, false))
    case Read(n) => Set(s, t, RWant(n, false))
    case Close => Set(s, t, CWant)
  }

  function Step(s: St, a: Act): St
    requires Enabled(s, a) && InRange(s.ring)
  {
    match a
    case Begin(t, q) => BeginCall(s, t, q)
    case Go(t) => Advance(s, t)
  }

  // ---------------------------------------------------------------- history

  ghost function Values(log: seq<Entry>): seq<int> {
    seq(|log|, k requires 0 <= k < |log| => log[k].val)
  }

  lemma ValuesAppend(log: seq<Entry>, e: Entry)
    ensures Values(log + [e]) == Values(log) + [e.val]
  {
  }

  /** Exactly the entries from `start` on, as many as `vals`, belong to this call, in order and without a gap. */
  ghost predicate Chunk(log: seq<Entry>, t: int, turn: int, start: int, vals: seq<int>) {
    && 0 <= start && start + |vals| <= |log|
    && (forall k :: start <= k < start + |vals| ==> log[k] == Entry(t, turn, vals[k - start]))
    && (forall k :: 0 <= k < |log| && log[k].thread == t && log[k].turn == turn ==> start <= k < start + |vals|)
  }

  lemma ChunkOther(log: seq<Entry>, e: Entry, t: int, turn: int, start: int, vals: seq<int>)
    requires Chunk(log, t, turn, start, vals) && (e.thread != t || e.turn != turn)
    ensures Chunk(log + [e], t, turn, start, vals)
  {
  }

  lemma ChunkGrow(log: seq<Entry>, t: int, turn: int, start: int, vals: seq<int>, v: int)
    requires Chunk(log, t, turn, start, vals) && start + |vals| == |log|
    ensures Chunk(log + [Entry(t, turn, v)], t, turn, start, vals + [v])
  {
  }

  /** Nothing in the history belongs to this turn of the thread, or to a later one. */
  ghost predicate Unused(log: seq<Entry>, t: int, turn: int) {
    forall k :: 0 <= k < |log| && log[k].thread == t ==> log[k].turn < turn
  }

  /** Entries of the thread belong to this turn or an earlier one. */
  ghost predicate UpTo(log: seq<Entry>, t: int, turn: int) {
    forall k :: 0 <= k < |log| && log[k].thread == t ==> log[k].turn <= turn
  }

  ghost predicate PcHistory(s: St, t: int)
    requires Thread(s, t)
  {
    var turn := s.turns[t];
    match s.pcs[t]
    case WLoop(buf, start, i, written) =>
      && 0 <= i <= |buf| && start + i == |s.sent| && written == (i > 0)
      && Chunk(s.sent, t, turn, start, buf[..i]) && UpTo(s.sent, t, turn) && Unused(s.got, t, turn)
    case WNotify(buf, start, i) =>
      && 0 <= i <= |buf| && Chunk(s.sent, t, turn, start, buf[..i])
      && UpTo(s.sent, t, turn) && Unused(s.got, t, turn)
    case RLoop(n, start, out, got) =>
      && |out| <= n && start + |out| == |s.got| && got == (out != [])
      && Chunk(s.got, t, turn, start, out) && UpTo(s.got, t, turn) && Unused(s.sent, t, turn)
    case RNotify(n, start, out) =>
      && |out| <= n && Chunk(s.got, t, turn, start, out) && UpTo(s.got, t, turn) && Unused(s.sent, t, turn)
    case RWant(n, _) => n >= 0 && Unused(s.sent, t, turn) && Unused(s.got, t, turn)
    case RBlocked(n) => n >= 0 && Unused(s.sent, t, turn) && Unused(s.got, t, turn)
    case _ => Unused(s.sent, t, turn) && Unused(s.got, t, turn)
  }

  ghost predicate DoneOk(s: St, c: Call) {
    && 0 <= c.thread < |s.turns| && c.turn < s.turns[c.thread]
    && Chunk(if c.write then s.sent else s.got, c.thread, c.turn, c.start, c.moved)
  }

  ghost predicate HistoryOk(s: St) {
    && |s.pcs| == |s.turns|
    && (forall t :: Thread(s, t) ==> PcHistory(s, t))
    && (forall k :: 0 <= k < |s.done| ==> DoneOk(s, s.done[k]))
  }

  // ---------------------------------------------------------------- the mutex and the lists

  predicate Holds(pc: Pc) { pc.WLoop? || pc.RLoop? || pc.CNotify? }

  ghost predicate OwnerOk(s: St) {
    && |s.pcs| == |s.turns|
    && (forall t :: Thread(s, t) ==> (Holds(s.pcs[t]) <==> s.owner == t))
    && (s.owner == NOBODY || 0 <= s.owner < |s.pcs|)
  }

  ghost predicate Distinct(q: seq<int>) { forall i, j :: 0 <= i < j < |q| ==> q[i] != q[j] }

  predicate Waits(pc: Pc, write: bool) { if write then pc.WBlocked? else pc.RBlocked? }

  /** A waiting list holds exactly the threads blocked on it, once each. */
  ghost predicate ListOk(q: seq<int>, pcs: seq<Pc>, write: bool) {
    && Distinct(q)
    && (forall i :: 0 <= i < |q| ==> 0 <= q[i] < |pcs| && Waits(pcs[q[i]], write))
    && (forall t :: 0 <= t < |pcs| && Waits(pcs[t], write) ==> t in q)
  }

  ghost predicate ListsOk(s: St) { ListOk(s.readers, s.pcs, false) && ListOk(s.writers, s.pcs, true) }

  // ---------------------------------------------------------------- wakeups

  /** Has put bytes in, and has not finished waking readers. */
  predicate WakesReaders(pc: Pc) { (pc.WLoop? && pc.written) || pc.WNotify? }

  /** Has taken bytes out, and has not finished waking writers. */
  predicate WakesWriters(pc: Pc) { (pc.RLoop? && pc.got) || pc.RNotify? }

  ghost predicate SomeWakesReaders(s: St) { exists t :: 0 <= t < |s.pcs| && WakesReaders(s.pcs[t]) }

  ghost predicate SomeWakesWriters(s: St) { exists t :: 0 <= t < |s.pcs| && WakesWriters(s.pcs[t]) }

  ghost predicate SomeCloses(s: St) { exists t :: 0 <= t < |s.pcs| && s.pcs[t].CNotify? }

  ghost predicate WakeOk(s: St) {
    && (s.readers != [] && !Empty(s.ring) ==> SomeWakesReaders(s))
    && (s.readers != [] && s.closed ==> SomeCloses(s))
    && (s.writers != [] && !Full(s.ring) ==> SomeWakesWriters(s))
  }

  ghost predicate Valid(s: St) {
    && RingOk(s.ring) && HistoryOk(s) && OwnerOk(s) && ListsOk(s) && WakeOk(s)
    && Values(s.sent) == Values(s.got) + Held(s.ring)
  }
}
