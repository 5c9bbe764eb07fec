/**
 Every run of open, close, pipe, dup, dup2, fork and process destruction.
 */
module DescriptorRuns {
  import opened Descriptors

  datatype Op =
    | DoOpen(pid: int, id: int)
    | DoClose(pid: int, fd: int)
    | DoPipe(pid: int)
    | DoDup(pid: int, fd: int)
    | DoDup2(pid: int, fd: int, to: int)
    | DoFork(pid: int)
    | DoDestroy(pid: int)

  /** The process exists, and a descriptor number is not past the end of its table (which is not checked). */
  ghost predicate Enabled(s: Sys, op: Op) {
    && Live(s, op.pid)
    && (op.DoClose? || op.DoDup? || op.DoDup2? ==> InTable(s, op.pid, op.fd))
    && (op.DoDup2? ==> 0 <= op.to && InTable(s, op.pid, op.to))
  }

  function Step(s: Sys, op: Op): Sys
    requires Enabled(s, op)
  {
    match op
    case DoOpen(pid, id) => Open(s, pid, id).0
    case DoClose(pid, fd) => Close(s, pid, fd).0
    case DoPipe(pid) => Pipe(s, pid).0
    case DoDup(pid, fd) => Dup(s, pid, fd).0
    case DoDup2(pid, fd, to) => Dup2(s, pid, fd, to).0
    case DoFork(pid) => Fork(s, pid).0
    case DoDestroy(pid) => Destroy(s, pid)
  }

  ghost predicate IsRun(s: Sys, ops: seq<Op>)
    decreases |ops|
  {
    ops == [] || (Enabled(s, ops[0]) && IsRun(Step(s, ops[0]), ops[1..]))
  }

  ghost function After(s: Sys, ops: seq<Op>): Sys
    requires IsRun(s, ops)
    decreases |ops|
  {
    if ops == [] then s else After(Step(s, ops[0]), ops[1..])
  }

  /** One process with an empty table of `max` entries. */
  function Boot(max: nat): Sys { Sys([NoSlots(max)], [], []) }

  lemma StepValid(s: Sys, op: Op)
    requires Valid(s) && Enabled(s, op)
    ensures Valid(Step(s, op))
  {
    match op
    case DoOpen(pid, id) => OpenValid(s, pid, id);
    case DoClose(pid, fd) => CloseValid(s, pid, fd);
    case DoPipe(pid) => PipeValid(s, pid);
    case DoDup(pid, fd) => DupValid(s, pid, fd);
    case DoDup2(pid, fd, to) => Dup2Valid(s, pid, fd, to);
    case DoFork(pid) => ForkValid(s, pid);
    case DoDestroy(pid) => DestroyValid(s, pid);
  }

  lemma BootValid(max: nat)
    ensures Valid(Boot(max))
  {
    assert Boot(max).tables[1..] == [];
    assert forall d :: Holds(d) !in multiset(NoSlots(max));
  }

  lemma {:induction false} RunValid(s: Sys, ops: seq<Op>)
    requires Valid(s) && IsRun(s, ops)
    ensures Valid(After(s, ops))
    decreases |ops|
  {
    if ops != [] {
      StepValid(s, ops[0]);
      RunValid(Step(s, ops[0]), ops[1..]);
    }
  }

  /** How many slots, over all processes, hold descriptor `d`. */
  ghost function Slots(s: Sys, d: int): nat { All(s.tables)[Holds(d)] }

  /**
   In every reachable state a descriptor's strong count is the number of slots that hold it, over all processes;
   its handle has been closed once if that is none and never otherwise; a pipe is marked closed exactly when no
   slot holds its write end, and its stream is deleted, once, exactly when no slot holds either end.
   */
  lemma {:induction false} EveryRunCounts(max: nat, ops: seq<Op>)
    requires IsRun(Boot(max), ops)
    ensures var s := After(Boot(max), ops);
      && (forall d :: 0 <= d < |s.descs| ==>
            && s.descs[d].strong == Slots(s, d)
            && s.descs[d].closes == (if Slots(s, d) == 0 then 1 else 0))
      && (forall i :: 0 <= i < |s.streams| ==>
            && (s.streams[i].closed <==> Slots(s, s.streams[i].writer) == 0)
            && (s.streams[i].deletes == if Slots(s, s.streams[i].writer) == 0 && Slots(s, s.streams[i].reader) == 0
                then 1 else 0))
  {
    BootValid(max);
    RunValid(Boot(max), ops);
    var s := After(Boot(max), ops);
    forall d | 0 <= d < |s.descs|
      ensures s.descs[d].strong == Slots(s, d) && s.descs[d].closes == (if Slots(s, d) == 0 then 1 else 0)
    {
      assert DescriptorOk(All(s.tables), s, d);
    }
    forall i | 0 <= i < |s.streams|
      ensures s.streams[i].closed <==> Slots(s, s.streams[i].writer) == 0
      ensures s.streams[i].deletes == if Slots(s, s.streams[i].writer) == 0 && Slots(s, s.streams[i].reader) == 0
          then 1 else 0
    {
      assert StreamOk(s, i);
      assert DescriptorOk(All(s.tables), s, s.streams[i].writer) && DescriptorOk(All(s.tables), s, s.streams[i].reader);
    }
  }

  // ---------------------------------------------------------------- descriptors never come back

  ghost predicate DescKept(p: seq<Descriptor>, q: seq<Descriptor>, d: int)
    requires 0 <= d < |p| <= |q|
  {
    q[d].handle == p[d].handle && p[d].closes <= q[d].closes
  }

  ghost predicate StreamKept(p: seq<Stream>, q: seq<Stream>, i: int)
    requires 0 <= i < |p| <= |q|
  {
    q[i].reader == p[i].reader && q[i].writer == p[i].writer && (p[i].closed ==> q[i].closed)
  }

  /** Descriptors and streams keep their identity; what was closed stays closed. */
  ghost predicate Later(s: Sys, s': Sys) {
    && |s.descs| <= |s'.descs| && |s.streams| <= |s'.streams|
    && (forall d :: 0 <= d < |s.descs| ==> DescKept(s.descs, s'.descs, d))
    && (forall i :: 0 <= i < |s.streams| ==> StreamKept(s.streams, s'.streams, i))
  }

  lemma LaterTrans(a: Sys, b: Sys, c: Sys)
    requires Later(a, b) && Later(b, c)
    ensures Later(a, c)
  {
    forall d | 0 <= d < |a.descs|
      ensures DescKept(a.descs, c.descs, d)
    {
      assert DescKept(a.descs, b.descs, d) && DescKept(b.descs, c.descs, d);
    }
    forall i | 0 <= i < |a.streams|
      ensures StreamKept(a.streams, c.streams, i)
    {
      assert StreamKept(a.streams, b.streams, i) && StreamKept(b.streams, c.streams, i);
    }
  }

  lemma ResetLater(s: Sys, d: int)
    ensures Later(s, Reset(s, d))
  {
  }

  lemma {:induction false} GrabFromLater(s: Sys, t: Table, n: nat)
    requires n <= |t|
    ensures Later(s, GrabFrom(s, t, n))
    decreases |t| - n
  {
    if n < |t| {
      var s1 := if t[n].Holds? then Grab(s, t[n].desc) else s;
      GrabFromLater(s1, t, n + 1);
      LaterTrans(s, s1, GrabFrom(s, t, n));
    }
  }

  lemma {:induction false} ResetFromLater(s: Sys, t: Table, n: nat)
    requires n <= |t|
    ensures Later(s, ResetFrom(s, t, n))
    decreases |t| - n
  {
    if n < |t| {
      var s1 := if t[n].Holds? then Reset(s, t[n].desc) else s;
      if t[n].Holds? { ResetLater(s, t[n].desc); }
      ResetFromLater(s1, t, n + 1);
      LaterTrans(s, s1, ResetFrom(s, t, n));
    }
  }

  lemma CloseLater(s: Sys, pid: int, fd: int)
    requires InTable(s, pid, fd)
    ensures Later(s, Close(s, pid, fd).0)
  {
    if 0 <= fd && s.tables[pid][fd] != Free {
      ResetLater(SetSlot(s, pid, fd, Free), s.tables[pid][fd].desc);
    }
  }

  lemma Dup2Later(s: Sys, pid: int, a: int, b: int)
    requires InTable(s, pid, a) && InTable(s, pid, b) && 0 <= b
    ensures Later(s, Dup2(s, pid, a, b).0)
  {
    if 0 <= a && s.tables[pid][a] != Free {
      CloseLater(s, pid, b);
      LaterTrans(s, Close(s, pid, b).0, Dup2(s, pid, a, b).0);
    }
  }

  lemma StepLater(s: Sys, op: Op)
    requires Enabled(s, op)
    ensures Later(s, Step(s, op))
  {
    match op
    case DoOpen(pid, id) =>
    case DoClose(pid, fd) => CloseLater(s, pid, fd);
    case DoPipe(pid) =>
    case DoDup(pid, fd) =>
    case DoDup2(pid, fd, to) => Dup2Later(s, pid, fd, to);
    case DoFork(pid) => GrabFromLater(s.(tables := s.tables + [s.tables[pid]]), s.tables[pid], 0);
    case DoDestroy(pid) => ResetFromLater(s.(tables := s.tables[pid := NoSlots(|s.tables[pid]|)]), s.tables[pid], 0);
  }

  lemma {:induction false} RunLater(s: Sys, ops: seq<Op>)
    requires IsRun(s, ops)
    ensures Later(s, After(s, ops))
    decreases |ops|
  {
    if ops != [] {
      StepLater(s, ops[0]);
      RunLater(Step(s, ops[0]), ops[1..]);
      LaterTrans(s, Step(s, ops[0]), After(s, ops));
    }
  }

  /** A handle is closed by exactly the step after which no slot holds its descriptor, and none ever does again. */
  lemma {:induction false} ClosedForever(s: Sys, op: Op, more: seq<Op>, d: int)
    requires Valid(s) && IsRun(s, [op] + more) && 0 <= d < |s.descs|
    ensures Enabled(s, op) && IsRun(Step(s, op), more) && |s.descs| <= |Step(s, op).descs|
    ensures s.descs[d].closes < Step(s, op).descs[d].closes <==> Slots(s, d) > 0 && Slots(Step(s, op), d) == 0
    ensures Slots(s, d) == 0 ==> Slots(Step(s, op), d) == 0 && Slots(After(Step(s, op), more), d) == 0
  {
    assert ([op] + more)[1..] == more;
    StepValid(s, op);
    StepLater(s, op);
    RunValid(Step(s, op), more);
    RunLater(Step(s, op), more);
    var t, u := Step(s, op), After(Step(s, op), more);
    assert DescKept(s.descs, t.descs, d) && DescKept(t.descs, u.descs, d);
    assert DescriptorOk(All(s.tables), s, d) && DescriptorOk(All(t.tables), t, d) && DescriptorOk(All(u.tables), u, d);
  }

  // ---------------------------------------------------------------- round trips

  ghost predicate SameHandles(s: Sys, s': Sys) {
    && |s.descs| == |s'.descs| && |s.streams| == |s'.streams|
    && (forall d :: 0 <= d < |s.descs| ==> s.descs[d].handle == s'.descs[d].handle)
    && (forall i :: 0 <= i < |s.streams| ==>
        s.streams[i].reader == s'.streams[i].reader && s.streams[i].writer == s'.streams[i].writer)
  }

  /** In a valid state every count and mark is determined by which slots hold what. */
  lemma Determined(s: Sys, s': Sys)
    requires Valid(s) && Valid(s') && SameHandles(s, s')
    requires forall d :: Slots(s, d) == Slots(s', d)
    ensures s.descs == s'.descs && s.streams == s'.streams
  {
    forall d | 0 <= d < |s.descs| ensures s.descs[d] == s'.descs[d] {
      assert DescriptorOk(All(s.tables), s, d) && DescriptorOk(All(s'.tables), s', d);
      assert Slots(s, d) == Slots(s', d);
    }
    forall i | 0 <= i < |s.streams| ensures s.streams[i] == s'.streams[i] {
      assert StreamOk(s, i) && StreamOk(s', i);
    }
  }

  lemma LaterSame(s: Sys, s': Sys)
    requires Later(s, s') && |s.descs| == |s'.descs| && |s.streams| == |s'.streams|
    ensures SameHandles(s, s')
  {
    forall d | 0 <= d < |s.descs|
      ensures s.descs[d].handle == s'.descs[d].handle
    {
      assert DescKept(s.descs, s'.descs, d);
    }
    forall i | 0 <= i < |s.streams|
      ensures s.streams[i].reader == s'.streams[i].reader && s.streams[i].writer == s'.streams[i].writer
    {
      assert StreamKept(s.streams, s'.streams, i);
    }
  }

  lemma {:induction false} FromSizes(s: Sys, t: Table, n: nat)
    requires n <= |t|
    ensures |GrabFrom(s, t, n).descs| == |s.descs| && |GrabFrom(s, t, n).streams| == |s.streams|
    ensures |ResetFrom(s, t, n).descs| == |s.descs| && |ResetFrom(s, t, n).streams| == |s.streams|
    decreases |t| - n
  {
    if n < |t| {
      FromSizes(if t[n].Holds? then Grab(s, t[n].desc) else s, t, n + 1);
      FromSizes(if t[n].Holds? then Reset(s, t[n].desc) else s, t, n + 1);
    }
  }

  lemma GrabThenReset(s: Sys, d: int)
    requires 0 <= d < |s.descs| ==> s.descs[d].strong > 0
    ensures Reset(Grab(s, d), d) == s
  {
    if 0 <= d < |s.descs| {
      assert Reset(Grab(s, d), d).descs == s.descs;
    }
  }

  lemma SlotBack(s: Sys, pid: int, i: int, d: int)
    requires Live(s, pid) && 0 <= i < |s.tables[pid]| && s.tables[pid][i] == Free
    ensures SetSlot(Grab(SetSlot(s, pid, i, Holds(d)), d), pid, i, Free) == Grab(s, d)
  {
    assert s.tables[pid][i := Holds(d)][i := Free] == s.tables[pid];
    assert s.tables[pid := s.tables[pid][i := Holds(d)]][pid := s.tables[pid]] == s.tables;
  }

  /** Closing what dup returned restores the whole state. */
  lemma DupThenClose(s: Sys, pid: int, fd: int)
    requires Valid(s) && InTable(s, pid, fd) && Dup(s, pid, fd).1 >= 0
    ensures Close(Dup(s, pid, fd).0, pid, Dup(s, pid, fd).1) == (s, 0)
  {
    var i, d := Dup(s, pid, fd).1, s.tables[pid][fd].desc;
    SlotInAll(s, pid, fd);
    if 0 <= d < |s.descs| { assert DescriptorOk(All(s.tables), s, d); }
    SlotBack(s, pid, i, d);
    GrabThenReset(s, d);
    var s1 := Dup(s, pid, fd).0;
    assert s1.tables[pid][i] == Holds(d);
  }

  /** Destroying the child right after fork restores every count, mark and table. */
  lemma ForkThenDestroy(s: Sys, pid: int)
    requires Valid(s) && Live(s, pid)
    ensures var s' := Destroy(Fork(s, pid).0, Fork(s, pid).1);
            && s'.descs == s.descs && s'.streams == s.streams
            && s'.tables == s.tables + [NoSlots(|s.tables[pid]|)]
  {
    var f, child := Fork(s, pid).0, |s.tables|;
    var t, none := s.tables[pid], NoSlots(|s.tables[pid]|);
    var s' := Destroy(f, child);
    ForkValid(s, pid);
    assert f.tables[child] == t;
    DestroyValid(f, child);
    assert s'.tables == s.tables + [none];
    StepLater(s, DoFork(pid));
    StepLater(f, DoDestroy(child));
    LaterTrans(s, f, s');
    FromSizes(s.(tables := s.tables + [t]), t, 0);
    FromSizes(f.(tables := f.tables[child := none]), t, 0);
    LaterSame(s, s');
    AllAppend(s.tables, none);
    assert forall d :: Holds(d) !in multiset(none);
    forall d ensures Slots(s, d) == Slots(s', d) { assert Holds(d) !in multiset(none); }
    Determined(s, s');
  }

  // ---------------------------------------------------------------- what a descriptor number refers to

  /** A table is full when no entry is unused. */
  ghost predicate FullTable(t: Table) { forall i :: 0 <= i < |t| ==> t[i] != Free }

  /** Only entry `fd` of process `pid` may differ. */
  ghost predicate OtherSlotsKept(s: Sys, s': Sys, pid: int, fd: int)
    requires Live(s, pid)
  {
    && |s'.tables| == |s.tables| && |s'.tables[pid]| == |s.tables[pid]|
    && (forall q :: 0 <= q < |s.tables| && q != pid ==> s'.tables[q] == s.tables[q])
    && (forall j :: 0 <= j < |s.tables[pid]| && j != fd ==> s'.tables[pid][j] == s.tables[pid][j])
  }

  /** open gives the lowest unused number a descriptor of its own for the file, or fails if the table is full. */
  lemma OpenRefers(s: Sys, pid: int, id: int)
    requires Live(s, pid)
    ensures var r := Open(s, pid, id); var s', fd := r.0, r.1;
      && (fd == -1 <==> FullTable(s.tables[pid])) && (fd == -1 ==> s' == s)
      && (fd != -1 ==>
            && 0 <= fd < |s.tables[pid]| && s.tables[pid][fd] == Free
            && (forall j :: 0 <= j < fd ==> s.tables[pid][j] != Free)
            && OtherSlotsKept(s, s', pid, fd) && s'.tables[pid][fd] == Holds(|s.descs|)
            && |s'.descs| == |s.descs| + 1 && s'.descs[..|s.descs|] == s.descs
            && s'.descs[|s.descs|].handle == File(id))
  {
  }

  /** dup gives the lowest unused number the same descriptor, and fails for an unused number or a full table. */
  lemma DupRefers(s: Sys, pid: int, fd: int)
    requires InTable(s, pid, fd)
    ensures var r := Dup(s, pid, fd); var s', i := r.0, r.1;
      && (i == -1 <==> fd < 0 || s.tables[pid][fd] == Free || FullTable(s.tables[pid])) && (i == -1 ==> s' == s)
      && (i != -1 ==>
            && 0 <= i < |s.tables[pid]| && s.tables[pid][i] == Free
            && (forall j :: 0 <= j < i ==> s.tables[pid][j] != Free)
            && OtherSlotsKept(s, s', pid, i) && s'.tables[pid][i] == s.tables[pid][fd])
  {
  }

  /** close frees exactly that number, and fails exactly for one that is unused. */
  lemma CloseFrees(s: Sys, pid: int, fd: int)
    requires InTable(s, pid, fd)
    ensures var r := Close(s, pid, fd); var s', ok := r.0, r.1 == 0;
      && (ok <==> 0 <= fd && s.tables[pid][fd] != Free) && (!ok ==> r == (s, -1))
      && (ok ==> OtherSlotsKept(s, s', pid, fd) && s'.tables[pid][fd] == Free)
  {
    if 0 <= fd && s.tables[pid][fd] != Free {
      ResetKeepsTables(SetSlot(s, pid, fd, Free), s.tables[pid][fd].desc);
    }
  }

  ghost predicate TwoFreeNever(t: Table) { forall a, b :: 0 <= a < b < |t| ==> t[a] != Free || t[b] != Free }

  /** pipe gives the two lowest unused numbers the read and the write end of one new open stream, or changes nothing. */
  lemma PipeRefers(s: Sys, pid: int)
    requires Live(s, pid)
    ensures var r := Pipe(s, pid); var s', i, j, n, q := r.0, r.2, r.3, |s.descs|, |s.streams|;
      && (r.1 != 0 ==> r == (s, -1, -1, -1) && TwoFreeNever(s.tables[pid]))
      && (r.1 == 0 ==>
            && 0 <= i < j < |s.tables[pid]| && s.tables[pid][i] == Free && s.tables[pid][j] == Free
            && (forall k :: 0 <= k < j && k != i ==> s.tables[pid][k] != Free)
            && s'.tables == s.tables[pid := s.tables[pid][i := Holds(n)][j := Holds(n + 1)]]
            && |s'.descs| == n + 2 && s'.descs[n].handle == PipeEnd(q, false)
            && s'.descs[n + 1].handle == PipeEnd(q, true)
            && |s'.streams| == q + 1 && !s'.streams[q].closed)
  {
    if Pipe(s, pid).1 != 0 {
      var t := s.tables[pid];
      var i := FirstFree(t, 0);
      if i >= 0 {
        var u := t[i := Holds(NULL)];
        assert forall k :: 0 <= k < |u| ==> u[k] != Free;
        assert forall k :: 0 <= k < |t| && k != i ==> u[k] == t[k];
      }
    } else {
      PipeSlots(s, pid);
      var i, j := Pipe(s, pid).2, Pipe(s, pid).3;
      var t := s.tables[pid];
      var u := t[i := Holds(NULL)];
      assert forall k :: 0 <= k < j ==> u[k] != Free;
      assert forall k :: 0 <= k < j && k != i ==> u[k] == t[k];
      assert s.tables[pid := t[i := Holds(|s.descs|)]][pid := t[i := Holds(|s.descs|)][j := Holds(|s.descs| + 1)]]
          == s.tables[pid := t[i := Holds(|s.descs|)][j := Holds(|s.descs| + 1)]];
    }
  }

  /** After dup2 the second number refers to the first one's descriptor, unless the two were the same number. */
  lemma Dup2Refers(s: Sys, pid: int, a: int, b: int)
    requires Valid(s) && InTable(s, pid, a) && 0 <= a && InTable(s, pid, b) && 0 <= b
    requires s.tables[pid][a] != Free && s.tables[pid][a] != Holds(NULL)
    ensures var t := Dup2(s, pid, a, b).0.tables;
            && |t| == |s.tables| && |t[pid]| == |s.tables[pid]|
            && (t[pid][b] == s.tables[pid][a] <==> a != b)
            && (a == b ==> t[pid][b] == Holds(NULL))
            && (forall q :: 0 <= q < |t| && q != pid ==> t[q] == s.tables[q])
            && (forall j :: 0 <= j < |t[pid]| && j != b ==> t[pid][j] == s.tables[pid][j])
  {
    ResetKeepsTables(SetSlot(s, pid, b, Free), if s.tables[pid][b] == Free then NULL else s.tables[pid][b].desc);
  }

  /** dup2 answers with its second number, or with -1 and no change exactly if the first refers to nothing. */
  lemma Dup2Answers(s: Sys, pid: int, a: int, b: int)
    requires Valid(s) && InTable(s, pid, a) && InTable(s, pid, b) && 0 <= b
    ensures Dup2(s, pid, a, b).1 == if a < 0 || s.tables[pid][a] == Free then -1 else b
    ensures a < 0 || s.tables[pid][a] == Free ==> Dup2(s, pid, a, b).0 == s
  {
  }
}
