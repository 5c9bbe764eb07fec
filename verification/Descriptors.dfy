/**
 File descriptors: per-process tables of shared pointers, reference-counted descriptors, and pipes whose
 end of file depends on the last write-end reference.
 */
module Descriptors {

  const NULL: int := -1

  /** A table entry: unused, or a shared pointer to a descriptor (possibly null). */
  datatype Slot = Free | Holds(desc: int)

  datatype Handle = File(id: int) | PipeEnd(stream: int, write: bool)

  /** A descriptor with its counts. `closes` says how often its handle was closed. */
  datatype Descriptor = Descriptor(handle: Handle, strong: int, weak: int, closes: int)

  /** A pipe's stream: its two descriptors, the end-of-file mark, and the handles that still refer to it. */
  datatype Stream = Stream(reader: int, writer: int, closed: bool, strong: int, deletes: int)

  type Table = seq<Slot>

  datatype Sys = Sys(tables: seq<Table>, descs: seq<Descriptor>, streams: seq<Stream>)

  // ---------------------------------------------------------------- shared pointers

  ghost predicate ValidDesc(s: Sys, d: int) { 0 <= d < |s.descs| }

  /** Copying a shared pointer; a null pointer has nothing to count. */
  function Grab(s: Sys, d: int): Sys {
    if !(0 <= d < |s.descs|) then s
    else s.(descs := s.descs[d := s.descs[d].(strong := s.descs[d].strong + 1, weak := s.descs[d].weak + 1)])
  }

  /** Destroying a handle: a pipe's write end marks the stream closed, and either end lets go of it. */
  function CloseHandle(streams: seq<Stream>, h: Handle): seq<Stream> {
    match h
    case File(_) => streams
    case PipeEnd(i, write) =>
      if 0 <= i < |streams| then
        var q := streams[i];
        streams[i := Stream(q.reader, q.writer, q.closed || write, q.strong - 1,
                            if q.strong == 1 then q.deletes + 1 else q.deletes)]
      else streams
  }

  /** shared_ptr::reset: the last strong reference closes the handle. */
  function Reset(s: Sys, d: int): Sys {
    if !(0 <= d < |s.descs|) then s
    else
      var c := s.descs[d];
      var last := c.strong - 1 == 0;
      s.(descs := s.descs[d := Descriptor(c.handle, c.strong - 1, c.weak - 1, if last then c.closes + 1 else c.closes)],
         streams := if last then CloseHandle(s.streams, c.handle) else s.streams)
  }

  // ---------------------------------------------------------------- counting references

  /** All slots of all tables. */
  ghost function All(tables: seq<Table>): multiset<Slot> {
    if tables == [] then multiset{} else multiset(tables[0]) + All(tables[1..])
  }

  lemma {:induction false} AllUpdate(tables: seq<Table>, i: int, t: Table)
    requires 0 <= i < |tables|
    ensures multiset(tables[i]) <= All(tables)
    ensures All(tables[i := t]) == All(tables) - multiset(tables[i]) + multiset(t)
  {
    if i == 0 {
      assert tables[i := t][1..] == tables[1..];
    } else {
      AllUpdate(tables[1..], i - 1, t);
      assert tables[i := t][1..] == tables[1..][i - 1 := t];
      Exchange(multiset(tables[0]), All(tables[1..]), multiset(tables[i]), multiset(t));
    }
  }

  lemma Exchange(a: multiset<Slot>, m: multiset<Slot>, x: multiset<Slot>, y: multiset<Slot>)
    requires x <= m
    ensures x <= a + m && a + (m - x + y) == a + m - x + y
  {
  }

  lemma {:induction false} AllAppend(tables: seq<Table>, t: Table)
    ensures All(tables + [t]) == All(tables) + multiset(t)
  {
    if tables == [] {
      assert [t][1..] == [];
    } else {
      AllAppend(tables[1..], t);
      assert (tables + [t])[1..] == tables[1..] + [t];
    }
  }

  lemma SlotUpdate(t: Table, j: int, x: Slot)
    requires 0 <= j < |t|
    ensures t[j] in multiset(t)
    ensures multiset(t[j := x]) == multiset(t) - multiset{t[j]} + multiset{x}
  {
  }

  // ---------------------------------------------------------------- the invariant

  ghost predicate DescriptorOk(refs: multiset<Slot>, s: Sys, d: int)
    requires 0 <= d < |s.descs|
  {
    var c := s.descs[d];
    && c.strong == c.weak == refs[Holds(d)]
    && c.closes == (if c.strong == 0 then 1 else 0)
    && (c.handle.PipeEnd? ==>
          && 0 <= c.handle.stream < |s.streams|
          && d == if c.handle.write then s.streams[c.handle.stream].writer else s.streams[c.handle.stream].reader)
  }

  ghost predicate StreamOk(s: Sys, i: int)
    requires 0 <= i < |s.streams|
  {
    var q := s.streams[i];
    && 0 <= q.reader < |s.descs| && 0 <= q.writer < |s.descs| && q.reader != q.writer
    && s.descs[q.reader].handle == PipeEnd(i, false) && s.descs[q.writer].handle == PipeEnd(i, true)
    && (q.closed <==> s.descs[q.writer].strong == 0)
    && q.strong == (if s.descs[q.reader].strong > 0 then 1 else 0) + (if s.descs[q.writer].strong > 0 then 1 else 0)
    && q.deletes == (if q.strong == 0 then 1 else 0)
  }

  /** Counts agree with the references `refs`; each handle is closed exactly when its last reference is gone. */
  ghost predicate Counted(refs: multiset<Slot>, s: Sys) {
    && (forall d :: 0 <= d < |s.descs| ==> DescriptorOk(refs, s, d))
    && (forall i :: 0 <= i < |s.streams| ==> StreamOk(s, i))
    && (forall d :: Holds(d) in refs ==> d == NULL || ValidDesc(s, d))
  }

  /** The references are exactly the used slots of all processes. */
  ghost predicate Valid(s: Sys) { Counted(All(s.tables), s) }

  lemma GrabCounted(refs: multiset<Slot>, s: Sys, d: int)
    requires Counted(refs, s) && 0 <= d < |s.descs| && s.descs[d].strong > 0
    ensures Counted(refs + multiset{Holds(d)}, Grab(s, d))
  {
    var r, s' := refs + multiset{Holds(d)}, Grab(s, d);
    forall e | 0 <= e < |s'.descs| ensures DescriptorOk(r, s', e) {
      assert DescriptorOk(refs, s, e);
    }
    forall i | 0 <= i < |s'.streams| ensures StreamOk(s', i) {
      assert StreamOk(s, i);
    }
  }

  lemma ResetCounted(refs: multiset<Slot>, s: Sys, d: int)
    requires Counted(refs, s) && 0 <= d < |s.descs| && Holds(d) in refs
    ensures Counted(refs - multiset{Holds(d)}, Reset(s, d))
  {
    var r, s' := refs - multiset{Holds(d)}, Reset(s, d);
    assert DescriptorOk(refs, s, d);
    forall e | 0 <= e < |s'.descs| ensures DescriptorOk(r, s', e) {
      assert DescriptorOk(refs, s, e);
    }
    forall i | 0 <= i < |s'.streams| ensures StreamOk(s', i) {
      assert StreamOk(s, i);
    }
  }

  lemma Ignored(refs: multiset<Slot>, s: Sys, x: Slot)
    requires Counted(refs, s) && (x == Free || x == Holds(NULL))
    ensures Counted(refs + multiset{x}, s) && Counted(refs - multiset{x}, s)
  {
    forall e | 0 <= e < |s.descs|
      ensures DescriptorOk(refs + multiset{x}, s, e) && DescriptorOk(refs - multiset{x}, s, e)
    {
      assert DescriptorOk(refs, s, e);
    }
  }

  // ---------------------------------------------------------------- tables

  /** The first unused entry at or after `n`, or -1. */
  function FirstFree(t: Table, n: nat): (i: int)
    requires n <= |t|
    ensures i == -1 || (n <= i < |t| && t[i] == Free)
    ensures forall j :: n <= j < (if i == -1 then |t| else i) ==> t[j] != Free
    decreases |t| - n
  {
    if n == |t| then -1 else if t[n] == Free then n else FirstFree(t, n + 1)
  }

  function SetSlot(s: Sys, pid: int, fd: int, x: Slot): Sys
    requires 0 <= pid < |s.tables| && 0 <= fd < |s.tables[pid]|
  {
    s.(tables := s.tables[pid := s.tables[pid][fd := x]])
  }

  lemma SetSlotAll(s: Sys, pid: int, fd: int, x: Slot)
    requires 0 <= pid < |s.tables| && 0 <= fd < |s.tables[pid]|
    ensures s.tables[pid][fd] in All(s.tables)
    ensures All(SetSlot(s, pid, fd, x).tables) == All(s.tables) - multiset{s.tables[pid][fd]} + multiset{x}
  {
    var t := s.tables[pid];
    AllUpdate(s.tables, pid, t[fd := x]);
    SlotUpdate(t, fd, x);
  }

  lemma Overwrite(s: Sys, pid: int, fd: int, x: Slot, y: Slot)
    requires 0 <= pid < |s.tables| && 0 <= fd < |s.tables[pid]|
    ensures SetSlot(SetSlot(s, pid, fd, x), pid, fd, y) == SetSlot(s, pid, fd, y)
    ensures SetSlot(s, pid, fd, s.tables[pid][fd]) == s
  {
    var t := s.tables[pid];
    assert t[fd := x][fd := y] == t[fd := y];
    assert t[fd := t[fd]] == t;
    assert s.tables[pid := t[fd := x]][pid := t[fd := y]] == s.tables[pid := t[fd := y]];
    assert s.tables[pid := t] == s.tables;
  }

  lemma Commute(s: Sys, pid: int, i: int, j: int, x: Slot, y: Slot)
    requires 0 <= pid < |s.tables| && 0 <= i < |s.tables[pid]| && 0 <= j < |s.tables[pid]| && i != j
    ensures SetSlot(SetSlot(s, pid, i, x), pid, j, y) == SetSlot(SetSlot(s, pid, j, y), pid, i, x)
  {
    var t := s.tables[pid];
    assert t[i := x][j := y] == t[j := y][i := x];
    assert s.tables[pid := t[i := x]][pid := t[i := x][j := y]] == s.tables[pid := t[j := y]][pid := t[i := x][j := y]];
  }

  /** Counts do not depend on which tables hold the references. */
  lemma TablesIrrelevant(refs: multiset<Slot>, s: Sys, tables: seq<Table>)
    requires Counted(refs, s)
    ensures Counted(refs, s.(tables := tables))
  {
    var s' := s.(tables := tables);
    forall d | 0 <= d < |s'.descs| ensures DescriptorOk(refs, s', d) { assert DescriptorOk(refs, s, d); }
    forall i | 0 <= i < |s'.streams| ensures StreamOk(s', i) { assert StreamOk(s, i); }
  }

  ghost predicate Live(s: Sys, pid: int) { 0 <= pid < |s.tables| }

  /** A descriptor number as the source takes it: `at` answers null below zero and does not check the top. */
  ghost predicate InTable(s: Sys, pid: int, fd: int) { Live(s, pid) && fd < |s.tables[pid]| }

  // ---------------------------------------------------------------- operations of a process

  /** open: the handle of an opened file, in the first unused entry; the table may be full. */
  function Open(s: Sys, pid: int, id: int): (r: (Sys, int))
    requires Live(s, pid)
  {
    var i := FirstFree(s.tables[pid], 0);
    if i < 0 then (s, -1)
    else (SetSlot(s, pid, i, Holds(|s.descs|)).(descs := s.descs + [Descriptor(File(id), 1, 1, 0)]), i)
  }

  /** close */
  function Close(s: Sys, pid: int, fd: int): (r: (Sys, int))
    requires InTable(s, pid, fd)
  {
    if fd < 0 || s.tables[pid][fd] == Free then (s, -1)
    else (Reset(SetSlot(s, pid, fd, Free), s.tables[pid][fd].desc), 0)
  }

  /** pipe: two entries, a stream held by both ends, or nothing if two entries cannot be had. */
  function Pipe(s: Sys, pid: int): (r: (Sys, int, int, int))
    requires Live(s, pid)
  {
    var i := FirstFree(s.tables[pid], 0);
    if i < 0 then (s, -1, -1, -1)
    else
      var j := FirstFree(s.tables[pid][i := Holds(NULL)], 0);
      if j < 0 then (s, -1, -1, -1)
      else
        (SetTwo(NewPipe(s), pid, i, j, |s.descs|), 0, i, j)
  }

  /** A stream and the descriptors of its two ends. */
  function NewPipe(s: Sys): Sys {
    var n, q := |s.descs|, |s.streams|;
    s.(descs := s.descs + [Descriptor(PipeEnd(q, false), 1, 1, 0), Descriptor(PipeEnd(q, true), 1, 1, 0)],
       streams := s.streams + [Stream(n, n + 1, false, 2, 0)])
  }

  function SetTwo(s: Sys, pid: int, i: int, j: int, d: int): Sys
    requires 0 <= pid < |s.tables| && 0 <= i < |s.tables[pid]| && 0 <= j < |s.tables[pid]|
  {
    SetSlot(SetSlot(s, pid, i, Holds(d)), pid, j, Holds(d + 1))
  }

  /** dup */
  function Dup(s: Sys, pid: int, fd: int): (r: (Sys, int))
    requires InTable(s, pid, fd)
  {
    if fd < 0 || s.tables[pid][fd] == Free then (s, -1)
    else
      var i := FirstFree(s.tables[pid], 0);
      if i < 0 then (s, -1)
      else (Grab(SetSlot(s, pid, i, s.tables[pid][fd]), s.tables[pid][fd].desc), i)
  }

  /** dup2: the old pointer is read again after `b` was closed, which matters only when the two are the same. */
  function Dup2(s: Sys, pid: int, a: int, b: int): (r: (Sys, int))
    requires InTable(s, pid, a) && InTable(s, pid, b) && 0 <= b
  {
    if a < 0 || s.tables[pid][a] == Free then (s, -1)
    else
      var s1 := SetSlot(Close(s, pid, b).0, pid, b, Holds(NULL));
      var d := s1.tables[pid][a].desc;
      (Grab(SetSlot(s1, pid, b, Holds(d)), d), b)
  }

  /** Copying each pointer of a table from entry `n` on. */
  function GrabFrom(s: Sys, t: Table, n: nat): (r: Sys)
    requires n <= |t|
    ensures r.tables == s.tables
    decreases |t| - n
  {
    if n == |t| then s
    else GrabFrom(if t[n].Holds? then Grab(s, t[n].desc) else s, t, n + 1)
  }

  /** Destroying each pointer of a table from entry `n` on. */
  function ResetFrom(s: Sys, t: Table, n: nat): (r: Sys)
    requires n <= |t|
    ensures r.tables == s.tables
    decreases |t| - n
  {
    if n == |t| then s
    else ResetFrom(if t[n].Holds? then Reset(s, t[n].desc) else s, t, n + 1)
  }

  /** finish_fork: the child's table is a copy of the parent's. */
  function Fork(s: Sys, pid: int): (r: (Sys, int))
    requires Live(s, pid)
  {
    (GrabFrom(s.(tables := s.tables + [s.tables[pid]]), s.tables[pid], 0), |s.tables|)
  }

  function NoSlots(n: nat): (t: Table)
    ensures |t| == n && forall i :: 0 <= i < n ==> t[i] == Free
  {
    seq(n, _ => Free)
  }

  /** Destruction of a process: every used entry is released. */
  function Destroy(s: Sys, pid: int): Sys
    requires Live(s, pid)
  {
    ResetFrom(s.(tables := s.tables[pid := NoSlots(|s.tables[pid]|)]), s.tables[pid], 0)
  }

  // ---------------------------------------------------------------- each operation keeps the invariant

  lemma AppendDescriptor(refs: multiset<Slot>, s: Sys, id: int)
    requires Counted(refs, s)
    ensures Counted(refs + multiset{Holds(|s.descs|)}, s.(descs := s.descs + [Descriptor(File(id), 1, 1, 0)]))
  {
    var n := |s.descs|;
    var r, s' := refs + multiset{Holds(n)}, s.(descs := s.descs + [Descriptor(File(id), 1, 1, 0)]);
    forall d | 0 <= d < |s'.descs| ensures DescriptorOk(r, s', d) {
      if d < n { assert DescriptorOk(refs, s, d); }
    }
    forall i | 0 <= i < |s'.streams| ensures StreamOk(s', i) { assert StreamOk(s, i); }
  }

  lemma AppendPipe(refs: multiset<Slot>, s: Sys)
    requires Counted(refs, s)
    ensures Counted(refs + multiset{Holds(|s.descs|)} + multiset{Holds(|s.descs| + 1)}, NewPipe(s))
  {
    var n, q := |s.descs|, |s.streams|;
    var r, s' := refs + multiset{Holds(n)} + multiset{Holds(n + 1)}, NewPipe(s);
    forall d | 0 <= d < |s'.descs| ensures DescriptorOk(r, s', d) {
      if d < n { assert DescriptorOk(refs, s, d); }
    }
    forall i | 0 <= i < |s'.streams| ensures StreamOk(s', i) {
      if i < q { assert StreamOk(s, i); }
    }
  }

  lemma SetTwoAll(s: Sys, pid: int, i: int, j: int, d: int)
    requires 0 <= pid < |s.tables| && 0 <= i < |s.tables[pid]| && 0 <= j < |s.tables[pid]| && i != j
    requires s.tables[pid][i] == Free && s.tables[pid][j] == Free
    ensures All(SetTwo(s, pid, i, j, d).tables)
         == All(s.tables) - multiset{Free} - multiset{Free} + multiset{Holds(d)} + multiset{Holds(d + 1)}
  {
    var s1 := SetSlot(s, pid, i, Holds(d));
    SetSlotAll(s, pid, i, Holds(d));
    SetSlotAll(s1, pid, j, Holds(d + 1));
    Shuffle(All(s.tables), Holds(d), Holds(d + 1));
  }

  lemma Shuffle(m: multiset<Slot>, x: Slot, y: Slot)
    requires x != Free
    ensures m - multiset{Free} + multiset{x} - multiset{Free} + multiset{y}
         == m - multiset{Free} - multiset{Free} + multiset{x} + multiset{y}
  {
  }

  lemma OpenValid(s: Sys, pid: int, id: int)
    requires Valid(s) && Live(s, pid)
    ensures Valid(Open(s, pid, id).0)
  {
    var i := FirstFree(s.tables[pid], 0);
    if i >= 0 {
      SetSlotAll(s, pid, i, Holds(|s.descs|));
      Ignored(All(s.tables), s, Free);
      AppendDescriptor(All(s.tables) - multiset{Free}, s, id);
      TablesIrrelevant(All(Open(s, pid, id).0.tables), s.(descs := s.descs + [Descriptor(File(id), 1, 1, 0)]),
          Open(s, pid, id).0.tables);
    }
  }

  lemma CloseValid(s: Sys, pid: int, fd: int)
    requires Valid(s) && InTable(s, pid, fd)
    ensures Valid(Close(s, pid, fd).0)
  {
    if 0 <= fd && s.tables[pid][fd] != Free {
      var d := s.tables[pid][fd].desc;
      var refs, s1 := All(s.tables), SetSlot(s, pid, fd, Free);
      SetSlotAll(s, pid, fd, Free);
      TablesIrrelevant(refs, s, s1.tables);
      if d == NULL {
        Ignored(refs, s1, Holds(NULL));
        Ignored(refs - multiset{Holds(NULL)}, s1, Free);
      } else {
        ResetCounted(refs, s1, d);
        Ignored(refs - multiset{Holds(d)}, Reset(s1, d), Free);
      }
    }
  }

  lemma PipeSlots(s: Sys, pid: int)
    requires Live(s, pid) && Pipe(s, pid).1 == 0
    ensures var r := Pipe(s, pid);
            && 0 <= r.2 < |s.tables[pid]| && 0 <= r.3 < |s.tables[pid]| && r.2 != r.3
            && s.tables[pid][r.2] == Free && s.tables[pid][r.3] == Free
            && r.0 == SetTwo(NewPipe(s), pid, r.2, r.3, |s.descs|)
  {
  }

  lemma PipeValid(s: Sys, pid: int)
    requires Valid(s) && Live(s, pid)
    ensures Valid(Pipe(s, pid).0)
  {
    if Pipe(s, pid).1 == 0 {
      PipeSlots(s, pid);
      PipeCounted(s, pid, Pipe(s, pid).2, Pipe(s, pid).3);
    }
  }

  lemma PipeCounted(s: Sys, pid: int, i: int, j: int)
    requires Valid(s) && Live(s, pid)
    requires 0 <= i < |s.tables[pid]| && 0 <= j < |s.tables[pid]| && i != j
    requires s.tables[pid][i] == Free && s.tables[pid][j] == Free
    ensures Valid(SetTwo(NewPipe(s), pid, i, j, |s.descs|))
  {
    PipeRefs(All(s.tables), s);
    FillTwo(NewPipe(s), pid, i, j, |s.descs|);
  }

  /** Two unused entries take the two references that were missing. */
  lemma FillTwo(s: Sys, pid: int, i: int, j: int, d: int)
    requires Live(s, pid) && 0 <= i < |s.tables[pid]| && 0 <= j < |s.tables[pid]| && i != j
    requires s.tables[pid][i] == Free && s.tables[pid][j] == Free
    requires Counted(All(s.tables) - multiset{Free} - multiset{Free} + multiset{Holds(d)} + multiset{Holds(d + 1)}, s)
    ensures Valid(SetTwo(s, pid, i, j, d))
  {
    SetTwoAll(s, pid, i, j, d);
    TablesIrrelevant(All(SetTwo(s, pid, i, j, d).tables), s, SetTwo(s, pid, i, j, d).tables);
  }

  lemma PipeRefs(m: multiset<Slot>, s: Sys)
    requires Counted(m, s)
    ensures Counted(m - multiset{Free} - multiset{Free} + multiset{Holds(|s.descs|)} + multiset{Holds(|s.descs| + 1)},
        NewPipe(s))
  {
    Ignored(m, s, Free);
    Ignored(m - multiset{Free}, s, Free);
    AppendPipe(m - multiset{Free} - multiset{Free}, s);
  }

  /** A further reference to a descriptor that some slot already holds. */
  lemma AddRef(s: Sys, pid: int, i: int, d: int)
    requires Valid(s) && Live(s, pid) && 0 <= i < |s.tables[pid]|
    requires s.tables[pid][i] == Free || s.tables[pid][i] == Holds(NULL)
    requires Holds(d) in All(s.tables)
    ensures Valid(Grab(SetSlot(s, pid, i, Holds(d)), d))
  {
    var x, s1 := s.tables[pid][i], SetSlot(s, pid, i, Holds(d));
    var refs := All(s.tables);
    SetSlotAll(s, pid, i, Holds(d));
    Ignored(refs, s, x);
    TablesIrrelevant(refs - multiset{x}, s, s1.tables);
    if d == NULL {
      Ignored(refs - multiset{x}, s1, Holds(NULL));
    } else {
      assert DescriptorOk(refs, s, d);
      GrabCounted(refs - multiset{x}, s1, d);
    }
  }

  lemma SlotInAll(s: Sys, pid: int, fd: int)
    requires Live(s, pid) && 0 <= fd < |s.tables[pid]|
    ensures s.tables[pid][fd] in All(s.tables)
  {
    SetSlotAll(s, pid, fd, Free);
  }

  lemma DupValid(s: Sys, pid: int, fd: int)
    requires Valid(s) && InTable(s, pid, fd)
    ensures Valid(Dup(s, pid, fd).0)
  {
    if Dup(s, pid, fd).1 >= 0 {
      SlotInAll(s, pid, fd);
      AddRef(s, pid, FirstFree(s.tables[pid], 0), s.tables[pid][fd].desc);
    }
  }

  lemma ResetKeepsTables(s: Sys, d: int)
    ensures Reset(s, d).tables == s.tables
  {
  }

  /** An unused entry may be given a null pointer. */
  lemma ReserveValid(s: Sys, pid: int, b: int)
    requires Valid(s) && Live(s, pid) && 0 <= b < |s.tables[pid]| && s.tables[pid][b] == Free
    ensures Valid(SetSlot(s, pid, b, Holds(NULL)))
  {
    var s1 := SetSlot(s, pid, b, Holds(NULL));
    SetSlotAll(s, pid, b, Holds(NULL));
    Ignored(All(s.tables), s, Free);
    Ignored(All(s.tables) - multiset{Free}, s, Holds(NULL));
    TablesIrrelevant(All(s1.tables), s, s1.tables);
  }

  lemma ClosedSlot(s: Sys, pid: int, b: int)
    requires InTable(s, pid, b) && 0 <= b
    ensures var t := Close(s, pid, b).0.tables;
      |t| == |s.tables| && |t[pid]| == |s.tables[pid]| && t[pid][b] == Free
  {
    if s.tables[pid][b] != Free { ResetKeepsTables(SetSlot(s, pid, b, Free), s.tables[pid][b].desc); }
  }

  lemma Dup2Valid(s: Sys, pid: int, a: int, b: int)
    requires Valid(s) && InTable(s, pid, a) && InTable(s, pid, b) && 0 <= b
    ensures Valid(Dup2(s, pid, a, b).0)
  {
    if 0 <= a && s.tables[pid][a] != Free {
      CloseValid(s, pid, b);
      ClosedSlot(s, pid, b);
      var s0 := Close(s, pid, b).0;
      ReserveValid(s0, pid, b);
      var s1 := SetSlot(s0, pid, b, Holds(NULL));
      SlotInAll(s1, pid, a);
      AddRef(s1, pid, b, s1.tables[pid][a].desc);
    }
  }

  ghost predicate Known(refs: multiset<Slot>, x: Slot) { x == Free || x == Holds(NULL) || x in refs }

  lemma {:induction false} GrabFromCounted(refs: multiset<Slot>, s: Sys, t: Table, n: nat)
    requires Counted(refs, s) && n <= |t|
    requires forall i :: n <= i < |t| ==> Known(refs, t[i])
    ensures Counted(refs + multiset(t[n..]), GrabFrom(s, t, n))
    decreases |t| - n
  {
    if n == |t| {
      assert refs + multiset(t[n..]) == refs;
    } else {
      var s1 := if t[n].Holds? then Grab(s, t[n].desc) else s;
      assert Counted(refs + multiset{t[n]}, s1) by {
        if t[n] == Free || t[n] == Holds(NULL) {
          Ignored(refs, s, t[n]);
        } else {
          assert Known(refs, t[n]) && DescriptorOk(refs, s, t[n].desc);
          GrabCounted(refs, s, t[n].desc);
        }
      }
      forall i | n + 1 <= i < |t| ensures Known(refs + multiset{t[n]}, t[i]) {
        assert Known(refs, t[i]);
      }
      GrabFromCounted(refs + multiset{t[n]}, s1, t, n + 1);
      SplitFirst(refs, t, n);
    }
  }

  lemma SplitFirst(refs: multiset<Slot>, t: Table, n: nat)
    requires n < |t|
    ensures multiset(t[n..]) == multiset{t[n]} + multiset(t[n + 1..])
    ensures refs + multiset{t[n]} + multiset(t[n + 1..]) == refs + multiset(t[n..])
    ensures refs - multiset{t[n]} - multiset(t[n + 1..]) == refs - multiset(t[n..])
  {
    assert t[n..] == [t[n]] + t[n + 1..];
  }

  lemma {:induction false} ResetFromCounted(refs: multiset<Slot>, s: Sys, t: Table, n: nat)
    requires Counted(refs, s) && n <= |t|
    requires multiset(t[n..]) <= refs
    ensures Counted(refs - multiset(t[n..]), ResetFrom(s, t, n))
    decreases |t| - n
  {
    if n == |t| {
      assert refs - multiset(t[n..]) == refs;
    } else {
      SplitFirst(refs, t, n);
      var s1 := if t[n].Holds? then Reset(s, t[n].desc) else s;
      assert Counted(refs - multiset{t[n]}, s1) by {
        if t[n] == Free || t[n] == Holds(NULL) {
          Ignored(refs, s, t[n]);
        } else {
          assert t[n] in multiset(t[n..]);
          ResetCounted(refs, s, t[n].desc);
        }
      }
      ResetFromCounted(refs - multiset{t[n]}, s1, t, n + 1);
    }
  }

  lemma ForkValid(s: Sys, pid: int)
    requires Valid(s) && Live(s, pid)
    ensures Valid(Fork(s, pid).0)
    ensures Fork(s, pid).0.tables == s.tables + [s.tables[pid]]
  {
    var t, s1 := s.tables[pid], s.(tables := s.tables + [s.tables[pid]]);
    var refs := All(s.tables);
    TablesIrrelevant(refs, s, s1.tables);
    forall i | 0 <= i < |t| ensures Known(refs, t[i]) { SlotInAll(s, pid, i); }
    GrabFromCounted(refs, s1, t, 0);
    AllAppend(s.tables, t);
    assert t[0..] == t;
  }

  lemma {:induction false} IgnoreAll(refs: multiset<Slot>, s: Sys, t: Table)
    requires Counted(refs, s) && forall i :: 0 <= i < |t| ==> t[i] == Free
    ensures Counted(refs + multiset(t), s)
    decreases |t|
  {
    if t == [] {
      assert refs + multiset(t) == refs;
    } else {
      Ignored(refs, s, Free);
      IgnoreAll(refs + multiset{Free}, s, t[1..]);
      SplitFirst(refs, t, 0);
      assert t[0..] == t;
    }
  }

  lemma DestroyValid(s: Sys, pid: int)
    requires Valid(s) && Live(s, pid)
    ensures Valid(Destroy(s, pid))
    ensures Destroy(s, pid).tables == s.tables[pid := NoSlots(|s.tables[pid]|)]
  {
    var t, none := s.tables[pid], NoSlots(|s.tables[pid]|);
    var s1 := s.(tables := s.tables[pid := none]);
    AllUpdate(s.tables, pid, none);
    assert t[0..] == t;
    TablesIrrelevant(All(s.tables), s, s1.tables);
    ResetFromCounted(All(s.tables), s1, t, 0);
    IgnoreAll(All(s.tables) - multiset(t), Destroy(s, pid), none);
  }
}
