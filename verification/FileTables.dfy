/**
 The descriptor tables as the kernel keeps them: entries, counts and streams changed in place.
 Every method computes one of the operations of Descriptors.
 */
module FileTables {
  import opened Descriptors
  import Runs = DescriptorRuns

  /** Filling two reserved entries is the same as setting two unused ones. */
  lemma PipeSlotsFilled(s: Sys, pid: int, i: int, j: int)
    requires 0 <= pid < |s.tables| && 0 <= i < |s.tables[pid]| && 0 <= j < |s.tables[pid]| && i != j
    ensures SetTwo(NewPipe(SetSlot(SetSlot(s, pid, i, Holds(NULL)), pid, j, Holds(NULL))), pid, i, j, |s.descs|)
         == SetTwo(NewPipe(s), pid, i, j, |s.descs|)
  {
    var p, d := NewPipe(s), |s.descs|;
    var x := Holds(NULL);
    assert NewPipe(SetSlot(SetSlot(s, pid, i, x), pid, j, x)) == SetSlot(SetSlot(p, pid, i, x), pid, j, x);
    Commute(SetSlot(p, pid, i, x), pid, j, i, x, Holds(d));
    Overwrite(p, pid, i, x, Holds(d));
    Overwrite(SetSlot(p, pid, i, Holds(d)), pid, j, x, Holds(d + 1));
  }

  class Kernel {
    var tables: seq<Table>
    var descs: seq<Descriptor>
    var streams: seq<Stream>

    ghost function State(): Sys
      reads this
    {
      Sys(tables, descs, streams)
    }

    constructor (max: nat)
      ensures State() == Sys([NoSlots(max)], [], [])
    {
      tables, descs, streams := [seq(max, _ => Free)], [], [];
    }

    // ---------------------------------------------------------------- shared pointers

    method ResetPointer(d: int)
      modifies this`descs, this`streams
      ensures State() == Reset(old(State()), d)
    {
      if 0 <= d < |descs| {
        var c := descs[d];
        descs := descs[d := c.(strong := c.strong - 1)];
        if descs[d].strong == 0 {
          DestroyHandle(c.handle);
          descs := descs[d := descs[d].(closes := c.closes + 1)];
        }
        descs := descs[d := descs[d].(weak := c.weak - 1)];
      }
    }

    /** The handle's destructor. */
    method DestroyHandle(h: Handle)
      modifies this`streams
      ensures streams == CloseHandle(old(streams), h)
    {
      if h.PipeEnd? && 0 <= h.stream < |streams| {
        var q := streams[h.stream];
        if h.write {
          q := q.(closed := true);
        }
        streams := streams[h.stream := q];
        DropStream(h.stream);
      }
    }

    method DropStream(i: int)
      requires 0 <= i < |streams|
      modifies this`streams
      ensures var q := old(streams)[i];
              streams == old(streams)[i := q.(strong := q.strong - 1,
                                              deletes := if q.strong == 1 then q.deletes + 1 else q.deletes)]
    {
      var q := streams[i];
      q := q.(strong := q.strong - 1);
      if q.strong == 0 {
        q := q.(deletes := q.deletes + 1);
      }
      streams := streams[i := q];
    }

    method CopyPointer(d: int)
      modifies this`descs
      ensures State() == Grab(old(State()), d)
    {
      if 0 <= d < |descs| {
        descs := descs[d := descs[d].(strong := descs[d].strong + 1)];
        descs := descs[d := descs[d].(weak := descs[d].weak + 1)];
      }
    }

    // ---------------------------------------------------------------- resource map

    method NewResource(pid: int) returns (i: int)
      requires 0 <= pid < |tables|
      modifies this`tables
      ensures i == FirstFree(old(tables)[pid], 0)
      ensures State() == if i < 0 then old(State()) else SetSlot(old(State()), pid, i, Holds(NULL))
    {
      i := 0;
      while i < |tables[pid]|
        invariant 0 <= i <= |tables[pid]| && tables == old(tables)
        invariant FirstFree(tables[pid], 0) == FirstFree(tables[pid], i)
      {
        if tables[pid][i] == Free {
          tables := tables[pid := tables[pid][i := Holds(NULL)]];
          return;
        }
        i := i + 1;
      }
      i := -1;
    }

    method FreeResource(pid: int, fd: int)
      requires 0 <= pid < |tables| && 0 <= fd < |tables[pid]|
      modifies this
      ensures State() == Close(old(State()), pid, fd).0
    {
      if tables[pid][fd] != Free {
        var d := tables[pid][fd].desc;
        tables := tables[pid := tables[pid][fd := Free]];
        ResetPointer(d);
      }
    }

    method SetPointer(pid: int, fd: int, d: int)
      requires 0 <= pid < |tables| && 0 <= fd < |tables[pid]|
      modifies this`tables
      ensures State() == SetSlot(old(State()), pid, fd, Holds(d))
    {
      tables := tables[pid := tables[pid][fd := Holds(d)]];
    }

    // ---------------------------------------------------------------- operations of a process

    method OpenFile(pid: int, id: int) returns (fd: int)
      requires 0 <= pid < |tables|
      modifies this
      ensures (State(), fd) == Open(old(State()), pid, id)
      ensures State() == Runs.Step(old(State()), Runs.DoOpen(pid, id))
    {
      fd := NewResource(pid);
      if fd >= 0 {
        descs := descs + [Descriptor(File(id), 1, 1, 0)];
        SetPointer(pid, fd, |descs| - 1);
        Overwrite(old(State()), pid, fd, Holds(NULL), Holds(|old(descs)|));
      }
    }

    method CloseFile(pid: int, fd: int) returns (r: int)
      requires 0 <= pid < |tables| && fd < |tables[pid]|
      modifies this
      ensures (State(), r) == Close(old(State()), pid, fd)
      ensures State() == Runs.Step(old(State()), Runs.DoClose(pid, fd))
    {
      if fd < 0 || tables[pid][fd] == Free {
        return -1;
      }
      FreeResource(pid, fd);
      r := 0;
    }

    /** The local pointer to the stream and the two handles' pointers; the local one is dropped on return. */
    method BuildPipe()
      modifies this`descs, this`streams
      ensures State() == NewPipe(old(State()))
    {
      var n, q := |descs|, |streams|;
      streams := streams + [Stream(n, n + 1, false, 1, 0)];
      streams := streams[q := streams[q].(strong := streams[q].strong + 1)];
      streams := streams[q := streams[q].(strong := streams[q].strong + 1)];
      descs := descs + [Descriptor(PipeEnd(q, false), 1, 1, 0)];
      descs := descs + [Descriptor(PipeEnd(q, true), 1, 1, 0)];
      DropStream(q);
      assert streams == old(streams) + [Stream(n, n + 1, false, 2, 0)];
    }

    method MakePipe(pid: int) returns (r: int, readId: int, writeId: int)
      requires 0 <= pid < |tables|
      modifies this
      ensures (State(), r, readId, writeId) == Pipe(old(State()), pid)
      ensures State() == Runs.Step(old(State()), Runs.DoPipe(pid))
    {
      readId := NewResource(pid);
      if readId < 0 {
        return -1, -1, -1;
      }
      writeId := NewResource(pid);
      if writeId < 0 {
        FreeResource(pid, readId);
        Overwrite(old(State()), pid, readId, Holds(NULL), Free);
        return -1, -1, -1;
      }
      BuildPipe();
      SetPointer(pid, readId, |descs| - 2);
      SetPointer(pid, writeId, |descs| - 1);
      PipeSlotsFilled(old(State()), pid, readId, writeId);
      r := 0;
    }

    method DupFile(pid: int, fd: int) returns (fd2: int)
      requires 0 <= pid < |tables| && fd < |tables[pid]|
      modifies this
      ensures (State(), fd2) == Dup(old(State()), pid, fd)
      ensures State() == Runs.Step(old(State()), Runs.DoDup(pid, fd))
    {
      if fd < 0 || tables[pid][fd] == Free {
        return -1;
      }
      fd2 := NewResource(pid);
      if fd2 < 0 {
        return -1;
      }
      var d := tables[pid][fd].desc;
      SetPointer(pid, fd2, d);
      Overwrite(old(State()), pid, fd2, Holds(NULL), Holds(d));
      CopyPointer(d);
    }

    method Dup2File(pid: int, fd: int, fd2: int) returns (r: int)
      requires 0 <= pid < |tables| && fd < |tables[pid]| && 0 <= fd2 < |tables[pid]|
      modifies this
      ensures (State(), r) == Dup2(old(State()), pid, fd, fd2)
      ensures State() == Runs.Step(old(State()), Runs.DoDup2(pid, fd, fd2))
    {
      if fd < 0 || tables[pid][fd] == Free {
        return -1;
      }
      FreeResource(pid, fd2);
      SetPointer(pid, fd2, NULL);
      var d := tables[pid][fd].desc;
      SetPointer(pid, fd2, d);
      CopyPointer(d);
      r := fd2;
    }

    method FinishFork(pid: int) returns (child: int)
      requires 0 <= pid < |tables|
      modifies this
      ensures (State(), child) == Fork(old(State()), pid)
      ensures State() == Runs.Step(old(State()), Runs.DoFork(pid))
    {
      child := |tables|;
      var t := tables[pid];
      tables := tables + [[]];
      ghost var s0 := State().(tables := old(tables) + [t]);
      var i := 0;
      while i < |t|
        invariant 0 <= i <= |t| && tables == old(tables) + [t[..i]]
        invariant GrabFrom(State().(tables := old(tables) + [t]), t, i) == GrabFrom(s0, t, 0)
      {
        if t[i].Holds? {
          CopyPointer(t[i].desc);
        }
        tables := tables[child := tables[child] + [t[i]]];
        assert t[..i + 1] == t[..i] + [t[i]];
        i := i + 1;
      }
      assert t[..i] == t;
    }

    method DestroyTable(pid: int)
      requires 0 <= pid < |tables|
      modifies this
      ensures State() == Destroy(old(State()), pid)
      ensures State() == Runs.Step(old(State()), Runs.DoDestroy(pid))
    {
      ghost var t, none := tables[pid], NoSlots(|tables[pid]|);
      ghost var s0 := State().(tables := tables[pid := none]);
      var i := 0;
      while i < |tables[pid]|
        invariant |tables| == |old(tables)| && 0 <= i <= |t| == |tables[pid]|
        invariant forall q :: 0 <= q < |tables| && q != pid ==> tables[q] == old(tables)[q]
        invariant forall k :: 0 <= k < |t| ==> tables[pid][k] == if k < i then Free else t[k]
        invariant ResetFrom(State().(tables := s0.tables), t, i) == ResetFrom(s0, t, 0)
      {
        ReleaseEntry(pid, i);
        i := i + 1;
      }
      assert tables[pid] == none;
      assert tables == s0.tables;
    }

    method ReleaseEntry(pid: int, i: int)
      requires 0 <= pid < |tables| && 0 <= i < |tables[pid]|
      modifies this
      ensures tables == old(tables)[pid := old(tables)[pid][i := Free]]
      ensures forall t :: State().(tables := t)
                       == (if old(tables)[pid][i].Holds?
                           then Reset(old(State()).(tables := t), old(tables)[pid][i].desc)
                           else old(State()).(tables := t))
    {
      if tables[pid][i].Holds? {
        var d := tables[pid][i].desc;
        tables := tables[pid := tables[pid][i := Free]];
        ResetPointer(d);
      } else {
        assert tables[pid][i := Free] == tables[pid];
      }
    }
  }
}
