/**
 The stream's buffer as it is changed in place: what a call does between taking the mutex and giving it up.
 */
module StreamBuffers {
  import opened Streams

  lemma AppendOne(a: seq<int>, buf: seq<int>, i: nat)
    requires i < |buf|
    ensures a + buf[..i] + [buf[i]] == a + buf[..i + 1]
  {
  }

  lemma MoveOne(a: seq<int>, v: int, b: seq<int>)
    ensures a + ([v] + b) == a + [v] + b
  {
  }

  class StreamBuffer {
    const size: int
    const data: array<int>
    var read: int
    var write: int
    var closed: bool

    ghost function Model(): Ring
      reads this, data
    {
      Ring(size, data[..], read, write)
    }

    ghost predicate Valid()
      reads this, data
    {
      RingOk(Model())
    }

    constructor (n: nat)
      ensures Valid() && fresh(data) && size == n && !closed && Held(Model()) == []
    {
      size := n;
      data := new int[if n <= 1 then 2 else n];
      read, write, closed := 0, 0, false;
    }

    /** How much room is left. */
    ghost function Room(): int
      reads this, data
      requires Valid()
    {
      (if size >= 2 then size - 1 else 0) - |Held(Model())|
    }

    method PutByte(v: int)
      requires Valid() && !Full(Model())
      modifies this`write, data
      ensures Valid() && Held(Model()) == old(Held(Model())) + [v] && Room() == old(Room()) - 1
    {
      PushHeld(Model(), v);
      data[write] := v;
      write := if write + 1 < size then write + 1 else 0;
      assert Model() == Push(old(Model()), v);
    }

    method TakeByte() returns (v: int)
      requires Valid() && !Empty(Model())
      modifies this`read
      ensures Valid() && old(Held(Model())) == [v] + Held(Model())
    {
      PopHeld(Model());
      v := data[read];
      read := if read + 1 < size then read + 1 else 0;
      assert Model() == Pop(old(Model()));
    }

    /**
     The write loop from the mutex to the release: it blocks exactly when it has something to write and found no
     room, and otherwise puts in as much as fits, at once.
     */
    method WriteBytes(buf: seq<int>) returns (i: int, blocked: bool)
      requires Valid()
      modifies this`write, data
      ensures Valid()
      ensures blocked <==> buf != [] && old(Room()) == 0
      ensures i == if |buf| <= old(Room()) then |buf| else old(Room())
      ensures Held(Model()) == old(Held(Model())) + buf[..i]
    {
      var written := false;
      i, blocked := 0, false;
      RingBounds(Model());
      ghost var held, room := Held(Model()), Room();
      while i < |buf|
        invariant Valid() && 0 <= i <= |buf| && written == (i > 0) && !blocked
        invariant Held(Model()) == held + buf[..i] && Room() == room - i >= 0
      {
        var next := if write + 1 < size then write + 1 else 0;
        RingBounds(Model());
        if next == read {
          blocked := !written;
          return;
        }
        PutByte(buf[i]);
        RingBounds(Model());
        AppendOne(held, buf, i);
        i, written := i + 1, true;
      }
    }

    /**
     The read loop from the mutex to the release: it blocks exactly when it wants something and found an empty
     open stream, and otherwise takes as much as is there, at once.
     */
    method ReadBytes(n: nat) returns (out: seq<int>, blocked: bool)
      requires Valid()
      modifies this`read
      ensures Valid()
      ensures blocked <==> n > 0 && old(Held(Model())) == [] && !closed
      ensures |out| == if n <= |old(Held(Model()))| then n else |old(Held(Model()))|
      ensures old(Held(Model())) == out + Held(Model())
    {
      var got := false;
      out, blocked := [], false;
      ghost var held := Held(Model());
      while |out| < n
        invariant Valid() && |out| <= n && got == (out != []) && !blocked
        invariant held == out + Held(Model())
        decreases n - |out|
      {
        RingBounds(Model());
        if read == write {
          blocked := !got && !closed;
          return;
        }
        var v := TakeByte();
        MoveOne(out, v, Held(Model()));
        out, got := out + [v], true;
      }
    }
  }
}
