/**
 The waiting list threaded through the threads themselves: each holds the next in line.
 */
module WaitingLists {
  class Thread {
    var nextWaiting: Thread?
    var blocking: bool

    constructor ()
      ensures nextWaiting == null && !blocking
    {
      nextWaiting, blocking := null, false;
    }

    /** The exchange that says what the flag was. */
    method SetBlocking(b: bool) returns (was: bool)
      modifies this`blocking
      ensures blocking == b && was == old(blocking)
    {
      was := blocking;
      blocking := b;
    }
  }

  class WaitingList {
    var waiting: Thread?
    ghost var queue: seq<Thread>

    ghost predicate Valid()
      reads this, queue
    {
      && waiting == At(queue, 0)
      && (forall i, j :: 0 <= i < j < |queue| ==> queue[i] != queue[j])
      && (forall i {:trigger queue[i].nextWaiting} :: 0 <= i < |queue| ==> queue[i].nextWaiting == At(queue, i + 1))
    }

    static ghost function At(q: seq<Thread>, i: nat): Thread? { if i < |q| then q[i] else null }

    constructor ()
      ensures Valid() && queue == []
    {
      waiting, queue := null, [];
    }

    /** The end of the line is found by walking it. */
    method Last() returns (t: Thread)
      requires Valid() && queue != []
      ensures t == queue[|queue| - 1]
    {
      t := waiting;
      ghost var i := 0;
      while t.nextWaiting != null
        invariant 0 <= i < |queue| && t == queue[i]
        decreases |queue| - i
      {
        t := t.nextWaiting;
        i := i + 1;
      }
    }

    /** A thread joins at the end. It must not be in a line already, which its null link says. */
    method AddBlockedThread(t: Thread)
      requires Valid() && t !in queue && t.nextWaiting == null
      modifies this, t`blocking, if queue == [] then {} else {queue[|queue| - 1]}
      ensures Valid() && queue == old(queue) + [t] && t.blocking
      ensures forall u :: u in old(queue) ==> u.blocking == old(u.blocking)
    {
      if waiting == null {
        waiting := t;
      } else {
        var last := Last();
        last.nextWaiting := t;
      }
      queue := queue + [t];
      var was := t.SetBlocking(true);
    }

    /**
     Takes the first thread whose flag is set out of the line, with a clear flag and a null link, for scheduling.
     The `k` threads before it leave the line with it, but keep their links.
     */
    method UnblockNextThread() returns (woken: Thread?, ghost k: nat)
      requires Valid()
      modifies this, queue
      ensures Valid() && k <= |old(queue)|
      ensures forall i :: 0 <= i < k ==> !old(queue[i].blocking)
      ensures k < |old(queue)| ==> old(queue[k].blocking)
      ensures k == |old(queue)| ==> woken == null && queue == []
      ensures k < |old(queue)| ==>
                && woken == old(queue)[k] && queue == old(queue)[k + 1..]
                && !woken.blocking && woken.nextWaiting == null
      ensures forall u :: u in old(queue) && u != woken ==>
          u.blocking == old(u.blocking) && u.nextWaiting == old(u.nextWaiting)
    {
      k := SkipUnblocked();
      woken := null;
      if waiting != null {
        woken := waiting;
        waiting := waiting.nextWaiting;
        queue := queue[1..];
        woken.nextWaiting := null;
      }
    }

    /** Clears flags from the front until one was set; that thread is then first. */
    method SkipUnblocked() returns (ghost k: nat)
      requires Valid()
      modifies this, queue`blocking
      ensures k <= |old(queue)| && queue == old(queue)[k..] && Valid()
      ensures forall i :: 0 <= i < k ==> !old(queue[i].blocking)
      ensures k < |old(queue)| ==> old(queue[k].blocking) && !queue[0].blocking
      ensures forall u :: u in old(queue) && (queue == [] || u != queue[0]) ==> u.blocking == old(u.blocking)
    {
      ghost var q := queue;
      k := 0;
      while waiting != null
        invariant k <= |q| && q == old(queue) && queue == q[k..] && Valid()
        invariant forall i :: 0 <= i < k ==> !old(q[i].blocking)
        invariant forall u :: u in q ==> u.blocking == old(u.blocking)
        decreases |q| - k
      {
        var was := waiting.SetBlocking(false);
        if was {
          return;
        }
        waiting := waiting.nextWaiting;
        queue := queue[1..];
        k := k + 1;
      }
    }

    /** Empties the line for scheduling, in order, with clear flags and null links. */
    method UnblockAllThreads() returns (woken: seq<Thread>)
      requires Valid()
      modifies this, queue
      ensures Valid() && queue == [] && woken == old(queue)
      ensures forall u :: u in woken ==> !u.blocking && u.nextWaiting == null
    {
      ghost var q := queue;
      woken := [];
      while waiting != null
        invariant |woken| <= |q| && woken == q[..|woken|] && queue == q[|woken|..] && Valid()
        invariant forall i :: 0 <= i < |woken| ==> !q[i].blocking && q[i].nextWaiting == null
        invariant forall i, j :: 0 <= i < j < |q| ==> q[i] != q[j]
        decreases |q| - |woken|
      {
        var t := UnblockFirst();
        woken := woken + [t];
      }
    }

    method UnblockFirst() returns (t: Thread)
      requires Valid() && queue != []
      modifies this, queue[0]
      ensures Valid() && t == old(queue)[0] && queue == old(queue)[1..]
      ensures !t.blocking && t.nextWaiting == null
    {
      t := waiting;
      var was := t.SetBlocking(false);
      waiting := t.nextWaiting;
      queue := queue[1..];
      t.nextWaiting := null;
    }
  }
}
