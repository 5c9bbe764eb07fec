/**
 The HPET timer queue: callbacks sorted by deadline, and a comparator armed for the first.
 Counters and deadlines are unsigned 64-bit; `f` is the number of counter ticks in a microsecond.
 */
module Timers {

  const W: int := 0x1_0000_0000_0000_0000

  datatype Timer = Timer(deadline: int, id: int)

  /** A callback that ran, and the counter value at which it did. */
  datatype Fired = Fired(timer: Timer, at: int)

  datatype State = State(queue: seq<Timer>, comparator: int)

  // ---------------------------------------------------------------- deadlines

  function Deadline(counter: int, us: int, f: int): int
    requires f > 0
  {
    ((counter / f + us) * f) % W
  }

  lemma DivBounds(c: int, f: int)
    requires f > 0 && c >= 0
    ensures 0 <= c / f * f <= c < c / f * f + f
  {
  }

  lemma Spread(q: int, us: int, f: int)
    ensures (q + us) * f == q * f + us * f
    ensures (us - 1) * f == us * f - f
  {
  }

  lemma ModApart(t: int, c: int, f: int, top: int)
    requires t >= 0 && 0 < f < W && top - f < t <= top
    ensures top - f < t % W <= top <==> t < W
  {
    if t >= W {
      assert t % W <= t - W;
    }
  }

  /**
   A request of `us` microseconds at counter `c` has a deadline no later than that and less than one microsecond
   early, exactly if the deadline fits in 64 bits.
   */
  lemma DeadlineWindow(c: int, us: int, f: int)
    requires 0 <= c < W && 0 <= us < W && 0 < f < W
    ensures c + (us - 1) * f < Deadline(c, us, f) <= c + us * f <==> (c / f + us) * f < W
  {
    var q := c / f;
    DivBounds(c, f);
    Spread(q, us, f);
    Positive(us, f);
    ModApart((q + us) * f, c, f, c + us * f);
  }

  lemma Positive(a: int, b: int)
    requires a >= 0 && b >= 0
    ensures a * b >= 0
  {
  }

  // ---------------------------------------------------------------- the queue

  ghost predicate Sorted(q: seq<Timer>) { forall i, j :: 0 <= i < j < |q| ==> q[i].deadline <= q[j].deadline }

  /** The first entry from `n` on that is due no earlier than `d`. */
  function Place(q: seq<Timer>, d: int, n: nat): (i: nat)
    requires n <= |q|
    ensures n <= i <= |q| && (i < |q| ==> q[i].deadline >= d)
    ensures forall k :: n <= k < i ==> q[k].deadline < d
    decreases |q| - n
  {
    if n == |q| || q[n].deadline >= d then n else Place(q, d, n + 1)
  }

  function InsertAt<T>(q: seq<T>, i: nat, x: T): (r: seq<T>)
    requires i <= |q|
    ensures |r| == |q| + 1
    ensures forall k :: 0 <= k < |r| ==> r[k] == if k < i then q[k] else if k == i then x else q[k - 1]
  {
    q[..i] + [x] + q[i..]
  }

  function Insert(s: State, t: Timer): State {
    var i := Place(s.queue, t.deadline, 0);
    State(InsertAt(s.queue, i, t), if i == 0 then t.deadline else s.comparator)
  }

  /** How many entries at the front are due. */
  function Due(q: seq<Timer>, counter: int): (n: nat)
    ensures n <= |q| && (n < |q| ==> q[n].deadline > counter)
    ensures forall k :: 0 <= k < n ==> q[k].deadline <= counter
  {
    if q == [] || q[0].deadline > counter then 0 else 1 + Due(q[1..], counter)
  }

  lemma {:induction false} DueIs(q: seq<Timer>, counter: int, n: nat)
    requires n <= |q| && (n < |q| ==> q[n].deadline > counter)
    requires forall k :: 0 <= k < n ==> q[k].deadline <= counter
    ensures Due(q, counter) == n
  {
    var d := Due(q, counter);
    assert !(d < n);
    assert !(n < d);
  }

  function Process(s: State, counter: int): State {
    var rest := s.queue[Due(s.queue, counter)..];
    State(rest, if rest == [] then s.comparator else rest[0].deadline)
  }

  ghost predicate Valid(s: State) {
    Sorted(s.queue) && (s.queue != [] ==> s.comparator == s.queue[0].deadline)
  }

  lemma InsertCounts<T>(q: seq<T>, i: nat, x: T)
    requires i <= |q|
    ensures multiset(InsertAt(q, i, x)) == multiset(q) + multiset{x}
  {
    assert q == q[..i] + q[i..];
  }

  lemma InsertSorted(q: seq<Timer>, i: nat, t: Timer)
    requires Sorted(q) && i <= |q| && (i < |q| ==> q[i].deadline >= t.deadline)
    requires forall k :: 0 <= k < i ==> q[k].deadline < t.deadline
    ensures Sorted(InsertAt(q, i, t))
  {
    var r := InsertAt(q, i, t);
    forall a, b | 0 <= a < b < |r| ensures r[a].deadline <= r[b].deadline {
      assert b > i ==> q[i].deadline <= q[b - 1].deadline || i == b - 1;
    }
  }

  lemma InsertValid(s: State, t: Timer)
    requires Valid(s)
    ensures Valid(Insert(s, t))
    ensures multiset(Insert(s, t).queue) == multiset(s.queue) + multiset{t}
  {
    var i := Place(s.queue, t.deadline, 0);
    InsertSorted(s.queue, i, t);
    InsertCounts(s.queue, i, t);
  }

  /** Exactly the due entries fire, in order of deadline, and the comparator is armed for the first that did not. */
  lemma {:induction false} ProcessExact(s: State, counter: int)
    requires Valid(s)
    ensures var n, s' := Due(s.queue, counter), Process(s, counter);
      && Valid(s')
      && s.queue == s.queue[..n] + s'.queue && Sorted(s.queue[..n])
      && (forall t :: t in s.queue[..n] ==> t.deadline <= counter)
      && (forall t :: t in s'.queue ==> t.deadline > counter)
      && (s'.queue != [] ==> s'.comparator > counter)
  {
  }

  // ---------------------------------------------------------------- every run

  /**
   The interrupt handler is a sequence of steps, for callbacks run with interrupts on and may request timers
   themselves: it reads the counter, takes and runs the head as long as that is due, and arms the comparator.
   */
  datatype Act = Wait(counter: int, us: int, id: int) | Begin(counter: int) | Fire | Arm

  datatype Phase = Idle | Firing(counter: int)

  datatype Run = Run(s: State, phase: Phase, asked: seq<Timer>, fired: seq<Fired>)

  predicate HeadDue(s: State, counter: int) { s.queue != [] && s.queue[0].deadline <= counter }

  predicate Enabled(r: Run, a: Act) {
    match a
    case Wait(_, _, _) => true
    case Begin(_) => r.phase.Idle?
    case Fire => r.phase.Firing? && HeadDue(r.s, r.phase.counter)
    case Arm => r.phase.Firing? && !HeadDue(r.s, r.phase.counter)
  }

  function ArmHead(s: State): State { if s.queue == [] then s else s.(comparator := s.queue[0].deadline) }

  function Step(r: Run, a: Act, f: int): Run
    requires f > 0 && Enabled(r, a)
  {
    match a
    case Wait(c, us, id) =>
      var t := Timer(Deadline(c, us, f), id);
      r.(s := Insert(r.s, t), asked := r.asked + [t])
    case Begin(c) => r.(phase := Firing(c))
    case Fire => r.(s := r.s.(queue := r.s.queue[1..]), fired := r.fired + [Fired(r.s.queue[0], r.phase.counter)])
    case Arm => r.(s := ArmHead(r.s), phase := Idle)
  }

  ghost function Timed(q: seq<Fired>): seq<Timer> {
    seq(|q|, i requires 0 <= i < |q| => q[i].timer)
  }

  /**
   The queue is sorted, and outside the handler the comparator is armed for its head. Every request is queued or has
   fired, once; none fired before its deadline.
   */
  ghost predicate RunOk(r: Run) {
    && Sorted(r.s.queue) && (r.phase.Idle? ==> Valid(r.s))
    && multiset(r.asked) == multiset(r.s.queue) + multiset(Timed(r.fired))
    && (forall i :: 0 <= i < |r.fired| ==> r.fired[i].timer.deadline <= r.fired[i].at)
  }

  lemma FireOk(r: Run, f: int)
    requires RunOk(r) && f > 0 && Enabled(r, Fire)
    ensures RunOk(Step(r, Fire, f))
  {
    var q := r.s.queue;
    assert q == [q[0]] + q[1..];
    assert Timed(r.fired + [Fired(q[0], r.phase.counter)]) == Timed(r.fired) + [q[0]];
    FireCounts(multiset(Timed(r.fired)), q);
  }

  lemma FireCounts(m: multiset<Timer>, q: seq<Timer>)
    requires q != []
    ensures multiset(q) + m == multiset(q[1..]) + (m + multiset{q[0]})
  {
    assert q == [q[0]] + q[1..];
  }

  lemma WaitOk(r: Run, t: Timer)
    requires RunOk(r)
    ensures RunOk(r.(s := Insert(r.s, t), asked := r.asked + [t]))
  {
    var i := Place(r.s.queue, t.deadline, 0);
    InsertSorted(r.s.queue, i, t);
    InsertCounts(r.s.queue, i, t);
    if r.phase.Idle? { InsertValid(r.s, t); }
  }

  lemma StepOk(r: Run, a: Act, f: int)
    requires RunOk(r) && f > 0 && Enabled(r, a)
    ensures RunOk(Step(r, a, f))
  {
    match a {
      case Wait(c, us, id) => WaitOk(r, Timer(Deadline(c, us, f), id));
      case Fire => FireOk(r, f);
      case _ =>
    }
  }

  ghost predicate IsRun(r: Run, acts: seq<Act>, f: int)
    requires f > 0
    decreases |acts|
  {
    acts == [] || (Enabled(r, acts[0]) && IsRun(Step(r, acts[0], f), acts[1..], f))
  }

  ghost function After(r: Run, acts: seq<Act>, f: int): Run
    requires f > 0 && IsRun(r, acts, f)
    decreases |acts|
  {
    if acts == [] then r else After(Step(r, acts[0], f), acts[1..], f)
  }

  lemma {:induction false} RunStaysOk(r: Run, acts: seq<Act>, f: int)
    requires RunOk(r) && f > 0 && IsRun(r, acts, f)
    ensures RunOk(After(r, acts, f))
    decreases |acts|
  {
    if acts != [] {
      StepOk(r, acts[0], f);
      RunStaysOk(Step(r, acts[0], f), acts[1..], f);
    }
  }

  function Quiet(comparator: int): Run { Run(State([], comparator), Idle, [], []) }

  /** From an empty queue, over every interleaving of requests and handler steps. */
  lemma {:induction false} EveryRunFires(comparator: int, acts: seq<Act>, f: int)
    requires f > 0 && IsRun(Quiet(comparator), acts, f)
    ensures RunOk(After(Quiet(comparator), acts, f))
  {
    RunStaysOk(Quiet(comparator), acts, f);
  }

  /**
   Whoever requests what meanwhile: a callback that fires has the least deadline queued, and none due is left at
   the end.
   */
  lemma {:induction false} FiresLeast(comparator: int, acts: seq<Act>, f: int, t: Timer)
    requires f > 0 && IsRun(Quiet(comparator), acts, f)
    requires var r := After(Quiet(comparator), acts, f); t in r.s.queue
    ensures var r := After(Quiet(comparator), acts, f);
      && (Enabled(r, Fire) ==> r.s.queue[0].deadline <= t.deadline)
      && (Enabled(r, Arm) ==> r.phase.counter < t.deadline && Step(r, Arm, f).s.comparator <= t.deadline)
  {
    RunStaysOk(Quiet(comparator), acts, f);
    var q := After(Quiet(comparator), acts, f).s.queue;
    var i :| 0 <= i < |q| && q[i] == t;
    assert i > 0 ==> q[0].deadline <= q[i].deadline;
  }

  /** The timers that the acts of a run ask for, in order. */
  function Requests(acts: seq<Act>, f: int): seq<Timer>
    requires f > 0
  {
    if acts == [] then []
    else (match acts[0]
          case Wait(c, us, id) => [Timer(Deadline(c, us, f), id)]
          case _ => [])
         + Requests(acts[1..], f)
  }

  /** The counter values that its handler steps work with: at each Fire, what the latest Begin read. */
  function Readings(acts: seq<Act>, last: int): seq<int> {
    if acts == [] then []
    else match acts[0]
         case Begin(c) => Readings(acts[1..], c)
         case Fire => [last] + Readings(acts[1..], last)
         case _ => Readings(acts[1..], last)
  }

  ghost function Times(q: seq<Fired>): seq<int> { seq(|q|, i requires 0 <= i < |q| => q[i].at) }

  lemma {:induction false} RunAsked(r: Run, acts: seq<Act>, f: int)
    requires f > 0 && IsRun(r, acts, f)
    ensures After(r, acts, f).asked == r.asked + Requests(acts, f)
    decreases |acts|
  {
    if acts != [] { RunAsked(Step(r, acts[0], f), acts[1..], f); }
  }

  lemma {:induction false} RunRead(r: Run, acts: seq<Act>, f: int, last: int)
    requires f > 0 && IsRun(r, acts, f) && (r.phase.Firing? ==> r.phase.counter == last)
    ensures Times(After(r, acts, f).fired) == Times(r.fired) + Readings(acts, last)
    decreases |acts|
  {
    if acts != [] {
      var r' := Step(r, acts[0], f);
      RunRead(r', acts[1..], f, if acts[0].Begin? then acts[0].counter else last);
      if acts[0].Fire? { assert Times(r'.fired) == Times(r.fired) + [last]; }
    }
  }

  /**
   Over every interleaving of requests and handler steps, what was asked for in the acts is queued or has fired, once
   each, and each fired at a counter value, read by the handler when it last began, that its deadline had passed.
   */
  lemma {:induction false} EveryRequestFires(comparator: int, acts: seq<Act>, f: int)
    requires f > 0 && IsRun(Quiet(comparator), acts, f)
    ensures var r := After(Quiet(comparator), acts, f);
      && multiset(Requests(acts, f)) == multiset(r.s.queue) + multiset(Timed(r.fired))
      && Times(r.fired) == Readings(acts, 0)
      && (forall i :: 0 <= i < |r.fired| ==> r.fired[i].timer.deadline <= Readings(acts, 0)[i])
  {
    RunStaysOk(Quiet(comparator), acts, f);
    RunAsked(Quiet(comparator), acts, f);
    RunRead(Quiet(comparator), acts, f, 0);
    var r := After(Quiet(comparator), acts, f);
    assert r.asked == Requests(acts, f);
    assert Times(r.fired) == Readings(acts, 0);
    forall i | 0 <= i < |r.fired| ensures r.fired[i].timer.deadline <= Readings(acts, 0)[i] {
      assert Times(r.fired)[i] == r.fired[i].at;
    }
  }

  function FireTimes(n: nat): seq<Act> { seq(n, _ => Fire) }

  /** With no request in between, the handler's steps are one processing of the queue. */
  lemma {:induction false} QuietProcess(r: Run, f: int, n: nat)
    requires f > 0 && r.phase.Firing? && n == Due(r.s.queue, r.phase.counter)
    ensures IsRun(r, FireTimes(n) + [Arm], f)
    ensures After(r, FireTimes(n) + [Arm], f).s == Process(r.s, r.phase.counter)
    ensures After(r, FireTimes(n) + [Arm], f).phase == Idle
    decreases n
  {
    var acts := FireTimes(n) + [Arm];
    if n == 0 {
      assert acts == [Arm] && acts[1..] == [];
      assert r.s.queue[0..] == r.s.queue;
    } else {
      assert acts[0] == Fire && acts[1..] == FireTimes(n - 1) + [Arm];
      var r' := Step(r, Fire, f);
      QuietProcess(r', f, n - 1);
      assert r.s.queue[1..][n - 1..] == r.s.queue[n..];
    }
  }

  /** An interrupt at counter `c`, with no request in between: the handler is one processing of the queue. */
  lemma {:induction false} InterruptProcesses(r: Run, f: int, c: int)
    requires f > 0 && r.phase.Idle?
    ensures var acts := [Begin(c)] + (FireTimes(Due(r.s.queue, c)) + [Arm]);
      IsRun(r, acts, f) && After(r, acts, f).s == Process(r.s, c) && After(r, acts, f).phase == Idle
  {
    var rest := FireTimes(Due(r.s.queue, c)) + [Arm];
    var acts := [Begin(c)] + rest;
    assert acts[0] == Begin(c) && acts[1..] == rest;
    QuietProcess(Step(r, Begin(c), f), f, Due(r.s.queue, c));
  }

  // ---------------------------------------------------------------- the code

  class Node {
    const timer: Timer
    var next: Node?

    constructor (timer: Timer)
      ensures this.timer == timer && next == null
    {
      this.timer := timer;
      next := null;
    }
  }

  ghost predicate Distinct(q: seq<Node>) { forall i, j :: 0 <= i < j < |q| ==> q[i] != q[j] }

  lemma InsertDistinct(q: seq<Node>, i: nat, x: Node)
    requires Distinct(q) && i <= |q| && x !in q
    ensures Distinct(InsertAt(q, i, x))
  {
  }

  class Hpet {
    const frequency: int
    var queuedCallbacks: Node?
    var comparator: int
    ghost var nodes: seq<Node>
    ghost var queue: seq<Timer>

    ghost predicate Linked()
      reads this, nodes
    {
      && frequency > 0 && |queue| == |nodes|
      && queuedCallbacks == At(nodes, 0)
      && Distinct(nodes)
      && (forall i {:trigger nodes[i].next} :: 0 <= i < |nodes| ==> nodes[i].next == At(nodes, i + 1))
      && (forall i {:trigger nodes[i].timer} :: 0 <= i < |nodes| ==> nodes[i].timer == queue[i])
    }

    static ghost function At(q: seq<Node>, i: nat): Node? { if i < |q| then q[i] else null }

    ghost function Model(): State
      reads this
    {
      State(queue, comparator)
    }

    constructor (frequency: int)
      requires frequency > 0
      ensures Linked() && queue == [] && this.frequency == frequency
    {
      this.frequency := frequency;
      queuedCallbacks, comparator, nodes, queue := null, 0, [], [];
    }

    /** The node to insert before, and the one before that. */
    method FindPlace(timestamp: int) returns (prev: Node?, current: Node?, ghost i: nat)
      requires Linked()
      ensures i == Place(queue, timestamp, 0)
      ensures current == At(nodes, i) && prev == (if i == 0 then null else nodes[i - 1])
    {
      prev, current, i := null, queuedCallbacks, 0;
      while current != null && current.timer.deadline < timestamp
        invariant i <= |nodes| && current == At(nodes, i) && prev == (if i == 0 then null else nodes[i - 1])
        invariant Place(queue, timestamp, 0) == Place(queue, timestamp, i)
        decreases |nodes| - i
      {
        prev := current;
        current := current.next;
        i := i + 1;
      }
    }

    method WaitFor(counter: int, us: int, id: int)
      requires Linked()
      modifies this, nodes
      ensures Linked() && Model() == Insert(old(Model()), Timer(Deadline(counter, us, frequency), id))
    {
      var timestamp := Deadline(counter, us, frequency);
      Enqueue(Timer(timestamp, id));
    }

    method Enqueue(t: Timer)
      requires Linked()
      modifies this, nodes
      ensures Linked() && Model() == Insert(old(Model()), t)
    {
      var prev, current, i := FindPlace(t.deadline);
      Splice(prev, current, t, i);
      if prev == null {
        comparator := t.deadline;
      }
    }

    /** Links a new node in between. */
    method Splice(prev: Node?, current: Node?, t: Timer, ghost i: nat)
      requires Linked() && i <= |nodes| && current == At(nodes, i) && prev == (if i == 0 then null else nodes[i - 1])
      modifies this`queuedCallbacks, this`nodes, this`queue, nodes
      ensures Linked() && queue == InsertAt(old(queue), i, t)
    {
      ghost var ns := nodes;
      var node := new Node(t);
      InsertDistinct(nodes, i, node);
      node.next := current;
      if prev == null {
        queuedCallbacks := node;
      } else {
        prev.next := node;
      }
      nodes, queue := InsertAt(nodes, i, node), InsertAt(queue, i, t);
      forall k | 0 <= k < |nodes| ensures nodes[k].next == At(nodes, k + 1) {
        if k < i {
          assert nodes[k] == ns[k] && old(ns[k].next) == At(ns, k + 1);
        } else if k > i {
          assert nodes[k] == ns[k - 1] && old(ns[k - 1].next) == At(ns, k);
        }
      }
    }

    method TakeFirst() returns (t: Timer)
      requires Linked() && queue != []
      modifies this`queuedCallbacks, this`nodes, this`queue
      ensures Linked() && t == old(queue)[0] && queue == old(queue)[1..]
    {
      t := queuedCallbacks.timer;
      queuedCallbacks := queuedCallbacks.next;
      nodes, queue := nodes[1..], queue[1..];
    }

    /** Runs every due callback from the front. */
    method FireDue(counter: int) returns (fired: seq<Timer>)
      requires Linked()
      modifies this`queuedCallbacks, this`nodes, this`queue
      ensures Linked() && |fired| == Due(old(queue), counter)
      ensures fired == old(queue)[..|fired|] && queue == old(queue)[|fired|..]
    {
      ghost var q := queue;
      fired := [];
      while queuedCallbacks != null && queuedCallbacks.timer.deadline <= counter
        invariant Linked() && |fired| <= |q| && fired == q[..|fired|] && queue == q[|fired|..]
        invariant forall k :: 0 <= k < |fired| ==> q[k].deadline <= counter
        decreases |q| - |fired|
      {
        assert queue[0] == q[|fired|] && queue[0].deadline <= counter;
        var t := TakeFirst();
        fired := fired + [t];
      }
      assert |fired| < |q| ==> queue[0] == q[|fired|];
      DueIs(q, counter, |fired|);
    }

    /** Runs what is due, then arms the comparator for the next. */
    method ProcessDue(counter: int) returns (fired: seq<Timer>)
      requires Linked()
      modifies this
      ensures Linked() && Model() == Process(old(Model()), counter)
      ensures fired == old(queue)[..Due(old(queue), counter)]
    {
      fired := FireDue(counter);
      if queuedCallbacks != null {
        comparator := queuedCallbacks.timer.deadline;
      }
    }
  }
}
