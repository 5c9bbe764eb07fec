/**
 Parents and children: fork, exit, wait and destruction, over the run queue of their threads.
 Every step is a region that nothing interrupts on one core. A process and its one thread share a number.
 */
module Processes {

  const NONE: int := -1

  datatype State = Running | Waiting | Stopped | PendingDestruction

  /**
   `finished` says the thread was killed, `inWait` that it is inside wait, `blocked` that it is on the process's own
   list of waiters for a child, and `locked` that wait returned holding the state lock. `deletes` counts deletions;
   the other fields of a deleted process keep what they held.
   */
  datatype Proc = Proc(
    state: State, parent: int, childs: seq<int>, status: int,
    finished: bool, inWait: bool, blocked: bool, locked: bool, deletes: int)

  /** A return from wait: who waited, whom it was told about, and the status it was given. */
  datatype Return = Return(parent: int, child: int, status: int)

  /**
   `doom` holds the children that running destructors have still to delete, `told` the returns from wait so far, and
   `codes` what each process passed to exit.
   */
  datatype Sys = Sys(
    procs: seq<Proc>, runq: seq<int>, current: int, doom: seq<int>, told: seq<Return>, codes: map<int, int>)

  datatype Act = Dispatch | Leave | Fork | Exit(code: int) | Wait | Crush

  predicate Dead(c: Proc) { c.deletes > 0 }

  // ---------------------------------------------------------------- the steps

  /** The first stopped child at or after `n`, or the number of children. */
  function FirstStopped(procs: seq<Proc>, childs: seq<int>, n: nat): (i: nat)
    requires n <= |childs| && forall k :: 0 <= k < |childs| ==> 0 <= childs[k] < |procs|
    ensures n <= i <= |childs|
    ensures i < |childs| ==> procs[childs[i]].state == Stopped
    ensures forall k :: n <= k < i ==> procs[childs[k]].state != Stopped
    decreases |childs| - n
  {
    if n == |childs| || procs[childs[n]].state == Stopped then n else FirstStopped(procs, childs, n + 1)
  }

  /** set_state(Stopped): a parent found waiting, if it is blocked, is unblocked and scheduled. */
  function SetStopped(s: Sys, p: int): Sys
    requires 0 <= p < |s.procs|
  {
    var q := s.procs[p := s.procs[p].(state := Stopped)];
    var f := s.procs[p].parent;
    if 0 <= f < |q| && q[f].state == Waiting && q[f].blocked then
      s.(procs := q[f := q[f].(blocked := false)], runq := s.runq + [f])
    else s.(procs := q)
  }

  /** Every process in a list has its thread killed. */
  function Kill(procs: seq<Proc>, cs: seq<int>): (r: seq<Proc>)
    ensures |r| == |procs|
    ensures forall i :: 0 <= i < |r| ==> r[i] == if i in cs then procs[i].(finished := true) else procs[i]
  {
    seq(|procs|, i requires 0 <= i < |procs| => if i in cs then procs[i].(finished := true) else procs[i])
  }

  /** The destructor: the children are killed, the process is gone, and the children are next. */
  function Delete(s: Sys, p: int): Sys
    requires 0 <= p < |s.procs|
  {
    var cs := s.procs[p].childs;
    var q := Kill(s.procs, cs);
    s.(procs := q[p := q[p].(deletes := q[p].deletes + 1)], doom := cs + s.doom)
  }

  /** What the scheduler does when entering a thread reports that it is finished. */
  function Retire(s: Sys, p: int): Sys
    requires 0 <= p < |s.procs|
  {
    if s.procs[p].state == PendingDestruction then Delete(s, p) else SetStopped(s, p)
  }

  /** A stopped child leaves the parent's list and its thread is scheduled once more. */
  function Reap(s: Sys, p: int, i: int): Sys
    requires 0 <= p < |s.procs| && 0 <= i < |s.procs[p].childs| && 0 <= s.procs[p].childs[i] < |s.procs|
  {
    var cs := s.procs[p].childs;
    var c := cs[i];
    var q := s.procs[c := s.procs[c].(state := PendingDestruction)];
    s.(procs := q[p := q[p].(state := Running, inWait := false, childs := cs[..i] + cs[i + 1..])],
       runq := s.runq + [c], told := s.told + [Return(p, c, s.procs[c].status)])
  }

  ghost predicate OnCore(s: Sys) { 0 <= s.current < |s.procs| }

  /** Stopping takes the state locks of the process and of its parent. */
  ghost predicate CanRetire(s: Sys, p: int)
    requires 0 <= p < |s.procs|
  {
    s.procs[p].state == PendingDestruction ||
    (!s.procs[p].locked && (0 <= s.procs[p].parent < |s.procs| ==> !s.procs[s.procs[p].parent].locked))
  }

  /**
   The core is in the scheduler or in one thread; destructors run in the scheduler, to their end first. There the wait
   for a child to stop returns at once, since no thread is on the core that could leave it: a child is deleted in
   whatever state it is. Taking a lock that is held never returns.
   */
  ghost predicate Enabled(s: Sys, a: Act) {
    match a
    case Dispatch =>
      && s.current == NONE && s.doom == [] && s.runq != [] && 0 <= s.runq[0] < |s.procs|
      && (s.procs[s.runq[0]].finished ==> CanRetire(s, s.runq[0]))
    case Leave => s.doom == [] && OnCore(s) && (s.procs[s.current].finished ==> CanRetire(s, s.current))
    case Fork => s.doom == [] && OnCore(s) && Free(s.procs[s.current])
    case Exit(_) => s.doom == [] && OnCore(s) && Free(s.procs[s.current])
    case Wait =>
      && s.doom == [] && OnCore(s)
      && var c := s.procs[s.current];
         && !c.finished && !c.blocked && !c.locked
         && (forall i :: 0 <= i < |c.childs| ==> 0 <= c.childs[i] < |s.procs|)
    case Crush => s.doom != [] && 0 <= s.doom[0] < |s.procs| && !s.procs[s.doom[0]].locked
  }

  /** A thread running its own code, outside wait. */
  predicate Free(c: Proc) { !c.finished && !c.inWait }

  function NewChild(p: int): Proc { Proc(Running, p, [], -1, false, false, false, false, 0) }

  function Step(s: Sys, a: Act): Sys
    requires Enabled(s, a)
  {
    var p := s.current;
    match a
    case Dispatch =>
      var t, s1 := s.runq[0], s.(runq := s.runq[1..]);
      if s.procs[t].finished || s.procs[t].state == PendingDestruction then Retire(s1, t) else s1.(current := t)
    case Leave =>
      var s1 := s.(current := NONE);
      if s.procs[p].finished then Retire(s1, p)
      else if s.procs[p].blocked then s1
      else s1.(runq := s.runq + [p])
    case Fork =>
      var n := |s.procs|;
      s.(procs := s.procs[p := s.procs[p].(childs := s.procs[p].childs + [n])] + [NewChild(p)], runq := s.runq + [n])
    case Exit(code) =>
      s.(procs := s.procs[p := s.procs[p].(status := code, finished := true)], codes := s.codes[p := code])
    case Wait =>
      var c := s.procs[p];
      var i := FirstStopped(s.procs, c.childs, 0);
      if c.childs == [] then s.(procs := s.procs[p := c.(locked := true)])
      else if i < |c.childs| then Reap(s, p, i)
      else s.(procs := s.procs[p := c.(state := Waiting, inWait := true, blocked := true)])
    case Crush => Delete(s.(doom := s.doom[1..]), s.doom[0])
  }

  // ---------------------------------------------------------------- the invariant

  /** How far a process has come: alive, stopped, reaped. */
  function Rank(st: State): int {
    match st
    case Running => 0
    case Waiting => 0
    case Stopped => 1
    case PendingDestruction => 2
  }

  ghost predicate Child(procs: seq<Proc>, p: int, i: int)
    requires 0 <= p < |procs| && 0 <= i < |procs[p].childs|
  {
    var c := procs[p].childs[i];
    && p < c < |procs| && procs[c].parent == p && Rank(procs[c].state) <= 1
    && (procs[p].blocked ==> procs[c].state != Stopped)
  }

  ghost predicate Distinct(q: seq<int>) { forall i, j :: 0 <= i < j < |q| ==> q[i] != q[j] }

  /** What a process's own fields say about each other. */
  predicate FieldsOk(c: Proc) {
    && (c.blocked ==> c.state == Waiting && c.childs != [])
    && (!Dead(c) ==> (c.inWait <==> c.state == Waiting))
    && (Rank(c.state) >= 1 || Dead(c) ==> c.finished)
    && 0 <= c.deletes <= 1
  }

  /** The parent of `p` was deleted. */
  predicate Orphan(procs: seq<Proc>, p: int)
    requires 0 <= p < |procs|
  {
    0 <= procs[p].parent < |procs| && Dead(procs[procs[p].parent])
  }

  /** Until it is reaped a process is in its parent's list, and only a reaped one or an orphan is deleted. */
  ghost predicate Listed(procs: seq<Proc>, p: int)
    requires 0 <= p < |procs|
  {
    var f := procs[p].parent;
    && (f == NONE || (0 <= f < p && (Rank(procs[p].state) <= 1 ==> p in procs[f].childs)))
    && (Dead(procs[p]) ==> procs[p].state == PendingDestruction || Orphan(procs, p))
  }

  ghost predicate ProcOk(procs: seq<Proc>, p: int)
    requires 0 <= p < |procs|
  {
    && FieldsOk(procs[p]) && Distinct(procs[p].childs) && Listed(procs, p)
    && (forall i :: 0 <= i < |procs[p].childs| ==> Child(procs, p, i))
  }

  ghost predicate ProcsOk(procs: seq<Proc>) { forall p :: 0 <= p < |procs| ==> ProcOk(procs, p) }

  /** An orphan that was not reaped is killed, and is deleted or about to be. */
  ghost predicate Settled(procs: seq<Proc>, doom: seq<int>, p: int)
    requires 0 <= p < |procs|
  {
    Orphan(procs, p) && Rank(procs[p].state) <= 1 ==> procs[p].finished && (Dead(procs[p]) || p in doom)
  }

  ghost predicate Doomed(procs: seq<Proc>, c: int) {
    0 <= c < |procs| && Rank(procs[c].state) <= 1 && Orphan(procs, c) && !Dead(procs[c])
  }

  ghost predicate DoomOk(procs: seq<Proc>, doom: seq<int>) {
    && Distinct(doom) && (forall i :: 0 <= i < |doom| ==> Doomed(procs, doom[i]))
    && (forall p :: 0 <= p < |procs| ==> Settled(procs, doom, p))
  }

  /** Whose thread is in the run queue: those not stopped, neither blocked nor on the core, and the reaped. */
  predicate Queued(c: Proc, running: bool) {
    (Rank(c.state) == 0 && !c.blocked && !running) || (c.state == PendingDestruction && !Dead(c))
  }

  /**
   A thread is in the run queue once or not at all; only a living process is on the core; and a killed thread of a
   process that has not stopped is on the core, about to leave it, or an orphan's.
   */
  ghost predicate QueueOk(procs: seq<Proc>, runq: seq<int>, current: int) {
    && Distinct(runq)
    && (forall i :: 0 <= i < |runq| ==> 0 <= runq[i] < |procs| && Queued(procs[runq[i]], runq[i] == current))
    && (forall t :: 0 <= t < |procs| && Queued(procs[t], t == current) ==> t in runq)
    && (current == NONE || CurrentOk(procs, current))
    && (forall t :: 0 <= t < |procs| && procs[t].finished && Rank(procs[t].state) == 0 ==>
          t == current || Orphan(procs, t))
  }

  predicate CurrentOk(procs: seq<Proc>, current: int) {
    && 0 <= current < |procs| && Rank(procs[current].state) == 0 && !Dead(procs[current])
    && (procs[current].finished ==> procs[current].state == Running)
  }

  ghost predicate ReturnOk(procs: seq<Proc>, codes: map<int, int>, r: Return) {
    && 0 <= r.child < |procs| && procs[r.child].parent == r.parent && Rank(procs[r.child].state) >= 2
    && r.child in codes && r.status == codes[r.child]
  }

  ghost predicate ReturnsOk(procs: seq<Proc>, codes: map<int, int>, told: seq<Return>) {
    && (forall k :: 0 <= k < |told| ==> ReturnOk(procs, codes, told[k]))
    && (forall j, k :: 0 <= j < k < |told| ==> told[j].child != told[k].child)
  }

  /** A killed process has the status it passed to exit, unless its parent's destructor killed it. */
  ghost predicate CodesOk(procs: seq<Proc>, codes: map<int, int>) {
    forall p :: 0 <= p < |procs| && procs[p].finished ==>
      Orphan(procs, p) || (p in codes && procs[p].status == codes[p])
  }

  ghost predicate Valid(s: Sys) {
    && ProcsOk(s.procs) && DoomOk(s.procs, s.doom) && QueueOk(s.procs, s.runq, s.current)
    && (s.doom != [] ==> s.current == NONE)
    && ReturnsOk(s.procs, s.codes, s.told) && CodesOk(s.procs, s.codes)
  }

  // ---------------------------------------------------------------- the family

  lemma ForkOk(procs: seq<Proc>, p: int)
    requires ProcsOk(procs) && 0 <= p < |procs| && !procs[p].blocked
    ensures ProcsOk(procs[p := procs[p].(childs := procs[p].childs + [|procs|])] + [NewChild(p)])
  {
    var n := |procs|;
    var q := procs[p := procs[p].(childs := procs[p].childs + [n])] + [NewChild(p)];
    assert q[p].childs[|procs[p].childs|] == n;
    forall u | 0 <= u < |q| ensures ProcOk(q, u) {
      if u < n {
        assert ProcOk(procs, u);
        forall i | 0 <= i < |procs[u].childs| ensures procs[u].childs[i] != n { assert Child(procs, u, i); }
        forall i | 0 <= i < |q[u].childs| ensures Child(q, u, i) {
          if i < |procs[u].childs| { assert Child(procs, u, i); }
        }
        var f := procs[u].parent;
        assert Listed(procs, u) && (f == p && u in procs[f].childs ==> u in q[f].childs);
      }
    }
  }

  /** A change to a living `p` that keeps its family and does not stop it. */
  lemma LocalOk(procs: seq<Proc>, p: int, c: Proc)
    requires ProcsOk(procs) && 0 <= p < |procs| && c.parent == procs[p].parent && c.childs == procs[p].childs
    requires FieldsOk(c) && Rank(c.state) == Rank(procs[p].state) == 0 && c.deletes == procs[p].deletes == 0
    requires c.blocked ==> forall i :: 0 <= i < |c.childs| && 0 <= c.childs[i] < |procs| ==>
                                         procs[c.childs[i]].state != Stopped
    ensures ProcsOk(procs[p := c])
  {
    var q := procs[p := c];
    forall u | 0 <= u < |q| ensures ProcOk(q, u) {
      assert ProcOk(procs, u) && Listed(procs, u);
      forall i | 0 <= i < |q[u].childs| ensures Child(q, u, i) { assert Child(procs, u, i); }
    }
  }

  lemma StopOk(s: Sys, p: int)
    requires ProcsOk(s.procs) && 0 <= p < |s.procs| && s.procs[p].finished && !s.procs[p].blocked
    requires s.procs[p].state == Running || (s.procs[p].state == Waiting && Dead(s.procs[p]))
    ensures ProcsOk(SetStopped(s, p).procs)
  {
    var procs, q := s.procs, SetStopped(s, p).procs;
    forall u | 0 <= u < |q| ensures ProcOk(q, u) {
      assert ProcOk(procs, u) && Listed(procs, u);
      forall i | 0 <= i < |q[u].childs| ensures Child(q, u, i) { assert Child(procs, u, i); }
    }
  }

  lemma ReapOk(s: Sys, p: int, i: int)
    requires ProcsOk(s.procs) && 0 <= p < |s.procs| && Rank(s.procs[p].state) == 0 && !Dead(s.procs[p])
    requires !s.procs[p].finished && !s.procs[p].blocked
    requires 0 <= i < |s.procs[p].childs| && 0 <= s.procs[p].childs[i] < |s.procs|
    requires s.procs[s.procs[p].childs[i]].state == Stopped
    ensures ProcsOk(Reap(s, p, i).procs)
  {
    var procs, q := s.procs, Reap(s, p, i).procs;
    var c := procs[p].childs[i];
    assert ProcOk(procs, p) && Child(procs, p, i) && ProcOk(procs, c);
    forall u | 0 <= u < |q| ensures ProcOk(q, u) {
      assert ProcOk(procs, u) && Listed(procs, u);
      forall k | 0 <= k < |q[u].childs| ensures Child(q, u, k) {
        var j := if u == p && k >= i then k + 1 else k;
        assert q[u].childs[k] == procs[u].childs[j] && Child(procs, u, j);
      }
      if u in procs[p].childs && u != c { KeptInList(procs[p].childs, i, u); }
    }
  }

  lemma KeptInList(cs: seq<int>, i: int, u: int)
    requires 0 <= i < |cs| && u in cs && u != cs[i]
    ensures u in cs[..i] + cs[i + 1..]
  {
  }

  /** May be deleted now: killed, not deleted yet, and reaped or an orphan. */
  ghost predicate Deletable(procs: seq<Proc>, p: int) {
    && 0 <= p < |procs| && procs[p].finished && !Dead(procs[p])
    && (procs[p].state == PendingDestruction || Orphan(procs, p))
  }

  lemma DeleteOk(s: Sys, p: int)
    requires ProcsOk(s.procs) && Deletable(s.procs, p)
    ensures ProcsOk(Delete(s, p).procs)
  {
    var procs, q := s.procs, Delete(s, p).procs;
    assert ProcOk(procs, p);
    forall i | 0 <= i < |procs[p].childs| ensures procs[p].childs[i] != p { assert Child(procs, p, i); }
    forall u | 0 <= u < |q| ensures ProcOk(q, u) {
      assert ProcOk(procs, u) && Listed(procs, u);
      forall i | 0 <= i < |q[u].childs| ensures Child(q, u, i) { assert Child(procs, u, i); }
    }
  }

  /** The children of a living process were not deleted and are not doomed. */
  lemma ChildrenFresh(procs: seq<Proc>, doom: seq<int>, p: int, i: int)
    requires ProcsOk(procs) && 0 <= p < |procs| && !Dead(procs[p]) && 0 <= i < |procs[p].childs|
    requires forall k :: 0 <= k < |doom| ==> Doomed(procs, doom[k])
    ensures Child(procs, p, i) && !Dead(procs[procs[p].childs[i]]) && procs[p].childs[i] !in doom
  {
    var c := procs[p].childs[i];
    assert ProcOk(procs, p) && Child(procs, p, i) && ProcOk(procs, c) && Listed(procs, c);
    forall k | 0 <= k < |doom| ensures doom[k] != c { assert Doomed(procs, doom[k]); }
  }

  lemma DistinctJoin(a: seq<int>, b: seq<int>)
    requires Distinct(a) && Distinct(b) && forall i :: 0 <= i < |a| ==> a[i] !in b
    ensures Distinct(a + b)
  {
    var d := a + b;
    forall i, j | 0 <= i < j < |d| ensures d[i] != d[j] {
      if i < |a| <= j { assert d[j] == b[j - |a|] && d[j] in b; }
    }
  }

  lemma StillDoomed(s: Sys, p: int, c: int)
    requires ProcsOk(s.procs) && 0 <= p < |s.procs| && !Dead(s.procs[p]) && c != p
    requires Doomed(s.procs, c) || c in s.procs[p].childs
    ensures Doomed(Delete(s, p).procs, c)
  {
    assert ProcOk(s.procs, p);
    if c in s.procs[p].childs {
      var i :| 0 <= i < |s.procs[p].childs| && s.procs[p].childs[i] == c;
      ChildrenFresh(s.procs, [], p, i);
    }
  }

  lemma DeleteDoom(s: Sys, p: int)
    requires ProcsOk(s.procs) && Deletable(s.procs, p) && p !in s.doom && Distinct(s.doom)
    requires forall i :: 0 <= i < |s.doom| ==> Doomed(s.procs, s.doom[i])
    ensures var s' := Delete(s, p); Distinct(s'.doom) && forall i :: 0 <= i < |s'.doom| ==> Doomed(s'.procs, s'.doom[i])
  {
    var cs, d := s.procs[p].childs, s.procs[p].childs + s.doom;
    assert ProcOk(s.procs, p);
    forall i | 0 <= i < |cs| ensures cs[i] != p && cs[i] !in s.doom { ChildrenFresh(s.procs, s.doom, p, i); }
    DistinctJoin(cs, s.doom);
    forall i | 0 <= i < |d| ensures Doomed(Delete(s, p).procs, d[i]) {
      if i < |cs| {
        assert d[i] == cs[i] && d[i] in cs;
      } else {
        assert d[i] == s.doom[i - |cs|] && Doomed(s.procs, s.doom[i - |cs|]) && d[i] in s.doom;
      }
      StillDoomed(s, p, d[i]);
    }
  }

  lemma DeleteSettles(s: Sys, p: int, u: int)
    requires ProcsOk(s.procs) && Deletable(s.procs, p) && 0 <= u < |s.procs|
    requires u == p || Settled(s.procs, s.doom, u)
    ensures Settled(Delete(s, p).procs, Delete(s, p).doom, u)
  {
    assert ProcOk(s.procs, p) && ProcOk(s.procs, u) && Listed(s.procs, u);
    forall i | 0 <= i < |s.procs[p].childs| ensures s.procs[p].childs[i] != p { assert Child(s.procs, p, i); }
  }

  /** A deletion, of a reaped process or of the next doomed one, keeps the family. */
  lemma DeleteFamily(s: Sys, p: int)
    requires ProcsOk(s.procs) && Deletable(s.procs, p) && p !in s.doom && Distinct(s.doom)
    requires forall i :: 0 <= i < |s.doom| ==> Doomed(s.procs, s.doom[i])
    requires forall u :: 0 <= u < |s.procs| && u != p ==> Settled(s.procs, s.doom, u)
    ensures ProcsOk(Delete(s, p).procs) && DoomOk(Delete(s, p).procs, Delete(s, p).doom)
  {
    DeleteOk(s, p);
    DeleteDoom(s, p);
    forall u | 0 <= u < |s.procs| ensures Settled(Delete(s, p).procs, Delete(s, p).doom, u) { DeleteSettles(s, p, u); }
  }

  /** What a popped thread can be, with no destructor running. */
  lemma Popped(s: Sys)
    requires ProcsOk(s.procs) && DoomOk(s.procs, s.doom) && QueueOk(s.procs, s.runq, s.current) && Enabled(s, Dispatch)
    ensures var c := s.procs[s.runq[0]];
      && (Dead(c) ==> c.finished && Rank(c.state) == 0 && !c.blocked)
      && (c.finished && !Dead(c) ==> c.state == PendingDestruction)
      && (!c.finished ==> Rank(c.state) == 0 && !c.blocked)
  {
    var t := s.runq[0];
    assert ProcOk(s.procs, t) && Queued(s.procs[t], t == s.current) && Settled(s.procs, s.doom, t);
  }

  lemma DispatchFamily(s: Sys)
    requires ProcsOk(s.procs) && DoomOk(s.procs, s.doom) && QueueOk(s.procs, s.runq, s.current) && Enabled(s, Dispatch)
    ensures ProcsOk(Step(s, Dispatch).procs) && DoomOk(Step(s, Dispatch).procs, Step(s, Dispatch).doom)
  {
    Popped(s);
    var t, s1 := s.runq[0], s.(runq := s.runq[1..]);
    if s.procs[t].state == PendingDestruction {
      assert ProcOk(s.procs, t);
      DeleteFamily(s1, t);
    } else if s.procs[t].finished {
      StopOk(s1, t);
      StopDoom(s1, t);
    }
  }

  lemma StopDoom(s: Sys, p: int)
    requires DoomOk(s.procs, s.doom) && 0 <= p < |s.procs| && Rank(s.procs[p].state) <= 1
    ensures DoomOk(SetStopped(s, p).procs, s.doom)
  {
    var q := SetStopped(s, p).procs;
    forall i | 0 <= i < |s.doom| ensures Doomed(q, s.doom[i]) { assert Doomed(s.procs, s.doom[i]); }
    forall u | 0 <= u < |q| ensures Settled(q, s.doom, u) { assert Settled(s.procs, s.doom, u); }
  }

  lemma LeaveFamily(s: Sys)
    requires ProcsOk(s.procs) && DoomOk(s.procs, s.doom) && QueueOk(s.procs, s.runq, s.current) && Enabled(s, Leave)
    ensures ProcsOk(Step(s, Leave).procs) && DoomOk(Step(s, Leave).procs, Step(s, Leave).doom)
  {
    assert ProcOk(s.procs, s.current);
    if s.procs[s.current].finished {
      StopOk(s.(current := NONE), s.current);
      StopDoom(s.(current := NONE), s.current);
    }
  }

  /** Nothing about deletion changed. */
  lemma SameDoom(procs: seq<Proc>, procs': seq<Proc>)
    requires DoomOk(procs, []) && |procs| <= |procs'|
    requires forall u :: 0 <= u < |procs| ==>
      && procs'[u].parent == procs[u].parent && procs'[u].deletes == procs[u].deletes
      && Rank(procs'[u].state) >= Rank(procs[u].state) && (procs[u].finished ==> procs'[u].finished)
    requires forall u :: |procs| <= u < |procs'| ==> !Orphan(procs', u)
    requires forall u :: 0 <= u < |procs| ==> procs[u].parent < |procs|
    ensures DoomOk(procs', [])
  {
    forall u | 0 <= u < |procs'| ensures Settled(procs', [], u) {
      if u < |procs| { assert Settled(procs, [], u); }
    }
  }

  lemma ParentsInRange(procs: seq<Proc>)
    requires ProcsOk(procs)
    ensures forall u :: 0 <= u < |procs| ==> procs[u].parent < |procs|
  {
    forall u | 0 <= u < |procs| ensures procs[u].parent < |procs| { assert ProcOk(procs, u) && Listed(procs, u); }
  }

  lemma ForkFamily(s: Sys)
    requires ProcsOk(s.procs) && DoomOk(s.procs, s.doom) && QueueOk(s.procs, s.runq, s.current) && Enabled(s, Fork)
    ensures ProcsOk(Step(s, Fork).procs) && DoomOk(Step(s, Fork).procs, Step(s, Fork).doom)
  {
    assert ProcOk(s.procs, s.current);
    ForkOk(s.procs, s.current);
    ParentsInRange(s.procs);
    SameDoom(s.procs, Step(s, Fork).procs);
  }

  lemma ExitFamily(s: Sys, code: int)
    requires ProcsOk(s.procs) && DoomOk(s.procs, s.doom) && QueueOk(s.procs, s.runq, s.current)
    requires Enabled(s, Exit(code))
    ensures ProcsOk(Step(s, Exit(code)).procs) && DoomOk(Step(s, Exit(code)).procs, Step(s, Exit(code)).doom)
  {
    assert ProcOk(s.procs, s.current);
    LocalOk(s.procs, s.current, s.procs[s.current].(status := code, finished := true));
    ParentsInRange(s.procs);
    SameDoom(s.procs, Step(s, Exit(code)).procs);
  }

  lemma ReapFamily(s: Sys, i: int)
    requires ProcsOk(s.procs) && DoomOk(s.procs, []) && QueueOk(s.procs, s.runq, s.current) && OnCore(s)
    requires !s.procs[s.current].finished && !s.procs[s.current].blocked && 0 <= i < |s.procs[s.current].childs|
    requires 0 <= s.procs[s.current].childs[i] < |s.procs| && s.procs[s.procs[s.current].childs[i]].state == Stopped
    ensures ProcsOk(Reap(s, s.current, i).procs) && DoomOk(Reap(s, s.current, i).procs, [])
  {
    ReapOk(s, s.current, i);
    assert ProcOk(s.procs, s.current) && Child(s.procs, s.current, i);
    ParentsInRange(s.procs);
    SameDoom(s.procs, Reap(s, s.current, i).procs);
  }

  lemma WaitFamily(s: Sys)
    requires ProcsOk(s.procs) && DoomOk(s.procs, s.doom) && QueueOk(s.procs, s.runq, s.current) && Enabled(s, Wait)
    ensures ProcsOk(Step(s, Wait).procs) && DoomOk(Step(s, Wait).procs, Step(s, Wait).doom)
  {
    var p := s.current;
    var c := s.procs[p];
    assert ProcOk(s.procs, p);
    var i := FirstStopped(s.procs, c.childs, 0);
    if c.childs != [] && i < |c.childs| {
      ReapFamily(s, i);
    } else {
      var d := if c.childs == [] then c.(locked := true) else c.(state := Waiting, inWait := true, blocked := true);
      LocalOk(s.procs, p, d);
      ParentsInRange(s.procs);
      SameDoom(s.procs, s.procs[p := d]);
    }
  }

  lemma CrushFamily(s: Sys)
    requires ProcsOk(s.procs) && DoomOk(s.procs, s.doom) && Enabled(s, Crush)
    ensures ProcsOk(Step(s, Crush).procs) && DoomOk(Step(s, Crush).procs, Step(s, Crush).doom)
  {
    var p, s1 := s.doom[0], s.(doom := s.doom[1..]);
    assert Doomed(s.procs, p) && Settled(s.procs, s.doom, p);
    forall u | 0 <= u < |s.procs| && u != p ensures Settled(s1.procs, s1.doom, u) {
      assert Settled(s.procs, s.doom, u);
    }
    DeleteFamily(s1, p);
  }

  lemma FamilyStep(s: Sys, a: Act)
    requires ProcsOk(s.procs) && DoomOk(s.procs, s.doom) && QueueOk(s.procs, s.runq, s.current) && Enabled(s, a)
    ensures ProcsOk(Step(s, a).procs) && DoomOk(Step(s, a).procs, Step(s, a).doom)
  {
    match a {
      case Dispatch => DispatchFamily(s);
      case Leave => LeaveFamily(s);
      case Fork => ForkFamily(s);
      case Exit(code) => ExitFamily(s, code);
      case Wait => WaitFamily(s);
      case Crush => CrushFamily(s);
    }
  }

  // ---------------------------------------------------------------- the run queue

  /** Nothing that decides who is queued changed. */
  lemma QueueSame(procs: seq<Proc>, procs': seq<Proc>, runq: seq<int>, current: int)
    requires QueueOk(procs, runq, current) && |procs'| == |procs|
    requires forall t :: 0 <= t < |procs| ==>
      && Queued(procs'[t], t == current) == Queued(procs[t], t == current)
      && (procs'[t].finished && Rank(procs'[t].state) == 0 ==> t == current || Orphan(procs', t))
    requires current == NONE || CurrentOk(procs', current)
    ensures QueueOk(procs', runq, current)
  {
  }

  lemma QueuePop(procs: seq<Proc>, runq: seq<int>)
    requires QueueOk(procs, runq, NONE) && runq != [] && CurrentOk(procs, runq[0])
    ensures QueueOk(procs, runq[1..], runq[0])
  {
    forall t | 0 <= t < |procs| && Queued(procs[t], t == runq[0]) ensures t in runq[1..] {
      assert t in runq && t != runq[0];
    }
  }

  /** Those that a deletion kills are orphans from then on. */
  lemma KilledAreOrphans(s: Sys, p: int)
    requires ProcsOk(s.procs) && 0 <= p < |s.procs|
    requires forall t :: 0 <= t < |s.procs| && s.procs[t].finished && Rank(s.procs[t].state) == 0 ==> Orphan(s.procs, t)
    ensures forall t :: 0 <= t < |s.procs| && Delete(s, p).procs[t].finished && Rank(s.procs[t].state) == 0 ==>
              Orphan(Delete(s, p).procs, t)
  {
    assert ProcOk(s.procs, p);
    var q, cs := Delete(s, p).procs, s.procs[p].childs;
    forall t | 0 <= t < |q| && q[t].finished && Rank(s.procs[t].state) == 0 ensures Orphan(q, t) {
      if t in cs {
        var i :| 0 <= i < |cs| && cs[i] == t;
        assert Child(s.procs, p, i);
      } else {
        assert Orphan(s.procs, t);
      }
    }
  }

  /** Deleting a doomed process leaves the run queue as it is, whatever the process was doing. */
  lemma QueueDelete(s: Sys, p: int)
    requires ProcsOk(s.procs) && QueueOk(s.procs, s.runq, NONE) && 0 <= p < |s.procs| && Rank(s.procs[p].state) <= 1
    ensures QueueOk(Delete(s, p).procs, s.runq, NONE)
  {
    KilledAreOrphans(s, p);
    QueueSame(s.procs, Delete(s, p).procs, s.runq, NONE);
  }

  /** The first thread leaves the queue, and no other belongs there or not for it. */
  lemma QueueDrop(procs: seq<Proc>, procs': seq<Proc>, runq: seq<int>)
    requires QueueOk(procs, runq, NONE) && runq != [] && |procs'| == |procs| && !Queued(procs'[runq[0]], false)
    requires forall t :: 0 <= t < |procs| && t != runq[0] ==> Queued(procs'[t], false) == Queued(procs[t], false)
    requires forall t :: 0 <= t < |procs| && procs'[t].finished && Rank(procs'[t].state) == 0 ==> Orphan(procs', t)
    ensures QueueOk(procs', runq[1..], NONE)
  {
    var p, r := runq[0], runq[1..];
    forall i | 0 <= i < |r| ensures 0 <= r[i] < |procs'| && Queued(procs'[r[i]], r[i] == NONE) {
      assert r[i] == runq[i + 1] && r[i] != p && Queued(procs[r[i]], r[i] == NONE);
    }
    forall t | 0 <= t < |procs'| && Queued(procs'[t], t == NONE) ensures t in r {
      assert t != p && Queued(procs[t], t == NONE) && t in runq;
    }
  }

  /** A thread enters the queue, and no other belongs there or not for it. */
  lemma QueueAdd(procs: seq<Proc>, procs': seq<Proc>, runq: seq<int>, c: int, current: int)
    requires QueueOk(procs, runq, current) && |procs'| == |procs| && 0 <= c < |procs|
    requires !Queued(procs[c], c == current) && Queued(procs'[c], c == current)
    requires forall t :: 0 <= t < |procs| && t != c ==>
        Queued(procs'[t], t == current) == Queued(procs[t], t == current)
    requires forall t :: 0 <= t < |procs| && procs'[t].finished && Rank(procs'[t].state) == 0 ==>
                           t == current || Orphan(procs', t)
    requires current == NONE || CurrentOk(procs', current)
    ensures QueueOk(procs', runq + [c], current)
  {
    var r := runq + [c];
    forall i | 0 <= i < |runq|
      ensures runq[i] != c && 0 <= runq[i] < |procs| && Queued(procs'[runq[i]], runq[i] == current)
    {
      assert Queued(procs[runq[i]], runq[i] == current);
    }
    forall t | 0 <= t < |procs'| && Queued(procs'[t], t == current) ensures t in r {
      assert t == c || (Queued(procs[t], t == current) && t in runq);
    }
  }

  lemma QueueDeletePopped(s: Sys, s1: Sys)
    requires ProcsOk(s.procs) && QueueOk(s.procs, s.runq, NONE) && s.runq != [] && s1.procs == s.procs
    requires s.procs[s.runq[0]].state == PendingDestruction
    ensures QueueOk(Delete(s1, s.runq[0]).procs, s.runq[1..], NONE)
  {
    var p := s.runq[0];
    KilledAreOrphans(s1, p);
    assert ProcOk(s.procs, p);
    QueueDrop(s.procs, Delete(s1, p).procs, s.runq);
  }

  /** The running thread leaves the core without being killed. */
  lemma QueueLeave(procs: seq<Proc>, runq: seq<int>, current: int)
    requires QueueOk(procs, runq, current) && 0 <= current < |procs| && !procs[current].finished
    ensures QueueOk(procs, if procs[current].blocked then runq else runq + [current], NONE)
  {
    assert current !in runq;
    var r := if procs[current].blocked then runq else runq + [current];
    forall t | 0 <= t < |procs| && Queued(procs[t], t == NONE) ensures t in r {
      if t == current { assert !procs[t].blocked; } else { assert Queued(procs[t], t == current) && t in runq; }
    }
  }

  /** A queue with `p` taken off its front, if it is there. */
  function Without(q: seq<int>, p: int): seq<int> { if q != [] && q[0] == p then q[1..] else q }

  lemma WithoutMembers(q: seq<int>, p: int)
    requires Distinct(q)
    ensures Distinct(Without(q, p)) && forall t :: t != p ==> (t in Without(q, p) <==> t in q)
    ensures p in Without(q, p) ==> q[0] != p && p in q
  {
  }

  /** A killed thread stops, off the core and out of the queue. */
  lemma QueueStop(procs: seq<Proc>, runq: seq<int>, p: int, current: int)
    requires QueueOk(procs, runq, current) && 0 <= p < |procs| && Rank(procs[p].state) == 0
    requires current == p || (current == NONE && runq != [] && p == runq[0])
    ensures QueueOk(procs[p := procs[p].(state := Stopped)], Without(runq, p), NONE)
  {
    WithoutMembers(runq, p);
    var q, r := procs[p := procs[p].(state := Stopped)], Without(runq, p);
    assert p !in r;
    forall i | 0 <= i < |r| ensures 0 <= r[i] < |q| && Queued(q[r[i]], r[i] == NONE) {
      assert r[i] in r && r[i] != p && r[i] in runq;
      assert Queued(procs[r[i]], r[i] == current);
    }
    forall t | 0 <= t < |q| && Queued(q[t], t == NONE) ensures t in r {
      assert t != p && Queued(procs[t], t == current) && t in runq;
    }
    forall t | 0 <= t < |q| && q[t].finished && Rank(q[t].state) == 0 ensures Orphan(q, t) {
      assert t != p && Orphan(procs, t);
    }
  }

  /** A blocked parent is unblocked and queued. */
  lemma QueueWake(procs: seq<Proc>, runq: seq<int>, f: int)
    requires QueueOk(procs, runq, NONE) && 0 <= f < |procs| && procs[f].state == Waiting && procs[f].blocked
    ensures QueueOk(procs[f := procs[f].(blocked := false)], runq + [f], NONE)
  {
    var q := procs[f := procs[f].(blocked := false)];
    forall t | 0 <= t < |q| && q[t].finished && Rank(q[t].state) == 0 ensures Orphan(q, t) {
      assert Orphan(procs, t);
    }
    QueueAdd(procs, q, runq, f, NONE);
  }

  lemma QueueStopped(s: Sys, s1: Sys, p: int)
    requires QueueOk(s.procs, s.runq, s.current) && 0 <= p < |s.procs| && Rank(s.procs[p].state) == 0
    requires s.current == p || (s.current == NONE && s.runq != [] && p == s.runq[0])
    requires s1.procs == s.procs && s1.runq == Without(s.runq, p)
    ensures QueueOk(SetStopped(s1, p).procs, SetStopped(s1, p).runq, NONE)
  {
    QueueStop(s.procs, s.runq, p, s.current);
    var q, f := s.procs[p := s.procs[p].(state := Stopped)], s.procs[p].parent;
    if 0 <= f < |q| && q[f].state == Waiting && q[f].blocked { QueueWake(q, s1.runq, f); }
  }

  lemma QueueFork(procs: seq<Proc>, runq: seq<int>, p: int)
    requires QueueOk(procs, runq, p) && 0 <= p < |procs|
    requires forall u :: 0 <= u < |procs| ==> procs[u].parent < |procs|
    ensures QueueOk(procs[p := procs[p].(childs := procs[p].childs + [|procs|])] + [NewChild(p)], runq + [|procs|], p)
  {
    var q := procs[p := procs[p].(childs := procs[p].childs + [|procs|])] + [NewChild(p)];
    forall t | 0 <= t < |q| && Queued(q[t], t == p) ensures t in runq + [|procs|] {
      assert t == |procs| || (Queued(procs[t], t == p) && t in runq);
    }
  }

  lemma QueueReap(s: Sys, i: int)
    requires ProcsOk(s.procs) && QueueOk(s.procs, s.runq, s.current) && OnCore(s) && !s.procs[s.current].finished
    requires 0 <= i < |s.procs[s.current].childs| && 0 <= s.procs[s.current].childs[i] < |s.procs|
    requires s.procs[s.procs[s.current].childs[i]].state == Stopped && !s.procs[s.current].blocked
    ensures QueueOk(Reap(s, s.current, i).procs, Reap(s, s.current, i).runq, s.current)
  {
    var p, q := s.current, Reap(s, s.current, i).procs;
    var c := s.procs[p].childs[i];
    ChildrenFresh(s.procs, [], p, i);
    forall t | 0 <= t < |q| && q[t].finished && Rank(q[t].state) == 0 ensures t == p || Orphan(q, t) {
      assert t == p || Orphan(s.procs, t);
    }
    QueueAdd(s.procs, q, s.runq, c, p);
  }

  lemma QueueWait(s: Sys)
    requires ProcsOk(s.procs) && QueueOk(s.procs, s.runq, s.current) && Enabled(s, Wait)
    ensures var s' := Step(s, Wait); QueueOk(s'.procs, s'.runq, s'.current)
  {
    var p, s' := s.current, Step(s, Wait);
    var i := FirstStopped(s.procs, s.procs[p].childs, 0);
    assert ProcOk(s.procs, p);
    if i < |s.procs[p].childs| {
      QueueReap(s, i);
    } else {
      QueueSame(s.procs, s'.procs, s.runq, p);
    }
  }

  lemma QueueDispatch(s: Sys)
    requires ProcsOk(s.procs) && DoomOk(s.procs, s.doom) && QueueOk(s.procs, s.runq, s.current) && Enabled(s, Dispatch)
    ensures var s' := Step(s, Dispatch); QueueOk(s'.procs, s'.runq, s'.current)
  {
    Popped(s);
    var t, s1, s' := s.runq[0], s.(runq := s.runq[1..]), Step(s, Dispatch);
    if s.procs[t].state == PendingDestruction {
      QueueDeletePopped(s, s1);
      assert s' == Delete(s1, t);
    } else if s.procs[t].finished {
      QueueStopped(s, s1, t);
      assert s' == SetStopped(s1, t) && s'.current == NONE;
    } else {
      QueuePop(s.procs, s.runq);
      assert s' == s1.(current := t);
    }
  }

  lemma QueueLeaves(s: Sys)
    requires ProcsOk(s.procs) && QueueOk(s.procs, s.runq, s.current) && Enabled(s, Leave)
    ensures var s' := Step(s, Leave); QueueOk(s'.procs, s'.runq, s'.current)
  {
    var p := s.current;
    assert ProcOk(s.procs, p) && p !in s.runq;
    if s.procs[p].finished {
      assert Without(s.runq, p) == s.runq;
      QueueStopped(s, s.(current := NONE), p);
    } else {
      QueueLeave(s.procs, s.runq, p);
    }
  }

  lemma QueueStep(s: Sys, a: Act)
    requires ProcsOk(s.procs) && DoomOk(s.procs, s.doom) && QueueOk(s.procs, s.runq, s.current) && Enabled(s, a)
    requires s.doom != [] ==> s.current == NONE
    ensures var s' := Step(s, a); QueueOk(s'.procs, s'.runq, s'.current)
  {
    var p := s.current;
    match a {
      case Dispatch => QueueDispatch(s);
      case Leave => QueueLeaves(s);
      case Fork =>
        ParentsInRange(s.procs);
        QueueFork(s.procs, s.runq, p);
      case Exit(code) =>
        assert ProcOk(s.procs, p);
        QueueSame(s.procs, Step(s, a).procs, s.runq, p);
      case Wait => QueueWait(s);
      case Crush =>
        assert Doomed(s.procs, s.doom[0]);
        QueueDelete(s.(doom := s.doom[1..]), s.doom[0]);
    }
  }

  // ---------------------------------------------------------------- stages

  ghost predicate ProcOnward(c: Proc, d: Proc) {
    && d.parent == c.parent && Rank(c.state) <= Rank(d.state) <= Rank(c.state) + 1
    && c.deletes <= d.deletes <= 1
    && (Rank(c.state) >= 1 || Dead(c) ==> d.status == c.status)
    && (Dead(d) && !Dead(c) ==> d.state == c.state)
  }

  /**
   Nobody goes back, skips a stage, changes parent, changes status once stopped or deleted, or is deleted twice.
   */
  ghost predicate Onward(procs: seq<Proc>, procs': seq<Proc>) {
    |procs| <= |procs'| && forall p :: 0 <= p < |procs| ==> ProcOnward(procs[p], procs'[p])
  }

  lemma OnwardDelete(s: Sys, p: int)
    requires ProcsOk(s.procs) && 0 <= p < |s.procs| && !Dead(s.procs[p])
    ensures Onward(s.procs, Delete(s, p).procs)
  {
    forall u | 0 <= u < |s.procs| ensures ProcOnward(s.procs[u], Delete(s, p).procs[u]) { assert ProcOk(s.procs, u); }
  }

  lemma OnwardStop(s: Sys, p: int)
    requires ProcsOk(s.procs) && 0 <= p < |s.procs| && Rank(s.procs[p].state) == 0
    ensures Onward(s.procs, SetStopped(s, p).procs)
  {
    forall u | 0 <= u < |s.procs| ensures ProcOnward(s.procs[u], SetStopped(s, p).procs[u]) {
      assert ProcOk(s.procs, u);
    }
  }

  lemma OnwardWait(s: Sys)
    requires ProcsOk(s.procs) && QueueOk(s.procs, s.runq, s.current) && Enabled(s, Wait)
    ensures Onward(s.procs, Step(s, Wait).procs)
  {
    var p, q := s.current, Step(s, Wait).procs;
    assert ProcOk(s.procs, p);
    var i := FirstStopped(s.procs, s.procs[p].childs, 0);
    if i < |s.procs[p].childs| { assert Child(s.procs, p, i); }
    forall u | 0 <= u < |s.procs| ensures ProcOnward(s.procs[u], q[u]) { assert ProcOk(s.procs, u); }
  }

  lemma OnwardOwn(s: Sys, a: Act)
    requires ProcsOk(s.procs) && QueueOk(s.procs, s.runq, s.current) && Enabled(s, a) && (a.Fork? || a.Exit?)
    ensures Onward(s.procs, Step(s, a).procs)
  {
    forall u | 0 <= u < |s.procs| ensures ProcOnward(s.procs[u], Step(s, a).procs[u]) { assert ProcOk(s.procs, u); }
  }

  lemma OnwardSame(procs: seq<Proc>)
    requires ProcsOk(procs)
    ensures Onward(procs, procs)
  {
    forall u | 0 <= u < |procs| ensures ProcOnward(procs[u], procs[u]) { assert ProcOk(procs, u); }
  }

  lemma StepOnward(s: Sys, a: Act)
    requires ProcsOk(s.procs) && DoomOk(s.procs, s.doom) && QueueOk(s.procs, s.runq, s.current) && Enabled(s, a)
    ensures Onward(s.procs, Step(s, a).procs)
  {
    match a {
      case Dispatch =>
        Popped(s);
        var t, s1 := s.runq[0], s.(runq := s.runq[1..]);
        if s.procs[t].state == PendingDestruction {
          OnwardDelete(s1, t);
        } else if s.procs[t].finished {
          OnwardStop(s1, t);
        } else {
          OnwardSame(s.procs);
        }
      case Leave =>
        if s.procs[s.current].finished { OnwardStop(s.(current := NONE), s.current); } else { OnwardSame(s.procs); }
      case Fork => OnwardOwn(s, a);
      case Exit(_) => OnwardOwn(s, a);
      case Wait => OnwardWait(s);
      case Crush =>
        assert Doomed(s.procs, s.doom[0]);
        OnwardDelete(s.(doom := s.doom[1..]), s.doom[0]);
    }
  }

  // ---------------------------------------------------------------- returns and codes

  lemma ReturnsKept(procs: seq<Proc>, procs': seq<Proc>, codes: map<int, int>, codes': map<int, int>, told: seq<Return>)
    requires ReturnsOk(procs, codes, told) && Onward(procs, procs')
    requires forall c :: c in codes && 0 <= c < |procs| && Rank(procs[c].state) >= 2 ==>
        c in codes' && codes'[c] == codes[c]
    ensures ReturnsOk(procs', codes', told)
  {
    forall k | 0 <= k < |told| ensures ReturnOk(procs', codes', told[k]) {
      assert ReturnOk(procs, codes, told[k]) && ProcOnward(procs[told[k].child], procs'[told[k].child]);
    }
  }

  lemma ReturnsReap(s: Sys, i: int)
    requires ProcsOk(s.procs) && QueueOk(s.procs, s.runq, s.current) && CodesOk(s.procs, s.codes) && OnCore(s)
    requires ReturnsOk(s.procs, s.codes, s.told) && ReturnsOk(ReapedAt(s, i).procs, s.codes, s.told)
    requires 0 <= i < |s.procs[s.current].childs| && 0 <= s.procs[s.current].childs[i] < |s.procs|
    requires s.procs[s.procs[s.current].childs[i]].state == Stopped
    ensures ReturnsOk(ReapedAt(s, i).procs, s.codes, ReapedAt(s, i).told)
  {
    var p := s.current;
    var c := s.procs[p].childs[i];
    ChildrenFresh(s.procs, [], p, i);
    assert ProcOk(s.procs, c) && !Orphan(s.procs, c);
    forall k | 0 <= k < |s.told| ensures s.told[k].child != c { assert ReturnOk(s.procs, s.codes, s.told[k]); }
  }

  ghost function ReapedAt(s: Sys, i: int): Sys
    requires OnCore(s)
  {
    if 0 <= i < |s.procs[s.current].childs| && 0 <= s.procs[s.current].childs[i] < |s.procs|
        then Reap(s, s.current, i) else s
  }

  lemma ReturnsStep(s: Sys, a: Act)
    requires ProcsOk(s.procs) && DoomOk(s.procs, s.doom) && QueueOk(s.procs, s.runq, s.current) && Enabled(s, a)
    requires ReturnsOk(s.procs, s.codes, s.told) && CodesOk(s.procs, s.codes)
    ensures ReturnsOk(Step(s, a).procs, Step(s, a).codes, Step(s, a).told)
  {
    StepOnward(s, a);
    ReturnsKept(s.procs, Step(s, a).procs, s.codes, Step(s, a).codes, s.told);
    if a == Wait {
      var i := FirstStopped(s.procs, s.procs[s.current].childs, 0);
      if i < |s.procs[s.current].childs| { ReturnsReap(s, i); }
    }
  }

  lemma CodesStep(s: Sys, a: Act)
    requires ProcsOk(s.procs) && DoomOk(s.procs, s.doom) && QueueOk(s.procs, s.runq, s.current) && Enabled(s, a)
    requires CodesOk(s.procs, s.codes)
    ensures CodesOk(Step(s, a).procs, Step(s, a).codes)
  {
    StepOnward(s, a);
    var s' := Step(s, a);
    forall p | 0 <= p < |s'.procs| && s'.procs[p].finished
      ensures Orphan(s'.procs, p) || (p in s'.codes && s'.procs[p].status == s'.codes[p])
    {
      if a.Exit? && p == s.current {
        assert s'.procs[p].status == a.code;
      } else {
        FinishedBefore(s, a, p);
        StatusKept(s, a, p);
        if Orphan(s.procs, p) { OrphansStay(s.procs, s'.procs, p); }
      }
    }
  }

  /** A thread that is finished was so before, or exited, or its parent was just deleted. */
  lemma FinishedBefore(s: Sys, a: Act, p: int)
    requires ProcsOk(s.procs) && DoomOk(s.procs, s.doom) && QueueOk(s.procs, s.runq, s.current) && Enabled(s, a)
    requires 0 <= p < |Step(s, a).procs| && Step(s, a).procs[p].finished && !(a.Exit? && p == s.current)
    ensures p < |s.procs| && (s.procs[p].finished || Orphan(Step(s, a).procs, p))
  {
    match a {
      case Dispatch =>
        Popped(s);
        KilledOrSame(s.(runq := s.runq[1..]), s.runq[0], p);
      case Crush => KilledOrSame(s.(doom := s.doom[1..]), s.doom[0], p);
      case Leave =>
      case Fork =>
      case Exit(_) =>
      case Wait =>
    }
  }

  /** The status changes only at exit. */
  lemma StatusKept(s: Sys, a: Act, p: int)
    requires Enabled(s, a) && 0 <= p < |s.procs| && !(a.Exit? && p == s.current)
    ensures p < |Step(s, a).procs| && Step(s, a).procs[p].status == s.procs[p].status
  {
    match a {
      case Dispatch => RetireKeeps(s.(runq := s.runq[1..]), s.runq[0], p);
      case Leave => RetireKeeps(s.(current := NONE), s.current, p);
      case Fork =>
      case Exit(_) =>
      case Wait =>
      case Crush =>
    }
  }

  lemma OrphansStay(procs: seq<Proc>, procs': seq<Proc>, p: int)
    requires Onward(procs, procs') && 0 <= p < |procs| && Orphan(procs, p)
    ensures Orphan(procs', p)
  {
    assert ProcOnward(procs[p], procs'[p]) && ProcOnward(procs[procs[p].parent], procs'[procs[p].parent]);
  }

  lemma KilledOrSame(s: Sys, t: int, p: int)
    requires ProcsOk(s.procs) && 0 <= t < |s.procs| && 0 <= p < |s.procs|
    ensures Delete(s, t).procs[p].finished ==> s.procs[p].finished || Orphan(Delete(s, t).procs, p)
  {
    assert ProcOk(s.procs, t);
    var cs := s.procs[t].childs;
    if p in cs {
      var i :| 0 <= i < |cs| && cs[i] == p;
      assert Child(s.procs, t, i);
    }
  }

  lemma StepValid(s: Sys, a: Act)
    requires Valid(s) && Enabled(s, a)
    ensures Valid(Step(s, a))
  {
    FamilyStep(s, a);
    QueueStep(s, a);
    ReturnsStep(s, a);
    CodesStep(s, a);
  }

  // ---------------------------------------------------------------- what a step touches

  /** The step reads or writes the record of process `u`. */
  ghost predicate Touches(s: Sys, a: Act, u: int)
    requires Enabled(s, a)
  {
    match a
    case Dispatch => u == s.runq[0] || Retires(s, s.runq[0], u)
    case Leave => u == s.current || Retires(s, s.current, u)
    case Fork => u == s.current
    case Exit(_) => u == s.current
    case Wait => u == s.current || u in s.procs[s.current].childs
    case Crush => u == s.doom[0] || u in s.procs[s.doom[0]].childs
  }

  ghost predicate Retires(s: Sys, p: int, u: int)
    requires 0 <= p < |s.procs|
  {
    var c := s.procs[p];
    if c.state == PendingDestruction then u in c.childs else c.finished && u == c.parent
  }

  /** A step leaves every process it does not touch as it was. */
  lemma StepFrame(s: Sys, a: Act, u: int)
    requires Enabled(s, a) && 0 <= u < |s.procs| && !Touches(s, a, u)
    ensures u < |Step(s, a).procs| && Step(s, a).procs[u] == s.procs[u]
  {
    match a {
      case Dispatch => RetireFrame(s.(runq := s.runq[1..]), s.runq[0], u);
      case Leave => RetireFrame(s.(current := NONE), s.current, u);
      case Fork =>
      case Exit(_) =>
      case Wait => WaitFrame(s, u);
      case Crush =>
    }
  }

  lemma RetireFrame(s: Sys, p: int, u: int)
    requires 0 <= p < |s.procs| && 0 <= u < |s.procs| && u != p && !Retires(s, p, u)
    ensures s.procs[p].finished || s.procs[p].state == PendingDestruction ==> Retire(s, p).procs[u] == s.procs[u]
  {
  }

  lemma WaitFrame(s: Sys, u: int)
    requires Enabled(s, Wait) && 0 <= u < |s.procs| && u != s.current && u !in s.procs[s.current].childs
    ensures Step(s, Wait).procs[u] == s.procs[u]
  {
  }

  /** The scheduler pops the thread of a process that was deleted. */
  ghost predicate PopsDeleted(s: Sys, a: Act)
    requires Enabled(s, a)
  {
    a == Dispatch && Dead(s.procs[s.runq[0]])
  }

  lemma RetiresLiving(s: Sys, p: int, u: int)
    requires ProcsOk(s.procs) && DoomOk(s.procs, s.doom) && s.doom == []
    requires 0 <= p < |s.procs| && 0 <= u < |s.procs| && !Dead(s.procs[p]) && Retires(s, p, u)
    ensures !Dead(s.procs[u])
  {
    if s.procs[p].state == PendingDestruction {
      var i :| 0 <= i < |s.procs[p].childs| && s.procs[p].childs[i] == u;
      ChildrenFresh(s.procs, [], p, i);
    } else {
      assert ProcOk(s.procs, p) && Settled(s.procs, s.doom, p);
    }
  }

  lemma ChildLiving(procs: seq<Proc>, p: int, u: int)
    requires ProcsOk(procs) && 0 <= p < |procs| && !Dead(procs[p]) && u in procs[p].childs
    ensures 0 <= u < |procs| && !Dead(procs[u])
  {
    var i :| 0 <= i < |procs[p].childs| && procs[p].childs[i] == u;
    ChildrenFresh(procs, [], p, i);
  }

  /** Whatever a step touches is alive, unless it pops a deleted process. */
  lemma TouchedLiving(s: Sys, a: Act, u: int)
    requires Valid(s) && Enabled(s, a) && !PopsDeleted(s, a) && 0 <= u < |s.procs| && Touches(s, a, u)
    ensures !Dead(s.procs[u])
  {
    match a {
      case Dispatch => if u != s.runq[0] { RetiresLiving(s, s.runq[0], u); }
      case Leave => if u != s.current { RetiresLiving(s, s.current, u); }
      case Fork =>
      case Exit(_) =>
      case Wait => if u != s.current { ChildLiving(s.procs, s.current, u); }
      case Crush =>
        assert Doomed(s.procs, s.doom[0]);
        if u != s.doom[0] { ChildLiving(s.procs, s.doom[0], u); }
    }
  }

  ghost predicate TouchesDeleted(s: Sys, a: Act)
    requires Enabled(s, a)
  {
    exists u :: 0 <= u < |s.procs| && Touches(s, a, u) && Dead(s.procs[u])
  }

  /** The step leaves every deleted process as it was. */
  ghost predicate DeletedKept(procs: seq<Proc>, procs': seq<Proc>) {
    |procs| <= |procs'| && forall u :: 0 <= u < |procs| && Dead(procs[u]) ==> procs'[u] == procs[u]
  }

  /** A deleted process that is popped is set to stopped, once more or for the first time after its deletion. */
  lemma PopStopsDeleted(s: Sys)
    requires Valid(s) && Enabled(s, Dispatch) && Dead(s.procs[s.runq[0]])
    ensures Rank(s.procs[s.runq[0]].state) == 0 && Step(s, Dispatch).procs[s.runq[0]].state == Stopped
  {
    Popped(s);
    var t := s.runq[0];
    assert ProcOk(s.procs, t) && Listed(s.procs, t);
  }

  // ---------------------------------------------------------------- every run

  ghost predicate IsRun(s: Sys, acts: seq<Act>)
    decreases |acts|
  {
    acts == [] || (Enabled(s, acts[0]) && IsRun(Step(s, acts[0]), acts[1..]))
  }

  ghost function After(s: Sys, acts: seq<Act>): Sys
    requires IsRun(s, acts)
    decreases |acts|
  {
    if acts == [] then s else After(Step(s, acts[0]), acts[1..])
  }

  /** The first process, which has no parent, waits to be dispatched. */
  function Boot(): Sys { Sys([NewChild(NONE)], [0], NONE, [], [], map[]) }

  lemma BootValid()
    ensures Valid(Boot())
  {
    assert ProcOk(Boot().procs, 0);
  }

  lemma {:induction false} RunValid(s: Sys, acts: seq<Act>)
    requires Valid(s) && IsRun(s, acts)
    ensures Valid(After(s, acts))
    decreases |acts|
  {
    if acts != [] {
      StepValid(s, acts[0]);
      RunValid(Step(s, acts[0]), acts[1..]);
    }
  }

  /**
   In every reachable state every process that has not been reaped is in its parent's list; a parent blocked in wait
   has no stopped child that it has not been told about; and every return from wait named a different child of the
   caller, with what that child passed to exit.
   */
  lemma {:induction false} EveryRunReaps(acts: seq<Act>)
    requires IsRun(Boot(), acts)
    ensures var s := After(Boot(), acts);
      && (forall c :: 0 <= c < |s.procs| ==>
            var p := s.procs[c].parent;
            && p < |s.procs|
            && (p != NONE && Rank(s.procs[c].state) <= 1 ==>
                  0 <= p && c in s.procs[p].childs && (s.procs[p].blocked ==> s.procs[c].state != Stopped)))
      && ReturnsOk(s.procs, s.codes, s.told)
  {
    BootValid();
    RunValid(Boot(), acts);
    var s := After(Boot(), acts);
    forall c | 0 <= c < |s.procs|
      ensures var p := s.procs[c].parent;
        && p < |s.procs|
        && (p != NONE && Rank(s.procs[c].state) <= 1 ==>
              0 <= p && c in s.procs[p].childs && (s.procs[p].blocked ==> s.procs[c].state != Stopped))
    {
      ChildSeen(s.procs, c);
    }
  }

  lemma ChildSeen(procs: seq<Proc>, c: int)
    requires ProcsOk(procs) && 0 <= c < |procs|
    ensures var p := procs[c].parent;
      && p < |procs|
      && (p != NONE && Rank(procs[c].state) <= 1 ==>
            0 <= p && c in procs[p].childs && (procs[p].blocked ==> procs[c].state != Stopped))
  {
    var p := procs[c].parent;
    assert ProcOk(procs, c) && Listed(procs, c);
    if p != NONE && Rank(procs[c].state) <= 1 {
      var i :| 0 <= i < |procs[p].childs| && procs[p].childs[i] == c;
      assert ProcOk(procs, p) && Child(procs, p, i);
    }
  }

  /**
   In every reachable state a stopped process's thread is neither queued nor on the core, a reaped one's is queued
   exactly once until it is deleted and never after, and no process was deleted twice.
   */
  lemma {:induction false} EveryRunQueuesOnce(acts: seq<Act>, p: int)
    requires IsRun(Boot(), acts) && 0 <= p < |After(Boot(), acts).procs|
    ensures var s := After(Boot(), acts); var c := s.procs[p];
      && Distinct(s.runq)
      && (c.state == Stopped ==> p !in s.runq && p != s.current)
      && (c.state == PendingDestruction ==> (p in s.runq <==> c.deletes == 0) && p != s.current)
      && (Rank(c.state) == 0 ==> (p in s.runq <==> !c.blocked && p != s.current))
      && 0 <= c.deletes <= 1
  {
    BootValid();
    RunValid(Boot(), acts);
    var s := After(Boot(), acts);
    assert ProcOk(s.procs, p);
    assert p in s.runq <==> Queued(s.procs[p], p == s.current);
  }

  /**
   Every step of every run takes each process onward. It uses a deleted one, and leaves any of them other than it was,
   exactly if it pops one off the run queue.
   */
  lemma {:induction false} EveryStepOnward(acts: seq<Act>, a: Act)
    requires IsRun(Boot(), acts) && Enabled(After(Boot(), acts), a)
    ensures var s := After(Boot(), acts);
      && Onward(s.procs, Step(s, a).procs)
      && (TouchesDeleted(s, a) <==> PopsDeleted(s, a))
      && (DeletedKept(s.procs, Step(s, a).procs) <==> !PopsDeleted(s, a))
  {
    BootValid();
    RunValid(Boot(), acts);
    var s := After(Boot(), acts);
    StepOnward(s, a);
    if PopsDeleted(s, a) {
      PopStopsDeleted(s);
      assert Touches(s, a, s.runq[0]);
    } else {
      KeptUnlessPopped(s, a);
    }
  }

  lemma KeptUnlessPopped(s: Sys, a: Act)
    requires Valid(s) && Enabled(s, a) && !PopsDeleted(s, a)
    ensures !TouchesDeleted(s, a) && DeletedKept(s.procs, Step(s, a).procs)
  {
    StepOnward(s, a);
    forall u | 0 <= u < |s.procs| && Dead(s.procs[u]) ensures !Touches(s, a, u) {
      if Touches(s, a, u) { TouchedLiving(s, a, u); }
    }
    forall u | 0 <= u < |s.procs| && Dead(s.procs[u]) ensures Step(s, a).procs[u] == s.procs[u] { StepFrame(s, a, u); }
  }

  /** Forking adds one process, a running child of the caller, to the caller's list and to the end of the run queue. */
  lemma ForkAdds(s: Sys)
    requires Valid(s) && Enabled(s, Fork)
    ensures var s', p, n := Step(s, Fork), s.current, |s.procs|;
      && |s'.procs| == n + 1 && s'.procs[p] == s.procs[p].(childs := s.procs[p].childs + [n])
      && s'.procs[n].parent == p && s'.procs[n].state == Running && !s'.procs[n].finished && !Dead(s'.procs[n])
      && s'.procs[n].childs == [] && s'.runq == s.runq + [n] && s'.current == p
      && (forall u :: 0 <= u < n && u != p ==> s'.procs[u] == s.procs[u])
  {
  }

  // ---------------------------------------------------------------- what was passed to exit

  lemma {:induction false} RunSnoc(s: Sys, acts: seq<Act>, a: Act)
    requires IsRun(s, acts + [a])
    ensures IsRun(s, acts) && Enabled(After(s, acts), a) && After(s, acts + [a]) == Step(After(s, acts), a)
    decreases |acts|
  {
    var all := acts + [a];
    if acts == [] {
      assert all[1..] == [];
      assert After(Step(s, a), []) == Step(s, a);
    } else {
      assert all[0] == acts[0] && all[1..] == acts[1..] + [a];
      RunSnoc(Step(s, acts[0]), acts[1..], a);
    }
  }

  /** The `m`-th act of the run is an exit by process `p`. */
  ghost predicate ExitAt(s: Sys, acts: seq<Act>, m: int, p: int) {
    0 <= m < |acts| && acts[m].Exit? && IsRun(s, acts[..m]) && After(s, acts[..m]).current == p
  }

  lemma {:induction false} ExitSnoc(s: Sys, acts: seq<Act>, a: Act, m: int, p: int)
    requires IsRun(s, acts + [a]) && IsRun(s, acts)
    ensures ExitAt(s, acts + [a], m, p) <==>
      ExitAt(s, acts, m, p) || (m == |acts| && a.Exit? && After(s, acts).current == p)
  {
    var all := acts + [a];
    if 0 <= m <= |acts| { assert all[..m] == acts[..m] && acts[..|acts|] == acts; }
  }

  lemma CodesOfStep(s: Sys, a: Act)
    requires Enabled(s, a)
    ensures Step(s, a).codes == if a.Exit? then s.codes[s.current := a.code] else s.codes
    ensures a.Exit? ==> OnCore(s) && !s.procs[s.current].finished && Step(s, a).procs[s.current].finished
  {
  }

  lemma FinishedStays(s: Sys, a: Act, p: int)
    requires Enabled(s, a) && 0 <= p < |s.procs| && s.procs[p].finished
    ensures p < |Step(s, a).procs| && Step(s, a).procs[p].finished
  {
    match a {
      case Dispatch => RetireFinished(s.(runq := s.runq[1..]), s.runq[0], p);
      case Leave => RetireFinished(s.(current := NONE), s.current, p);
      case Fork =>
      case Exit(_) =>
      case Wait =>
      case Crush =>
    }
  }

  lemma RetireFinished(s: Sys, t: int, p: int)
    requires 0 <= t < |s.procs| && 0 <= p < |s.procs| && s.procs[p].finished
    ensures p < |Retire(s, t).procs| && Retire(s, t).procs[p].finished
  {
  }

  /** Every process with a recorded code has exited, and no other. */
  ghost predicate ExitsOk(s0: Sys, acts: seq<Act>, s: Sys) {
    && (forall p :: p in s.codes ==> 0 <= p < |s.procs| && s.procs[p].finished && exists m :: ExitAt(s0, acts, m, p))
    && (forall m, p :: ExitAt(s0, acts, m, p) ==> p in s.codes && s.codes[p] == acts[m].code)
    && (forall m, n, p :: ExitAt(s0, acts, m, p) && ExitAt(s0, acts, n, p) ==> m == n)
  }

  lemma {:induction false} ExitsStep(s0: Sys, acts: seq<Act>, a: Act, s: Sys)
    requires IsRun(s0, acts + [a]) && IsRun(s0, acts) && s == After(s0, acts) && Enabled(s, a) && ExitsOk(s0, acts, s)
    ensures ExitsOk(s0, acts + [a], Step(s, a))
  {
    var s', all := Step(s, a), acts + [a];
    CodesOfStep(s, a);
    forall m, p ensures ExitAt(s0, all, m, p) <==>
      ExitAt(s0, acts, m, p) || (m == |acts| && a.Exit? && s.current == p)
    {
      ExitSnoc(s0, acts, a, m, p);
    }
    forall p | p in s'.codes ensures 0 <= p < |s'.procs| && s'.procs[p].finished && exists m :: ExitAt(s0, all, m, p) {
      if p in s.codes {
        FinishedStays(s, a, p);
        var m :| ExitAt(s0, acts, m, p);
        assert ExitAt(s0, all, m, p);
      } else {
        assert ExitAt(s0, all, |acts|, p);
      }
    }
  }

  lemma {:induction false} RunExits(acts: seq<Act>)
    requires IsRun(Boot(), acts)
    ensures ExitsOk(Boot(), acts, After(Boot(), acts))
    decreases |acts|
  {
    if acts != [] {
      var front, a := acts[..|acts| - 1], acts[|acts| - 1];
      assert acts == front + [a];
      RunSnoc(Boot(), front, a);
      RunExits(front);
      ExitsStep(Boot(), front, a, After(Boot(), front));
    }
  }

  /** In every run a process exits at most once, and every return from wait gives what the child passed to its exit. */
  lemma {:induction false} EveryReturnExits(acts: seq<Act>, k: int)
    requires IsRun(Boot(), acts) && 0 <= k < |After(Boot(), acts).told|
    ensures var r := After(Boot(), acts).told[k];
      && (exists m :: ExitAt(Boot(), acts, m, r.child))
      && (forall m :: ExitAt(Boot(), acts, m, r.child) ==> acts[m] == Exit(r.status))
      && (forall m, n, p :: ExitAt(Boot(), acts, m, p) && ExitAt(Boot(), acts, n, p) ==> m == n)
  {
    BootValid();
    RunValid(Boot(), acts);
    RunExits(acts);
    var s := After(Boot(), acts);
    assert ReturnOk(s.procs, s.codes, s.told[k]);
  }

  // ---------------------------------------------------------------- deleted too soon

  /** A destructor deletes a child that has not stopped. */
  ghost predicate TooSoon(s: Sys, a: Act)
    requires Enabled(s, a)
  {
    a == Crush && s.procs[s.doom[0]].state != Stopped
  }

  ghost predicate EverTooSoon(s: Sys, acts: seq<Act>)
    requires IsRun(s, acts)
    decreases |acts|
  {
    acts != [] && (TooSoon(s, acts[0]) || EverTooSoon(Step(s, acts[0]), acts[1..]))
  }

  ghost predicate EverPopsDeleted(s: Sys, acts: seq<Act>)
    requires IsRun(s, acts)
    decreases |acts|
  {
    acts != [] && (PopsDeleted(s, acts[0]) || EverPopsDeleted(Step(s, acts[0]), acts[1..]))
  }

  ghost predicate DeletedUnstopped(procs: seq<Proc>) {
    exists p :: 0 <= p < |procs| && Dead(procs[p]) && Rank(procs[p].state) == 0
  }

  ghost predicate DeletedQueued(s: Sys) { exists t :: t in s.runq && 0 <= t < |s.procs| && Dead(s.procs[t]) }

  lemma UnstoppedBefore(s: Sys, a: Act)
    requires Valid(s) && Enabled(s, a) && !PopsDeleted(s, a) && DeletedUnstopped(s.procs)
    ensures DeletedUnstopped(Step(s, a).procs)
  {
    KeptUnlessPopped(s, a);
    var p :| 0 <= p < |s.procs| && Dead(s.procs[p]) && Rank(s.procs[p].state) == 0;
    assert Step(s, a).procs[p] == s.procs[p];
  }

  lemma UnstoppedNow(s: Sys)
    requires Valid(s) && Enabled(s, Crush) && TooSoon(s, Crush)
    ensures DeletedUnstopped(Step(s, Crush).procs)
  {
    var c := s.doom[0];
    assert Doomed(s.procs, c) && ProcOk(s.procs, c);
    assert Dead(Step(s, Crush).procs[c]) && Rank(Step(s, Crush).procs[c].state) == 0;
  }

  /** Only a reaped process that is popped, and the next doomed one, are ever deleted. */
  lemma NewlyDeleted(s: Sys, a: Act, p: int)
    requires Valid(s) && Enabled(s, a) && 0 <= p < |Step(s, a).procs| && Dead(Step(s, a).procs[p])
    ensures p < |s.procs|
    ensures || Dead(s.procs[p]) || (a == Crush && p == s.doom[0])
            || (a == Dispatch && p == s.runq[0] && s.procs[p].state == PendingDestruction)
  {
    match a {
      case Dispatch => RetireKeeps(s.(runq := s.runq[1..]), s.runq[0], p);
      case Leave => RetireKeeps(s.(current := NONE), s.current, p);
      case Fork =>
      case Exit(_) =>
      case Wait =>
      case Crush =>
    }
  }

  lemma RetireKeeps(s: Sys, p: int, u: int)
    requires 0 <= p < |s.procs| && 0 <= u < |s.procs|
    ensures Retire(s, p).procs[u].status == s.procs[u].status
    ensures Dead(Retire(s, p).procs[u]) ==> Dead(s.procs[u]) || (u == p && s.procs[p].state == PendingDestruction)
  {
  }

  /** Until a deleted process is popped, one that was not stopped is there exactly if some deletion was too soon. */
  lemma UnstoppedStep(s: Sys, a: Act)
    requires Valid(s) && Enabled(s, a) && !PopsDeleted(s, a)
    ensures DeletedUnstopped(Step(s, a).procs) <==> DeletedUnstopped(s.procs) || TooSoon(s, a)
  {
    if DeletedUnstopped(s.procs) {
      UnstoppedBefore(s, a);
    } else if TooSoon(s, a) {
      UnstoppedNow(s);
    } else {
      forall p | 0 <= p < |Step(s, a).procs| && Dead(Step(s, a).procs[p]) ensures Rank(Step(s, a).procs[p].state) != 0 {
        UnstoppedAfter(s, a, p);
      }
    }
  }

  lemma UnstoppedAfter(s: Sys, a: Act, p: int)
    requires Valid(s) && Enabled(s, a) && !DeletedUnstopped(s.procs) && !TooSoon(s, a)
    requires 0 <= p < |Step(s, a).procs| && Dead(Step(s, a).procs[p])
    ensures Rank(Step(s, a).procs[p].state) != 0
  {
    NewlyDeleted(s, a, p);
    StepOnward(s, a);
    assert ProcOnward(s.procs[p], Step(s, a).procs[p]);
  }

  lemma {:induction false} UnstoppedRun(s: Sys, acts: seq<Act>)
    requires Valid(s) && IsRun(s, acts) && !EverPopsDeleted(s, acts)
    ensures DeletedUnstopped(After(s, acts).procs) <==> DeletedUnstopped(s.procs) || EverTooSoon(s, acts)
    decreases |acts|
  {
    if acts != [] {
      UnstoppedStep(s, acts[0]);
      StepValid(s, acts[0]);
      UnstoppedRun(Step(s, acts[0]), acts[1..]);
    }
  }

  /** Below a deleted process that was not stopped is one still queued: a blocked one has a child not stopped either. */
  lemma {:induction false} UnstoppedQueued(s: Sys, p: int)
    requires Valid(s) && s.doom == [] && 0 <= p < |s.procs| && Dead(s.procs[p]) && Rank(s.procs[p].state) == 0
    ensures DeletedQueued(s)
    decreases |s.procs| - p
  {
    assert ProcOk(s.procs, p) && p != s.current;
    if s.procs[p].blocked {
      var c := s.procs[p].childs[0];
      assert Child(s.procs, p, 0) && Settled(s.procs, s.doom, c);
      UnstoppedQueued(s, c);
    } else {
      assert Queued(s.procs[p], p == s.current) && p in s.runq;
    }
  }

  /**
   As long as no deleted process was popped, with no destructor running, the thread of a deleted process is in the run
   queue exactly if some destructor met a child that had not stopped.
   */
  lemma {:induction false} DeletedQueuedIff(acts: seq<Act>)
    requires IsRun(Boot(), acts) && !EverPopsDeleted(Boot(), acts) && After(Boot(), acts).doom == []
    ensures DeletedQueued(After(Boot(), acts)) <==> EverTooSoon(Boot(), acts)
  {
    BootValid();
    RunValid(Boot(), acts);
    UnstoppedRun(Boot(), acts);
    var s := After(Boot(), acts);
    assert !DeletedUnstopped(Boot().procs);
    if DeletedUnstopped(s.procs) {
      var p :| 0 <= p < |s.procs| && Dead(s.procs[p]) && Rank(s.procs[p].state) == 0;
      UnstoppedQueued(s, p);
    }
    if DeletedQueued(s) {
      var t :| t in s.runq && 0 <= t < |s.procs| && Dead(s.procs[t]);
      assert Queued(s.procs[t], t == s.current) && Rank(s.procs[t].state) == 0;
    }
  }

  /** So no step of a run uses a deleted process if every child had stopped by the time it was deleted. */
  lemma {:induction false} SafeUnlessTooSoon(acts: seq<Act>)
    requires IsRun(Boot(), acts) && !EverTooSoon(Boot(), acts)
    ensures !EverPopsDeleted(Boot(), acts)
  {
    BootValid();
    SafeRun(Boot(), acts);
  }

  lemma {:induction false} SafeRun(s: Sys, acts: seq<Act>)
    requires Valid(s) && IsRun(s, acts) && !DeletedUnstopped(s.procs) && !EverTooSoon(s, acts)
    ensures !EverPopsDeleted(s, acts)
    decreases |acts|
  {
    if acts != [] {
      if PopsDeleted(s, acts[0]) { PopStopsDeleted(s); }
      UnstoppedStep(s, acts[0]);
      StepValid(s, acts[0]);
      SafeRun(Step(s, acts[0]), acts[1..]);
    }
  }

  // ---------------------------------------------------------------- a run that does it

  lemma {:induction false} RunThen(s: Sys, acts: seq<Act>, more: seq<Act>)
    requires IsRun(s, acts) && IsRun(After(s, acts), more)
    ensures IsRun(s, acts + more) && After(s, acts + more) == After(After(s, acts), more)
    decreases |acts|
  {
    if acts == [] {
      assert acts + more == more;
    } else {
      var t, all := Step(s, acts[0]), acts + more;
      assert all[0] == acts[0] && all[1..] == acts[1..] + more;
      assert After(s, acts) == After(t, acts[1..]);
      RunThen(t, acts[1..], more);
      assert IsRun(t, all[1..]) && After(s, all) == After(t, all[1..]);
    }
  }

  /** One step leads from `s` to `t`. */
  ghost predicate Edge(s: Sys, a: Act, t: Sys) { Enabled(s, a) && Step(s, a) == t }

  ghost predicate Leads(s: Sys, acts: seq<Act>, t: Sys) { IsRun(s, acts) && After(s, acts) == t }

  lemma TwoSteps(s: Sys, a: Act, b: Act, t: Sys, u: Sys)
    requires Edge(s, a, t) && Edge(t, b, u)
    ensures Leads(s, [a, b], u)
  {
    assert [a, b][1..] == [b] && [b][1..] == [];
    assert Leads(u, [], u) && Leads(t, [b], u);
  }

  lemma RunsJoin(s: Sys, acts: seq<Act>, t: Sys, more: seq<Act>, u: Sys)
    requires Leads(s, acts, t) && Leads(t, more, u)
    ensures Leads(s, acts + more, u)
  {
    RunThen(s, acts, more);
  }

  /** A process outside wait. */
  function Plain(state: State, parent: int, childs: seq<int>, status: int, finished: bool, deletes: int): Proc {
    Proc(state, parent, childs, status, finished, false, false, false, deletes)
  }

  /** The first process forked a child, which is on the core. */
  function Forked(): Sys { Sys([Plain(Running, NONE, [1], -1, false, 0), NewChild(0)], [0], 1, [], [], map[]) }

  /** The child forked a child of its own and exited, and the first process is on the core. */
  function Exited(code: int): Sys {
    Sys([Plain(Running, NONE, [1], -1, false, 0), Plain(Stopped, 0, [2], code, true, 0), NewChild(1)],
        [2], 0, [], [], map[1 := code])
  }

  /** The first process reaped the child. */
  function Reaped(code: int): Sys {
    Sys([NewChild(NONE), Plain(PendingDestruction, 0, [2], code, true, 0), NewChild(1)],
        [1, 0, 2], NONE, [], [Return(0, 1, code)], map[1 := code])
  }

  /** The child's destructor deleted the grandchild, whose thread is next in the run queue. */
  function Crushed(code: int): Sys {
    Sys([NewChild(NONE), Plain(PendingDestruction, 0, [2], code, true, 1), Plain(Running, 1, [], -1, true, 1)],
        [2, 0], NONE, [], [Return(0, 1, code)], map[1 := code])
  }

  lemma ToForked()
    ensures Leads(Boot(), [Dispatch, Fork] + [Leave, Dispatch], Forked())
  {
    var t := Sys([NewChild(NONE)], [], 0, [], [], map[]);
    var u := Forked().(runq := [1], current := 0);
    var v := Forked().(runq := [1, 0], current := NONE);
    assert Step(Boot(), Dispatch) == t;
    assert NewChild(NONE).childs + [1] == [1];
    assert Step(t, Fork).procs == u.procs && Step(t, Fork) == u;
    assert Step(u, Leave) == v;
    assert Step(v, Dispatch) == Forked();
    TwoSteps(Boot(), Dispatch, Fork, t, u);
    TwoSteps(u, Leave, Dispatch, v, Forked());
    RunsJoin(Boot(), [Dispatch, Fork], u, [Leave, Dispatch], Forked());
  }

  lemma ToExited(code: int)
    ensures Leads(Forked(), [Fork, Exit(code)] + [Leave, Dispatch], Exited(code))
  {
    var first := Plain(Running, NONE, [1], -1, false, 0);
    var t := Sys([first, Plain(Running, 0, [2], -1, false, 0), NewChild(1)], [0, 2], 1, [], [], map[]);
    var u := Sys([first, Plain(Running, 0, [2], code, true, 0), NewChild(1)], [0, 2], 1, [], [], map[1 := code]);
    var v := Exited(code).(runq := [0, 2], current := NONE);
    assert NewChild(0).childs + [2] == [2];
    assert Step(Forked(), Fork).procs == t.procs && Step(Forked(), Fork) == t;
    assert Step(t, Exit(code)).procs == u.procs && Step(t, Exit(code)) == u;
    assert Step(u, Leave).procs == v.procs && Step(u, Leave) == v;
    assert Step(v, Dispatch) == Exited(code);
    TwoSteps(Forked(), Fork, Exit(code), t, u);
    TwoSteps(u, Leave, Dispatch, v, Exited(code));
    RunsJoin(Forked(), [Fork, Exit(code)], u, [Leave, Dispatch], Exited(code));
  }

  lemma ToReaped(code: int)
    ensures Leads(Exited(code), [Wait, Leave] + [Dispatch, Leave], Reaped(code))
  {
    var t := Reaped(code).(runq := [2, 1], current := 0);
    var u := Reaped(code).(runq := [2, 1, 0]);
    var v := Reaped(code).(runq := [1, 0], current := 2);
    assert FirstStopped(Exited(code).procs, [1], 0) == 0 && [1][..0] + [1][1..] == [];
    assert Step(Exited(code), Wait).procs == t.procs && Step(Exited(code), Wait) == t;
    assert Step(t, Leave) == u;
    assert Step(u, Dispatch) == v;
    assert Step(v, Leave) == Reaped(code);
    TwoSteps(Exited(code), Wait, Leave, t, u);
    TwoSteps(u, Dispatch, Leave, v, Reaped(code));
    RunsJoin(Exited(code), [Wait, Leave], u, [Dispatch, Leave], Reaped(code));
  }

  lemma ToCrushed(code: int)
    ensures Leads(Reaped(code), [Dispatch, Crush] + [Dispatch, Leave], Crushed(code))
  {
    var child := Plain(PendingDestruction, 0, [2], code, true, 1);
    var t := Crushed(code).(
      procs := [NewChild(NONE), child, Plain(Running, 1, [], -1, true, 0)], runq := [0, 2], doom := [2]);
    var u := Crushed(code).(runq := [0, 2]);
    var v := Crushed(code).(runq := [2], current := 0);
    assert Step(Reaped(code), Dispatch).procs == t.procs && Step(Reaped(code), Dispatch) == t;
    assert Step(t, Crush).procs == u.procs && Step(t, Crush) == u;
    assert Step(u, Dispatch) == v;
    assert Step(v, Leave) == Crushed(code);
    TwoSteps(Reaped(code), Dispatch, Crush, t, u);
    TwoSteps(u, Dispatch, Leave, v, Crushed(code));
    RunsJoin(Reaped(code), [Dispatch, Crush], u, [Dispatch, Leave], Crushed(code));
  }

  /** Fork twice, exit, be reaped: sixteen steps. */
  function OrphanRun(code: int): seq<Act> {
    ([Dispatch, Fork] + [Leave, Dispatch]) + ([Fork, Exit(code)] + [Leave, Dispatch]) +
    (([Wait, Leave] + [Dispatch, Leave]) + ([Dispatch, Crush] + [Dispatch, Leave]))
  }

  /** A process that exits before its child: the next step of this run pops the child, which is deleted. */
  lemma DeletedStillQueued(code: int)
    ensures IsRun(Boot(), OrphanRun(code))
    ensures var s := After(Boot(), OrphanRun(code)); Enabled(s, Dispatch) && PopsDeleted(s, Dispatch)
  {
    ToForked();
    ToExited(code);
    ToReaped(code);
    ToCrushed(code);
    var a, b := [Dispatch, Fork] + [Leave, Dispatch], [Fork, Exit(code)] + [Leave, Dispatch];
    var c, d := [Wait, Leave] + [Dispatch, Leave], [Dispatch, Crush] + [Dispatch, Leave];
    RunsJoin(Boot(), a, Forked(), b, Exited(code));
    RunsJoin(Exited(code), c, Reaped(code), d, Crushed(code));
    RunsJoin(Boot(), a + b, Exited(code), c + d, Crushed(code));
  }

  // ---------------------------------------------------------------- the code

  class ProcessTable {
    var procs: seq<Proc>
    var runq: seq<int>
    var current: int
    var doom: seq<int>
    ghost var told: seq<Return>
    ghost var codes: map<int, int>

    ghost function Model(): Sys
      reads this
    {
      Sys(procs, runq, current, doom, told, codes)
    }

    constructor ()
      ensures Model() == Boot() && Valid(Model())
    {
      procs, runq, current, doom := [NewChild(NONE)], [0], NONE, [];
      told, codes := [], map[];
      new;
      BootValid();
    }

    /** One round of wait: a child's number and status, or no child at all, or the caller is blocked. */
    method WaitRound() returns (done: bool, child: int, status: int)
      requires Valid(Model()) && Enabled(Model(), Wait)
      modifies this
      ensures Valid(Model()) && Model() == Step(old(Model()), Wait)
      ensures done && child != -1 ==> told == old(told) + [Return(current, child, status)]
      ensures done && child == -1 ==> told == old(told) && procs[current].childs == [] && procs[current].locked
      ensures !done ==> procs[current].blocked
    {
      StepValid(Model(), Wait);
      var p, i := current, 0;
      if |procs[p].childs| > 0 {
        while i < |procs[p].childs|
          invariant 0 <= i <= |procs[p].childs| && Model() == old(Model())
          invariant FirstStopped(procs, procs[p].childs, 0) == FirstStopped(procs, procs[p].childs, i)
        {
          if procs[procs[p].childs[i]].state == Stopped {
            child := procs[p].childs[i];
            status := procs[child].status;
            ReapChild(p, i);
            return true, child, status;
          }
          i := i + 1;
        }
        procs := procs[p := procs[p].(state := Waiting, inWait := true, blocked := true)];
        done, child, status := false, -1, 0;
      } else {
        procs := procs[p := procs[p].(locked := true)];
        done, child, status := true, -1, 0;
      }
    }

    method ReapChild(p: int, i: int)
      requires 0 <= p < |procs| && 0 <= i < |procs[p].childs|
      requires 0 <= procs[p].childs[i] < |procs| && procs[p].childs[i] != p
      modifies this`procs, this`runq, this`told
      ensures Model() == Reap(old(Model()), p, i)
    {
      var c, rest := procs[p].childs[i], procs[p].childs[..i] + procs[p].childs[i + 1..];
      procs := procs[p := procs[p].(childs := rest)];
      procs := procs[c := procs[c].(state := PendingDestruction)];
      runq := runq + [c];
      told := told + [Return(p, c, procs[c].status)];
      procs := procs[p := procs[p].(state := Running, inWait := false)];
      assert procs == Reap(old(Model()), p, i).procs;
    }
  }
}
