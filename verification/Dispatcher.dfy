/** The task dispatcher taken one call at a time: two levels of slots (global and per workflow), the
    backlog heap with its time-out, the dispatch loop and the batched write with its refunds. */
module Dispatcher {
  import opened Heap

  type Workflow = string

  datatype Task = Task(workflow: Workflow, name: string)

  /** A waiting task: its workflow's priority and its enqueue time in nanoseconds rank it. */
  type Waiting = Entry<Task>

  const DEFAULT_PENDING_TIMEOUT_SEC := 300
  const NANOS_PER_SEC := 1_000_000_000

  // ---------------------------------------------------------------- per-workflow counters

  type Counters = map<Workflow, int>

  /** A missing counter reads as zero. */
  function Load(c: Counters, w: Workflow): int {
    if w in c then c[w] else 0
  }

  function Inc(c: Counters, w: Workflow): (r: Counters)
    ensures Load(r, w) == Load(c, w) + 1
    ensures forall v :: v != w ==> Load(r, v) == Load(c, v)
  {
    c[w := Load(c, w) + 1]
  }

  /** The entry is dropped when it comes down to zero. */
  function Dec(c: Counters, w: Workflow): (r: Counters)
    ensures Load(r, w) == Load(c, w) - 1
    ensures forall v :: v != w ==> Load(r, v) == Load(c, v)
  {
    if Load(c, w) - 1 == 0 then c - {w} else c[w := Load(c, w) - 1]
  }

  // ---------------------------------------------------------------- counting tasks by workflow

  ghost function Of(q: seq<Waiting>, w: Workflow): nat {
    if q == [] then 0 else Of(q[..|q| - 1], w) + if q[|q| - 1].value.workflow == w then 1 else 0
  }

  lemma OfSnoc(q: seq<Waiting>, x: Waiting, w: Workflow)
    ensures Of(q + [x], w) == Of(q, w) + if x.value.workflow == w then 1 else 0
  {
    assert (q + [x])[..|q|] == q;
  }

  ghost function WorkflowsOf(q: seq<Waiting>): set<Workflow> {
    set x | x in q :: x.value.workflow
  }

  // ---------------------------------------------------------------- what a batch meets

  /** What the surroundings answer while a batch is written: whether the i-th task's workflow is found
      when it is looked up, whether its payload serializes, and whether the one batched write succeeds. */
  datatype BatchEnv = BatchEnv(found: nat -> bool, serializes: nat -> bool, storeOk: bool)

  datatype Fate = Vanished | Unserializable | Ready

  /** A workflow is looked up until it has been found once in the batch. */
  ghost predicate FoundBefore(tasks: seq<Waiting>, env: BatchEnv, i: nat)
    requires i <= |tasks|
  {
    exists j :: 0 <= j <= i && j < |tasks| && i < |tasks| && tasks[j].value.workflow == tasks[i].value.workflow && env.found(j)
  }

  ghost function FateOf(tasks: seq<Waiting>, env: BatchEnv, i: nat): Fate
    requires i < |tasks|
  {
    if !FoundBefore(tasks, env, i) then Vanished
    else if !env.serializes(i) then Unserializable
    else Ready
  }

  /** The tasks among the first n with the given fate, in order. */
  ghost function Having(tasks: seq<Waiting>, env: BatchEnv, f: Fate, n: nat): seq<Waiting>
    requires n <= |tasks|
  {
    if n == 0 then []
    else Having(tasks, env, f, n - 1) + if FateOf(tasks, env, n - 1) == f then [tasks[n - 1]] else []
  }

  ghost function All(tasks: seq<Waiting>, env: BatchEnv, f: Fate): seq<Waiting> {
    Having(tasks, env, f, |tasks|)
  }

  lemma HavingStep(tasks: seq<Waiting>, env: BatchEnv, f: Fate, n: nat, w: Workflow)
    requires 0 < n <= |tasks|
    ensures Of(Having(tasks, env, f, n), w)
            == Of(Having(tasks, env, f, n - 1), w)
               + (if FateOf(tasks, env, n - 1) == f && tasks[n - 1].value.workflow == w then 1 else 0)
  {
    if FateOf(tasks, env, n - 1) == f {
      OfSnoc(Having(tasks, env, f, n - 1), tasks[n - 1], w);
    } else {
      assert Having(tasks, env, f, n - 1) + [] == Having(tasks, env, f, n - 1);
    }
  }

  lemma {:induction false} FatesAddUp(tasks: seq<Waiting>, env: BatchEnv, n: nat)
    requires n <= |tasks|
    ensures |Having(tasks, env, Vanished, n)| + |Having(tasks, env, Unserializable, n)| + |Having(tasks, env, Ready, n)| == n
  {
    if n > 0 {
      FatesAddUp(tasks, env, n - 1);
    }
  }

  lemma {:induction false} FatesAddUpFor(tasks: seq<Waiting>, env: BatchEnv, n: nat, w: Workflow)
    requires n <= |tasks|
    ensures Of(Having(tasks, env, Vanished, n), w) + Of(Having(tasks, env, Unserializable, n), w)
         + Of(Having(tasks, env, Ready, n), w) == Of(tasks[..n], w)
  {
    if n > 0 {
      FatesAddUpFor(tasks, env, n - 1, w);
      assert Of(tasks[..n], w) == Of(tasks[..n - 1], w) + if tasks[n - 1].value.workflow == w then 1 else 0 by {
        assert tasks[..n] == tasks[..n - 1] + [tasks[n - 1]];
        OfSnoc(tasks[..n - 1], tasks[n - 1], w);
      }
      HavingStep(tasks, env, Vanished, n, w);
      HavingStep(tasks, env, Unserializable, n, w);
      HavingStep(tasks, env, Ready, n, w);
    }
  }

  /** The three fates partition the batch, in total and for each workflow. */
  lemma FatesPartition(tasks: seq<Waiting>, env: BatchEnv, w: Workflow)
    ensures |All(tasks, env, Vanished)| + |All(tasks, env, Unserializable)| + |All(tasks, env, Ready)| == |tasks|
    ensures Of(All(tasks, env, Vanished), w) + Of(All(tasks, env, Unserializable), w) + Of(All(tasks, env, Ready), w)
         == Of(tasks, w)
  {
    assert tasks[..|tasks|] == tasks;
    FatesAddUp(tasks, env, |tasks|);
    FatesAddUpFor(tasks, env, |tasks|, w);
  }

  /** What each fate means for a task x: whether the workflow of one of its places in the batch was found
      at that place or an earlier one, and whether the payload serialized there. */
  ghost predicate FoundAt(tasks: seq<Waiting>, env: BatchEnv, x: Waiting, i: nat, j: nat) {
    j <= i < |tasks| && tasks[i] == x && tasks[j].value.workflow == x.value.workflow && env.found(j)
  }

  /** A task is ready if and only if its workflow was found in time and its payload serialized. */
  lemma ReadyIff(tasks: seq<Waiting>, env: BatchEnv, x: Waiting)
    ensures x in All(tasks, env, Ready) <==> exists i: nat, j: nat :: FoundAt(tasks, env, x, i, j) && env.serializes(i)
  {
    HavingMembers(tasks, env, Ready, |tasks|, x);
    if i: nat, j: nat :| FoundAt(tasks, env, x, i, j) && env.serializes(i) {
      assert FoundBefore(tasks, env, i);
      assert At(tasks, env, Ready, |tasks|, x, i);
    } else if i: nat :| At(tasks, env, Ready, |tasks|, x, i) {
      var j: nat :| j <= i && tasks[j].value.workflow == tasks[i].value.workflow && env.found(j);
      assert FoundAt(tasks, env, x, i, j);
    }
  }

  /** A task cannot be serialized if and only if its workflow was found in time and its payload was refused. */
  lemma UnserializableIff(tasks: seq<Waiting>, env: BatchEnv, x: Waiting)
    ensures x in All(tasks, env, Unserializable) <==> exists i: nat, j: nat :: FoundAt(tasks, env, x, i, j) && !env.serializes(i)
  {
    HavingMembers(tasks, env, Unserializable, |tasks|, x);
    if i: nat, j: nat :| FoundAt(tasks, env, x, i, j) && !env.serializes(i) {
      assert FoundBefore(tasks, env, i);
      assert At(tasks, env, Unserializable, |tasks|, x, i);
    } else if i: nat :| At(tasks, env, Unserializable, |tasks|, x, i) {
      var j: nat :| j <= i && tasks[j].value.workflow == tasks[i].value.workflow && env.found(j);
      assert FoundAt(tasks, env, x, i, j);
    }
  }

  ghost predicate At(tasks: seq<Waiting>, env: BatchEnv, f: Fate, n: nat, x: Waiting, i: nat) {
    i < n <= |tasks| && tasks[i] == x && FateOf(tasks, env, i) == f
  }

  lemma {:induction false} HavingMembers(tasks: seq<Waiting>, env: BatchEnv, f: Fate, n: nat, x: Waiting)
    requires n <= |tasks|
    ensures x in Having(tasks, env, f, n) <==> exists i: nat :: At(tasks, env, f, n, x, i)
  {
    if n > 0 {
      HavingMembers(tasks, env, f, n - 1, x);
      if x in Having(tasks, env, f, n - 1) {
        var i: nat :| At(tasks, env, f, n - 1, x, i);
        assert At(tasks, env, f, n, x, i);
      }
      if FateOf(tasks, env, n - 1) == f && tasks[n - 1] == x {
        assert At(tasks, env, f, n, x, n - 1);
      }
      if i: nat :| At(tasks, env, f, n, x, i) && i < n - 1 {
        assert At(tasks, env, f, n - 1, x, i);
      }
    }
  }

  lemma FatesOfAll(tasks: seq<Waiting>, env: BatchEnv)
    ensures |All(tasks, env, Vanished)| + |All(tasks, env, Unserializable)| + |All(tasks, env, Ready)| == |tasks|
    ensures forall w :: Of(All(tasks, env, Vanished), w) + Of(All(tasks, env, Unserializable), w)
                        + Of(All(tasks, env, Ready), w) == Of(tasks, w)
  {
    FatesPartition(tasks, env, "");
    forall w ensures Of(All(tasks, env, Vanished), w) + Of(All(tasks, env, Unserializable), w)
                     + Of(All(tasks, env, Ready), w) == Of(tasks, w)
    {
      FatesPartition(tasks, env, w);
    }
  }

  // ---------------------------------------------------------------- the dispatcher

  datatype PushResult = Enqueued | Pushed | PushFailed

  /** The backlog and the two levels of counters at one moment. */
  datatype Counts = Counts(queue: seq<Waiting>, total: int, each: Counters)

  class TaskDispatcher {
    const globalMax: int
    const perWfMax: int
    const pendingTimeoutSec: int
    var globalActive: int
    var perWfActive: Counters
    var pendingPQ: seq<Waiting>
    /** The workflows the workflow manager still runs. */
    var running: set<Workflow>

    constructor (globalMax: int, perWfMax: int, pendingTimeoutSec: int, running: set<Workflow>)
      ensures this.globalMax == globalMax && this.perWfMax == perWfMax && this.pendingTimeoutSec == pendingTimeoutSec
      ensures globalActive == 0 && perWfActive == map[] && pendingPQ == [] && this.running == running
    {
      this.globalMax, this.perWfMax, this.pendingTimeoutSec := globalMax, perWfMax, pendingTimeoutSec;
      globalActive, perWfActive, pendingPQ := 0, map[], [];
      this.running := running;
    }

    ghost predicate Valid()
      reads this
    {
      HeapOrdered(pendingPQ)
    }

    predicate AtGlobalCap()
      reads this
    {
      globalMax > 0 && globalActive >= globalMax
    }

    predicate AtCap(w: Workflow)
      reads this
    {
      CapHit(perWfActive, w)
    }

    /** The configured time-out, five minutes when none is set. */
    function TimeoutNanos(): (t: int)
      ensures t == if pendingTimeoutSec > 0 then pendingTimeoutSec * 1_000_000_000 else 300_000_000_000
    {
      (if pendingTimeoutSec <= 0 then DEFAULT_PENDING_TIMEOUT_SEC else pendingTimeoutSec) * NANOS_PER_SEC
    }

    predicate Overdue(x: Waiting, now: int) {
      now - x.tick > TimeoutNanos()
    }

    /** markWorkflowFailed: a workflow still running is ended, which force-clears its counter. */
    method MarkWorkflowFailed(w: Workflow)
      modifies this`running, this`perWfActive
      ensures running == old(running) - {w}
      ensures forall v :: Load(perWfActive, v) == if v == w && w in old(running) then 0 else old(Load(perWfActive, v))
    {
      if w in running {
        running := running - {w};
        perWfActive := perWfActive - {w};
      }
    }

    /** evictTimedOutLocked: pop overdue heads until the head is in time, then fail their workflows. */
    method EvictTimedOut(now: int) returns (evicted: seq<Waiting>)
      requires Valid()
      modifies this
      ensures Valid() && globalActive == old(globalActive)
      ensures multiset(old(pendingPQ)) == multiset(evicted) + multiset(pendingPQ)
      ensures forall x :: x in evicted ==> now - x.tick > TimeoutNanos()
      ensures pendingPQ != [] ==> forall y :: y in pendingPQ && y.priority == pendingPQ[0].priority ==> now - y.tick <= TimeoutNanos()
      ensures forall x, y :: x in evicted && y in pendingPQ ==>
                x.priority > y.priority || (x.priority == y.priority && x.tick <= y.tick)
      ensures InTime(pendingPQ, now) <==> OverdueRankFirst(old(pendingPQ), now)
      ensures running == old(running) - WorkflowsOf(evicted)
      ensures forall w :: Load(perWfActive, w) == if w in WorkflowsOf(evicted) * old(running) then 0 else old(Load(perWfActive, w))
    {
      evicted := PopOverdue(now);
      SameMembers(old(pendingPQ), evicted, pendingPQ);
      EvictionIsCompleteIff(old(pendingPQ), evicted, pendingPQ, now);
      var i := 0;
      while i < |evicted|
        invariant i <= |evicted|
        invariant globalActive == old(globalActive)
        invariant running == old(running) - WorkflowsOf(evicted[..i])
        invariant forall w :: Load(perWfActive, w) == if w in WorkflowsOf(evicted[..i]) * old(running) then 0 else old(Load(perWfActive, w))
        modifies this`running, this`perWfActive
      {
        MarkWorkflowFailed(evicted[i].value.workflow);
        assert WorkflowsOf(evicted[..i + 1]) == WorkflowsOf(evicted[..i]) + {evicted[i].value.workflow};
        i := i + 1;
      }
      assert evicted[..i] == evicted;
    }

    method PopOverdue(now: int) returns (evicted: seq<Waiting>)
      requires Valid()
      modifies this`pendingPQ
      ensures Valid()
      ensures multiset(old(pendingPQ)) == multiset(evicted) + multiset(pendingPQ)
      ensures forall x :: x in evicted ==> Overdue(x, now)
      ensures pendingPQ != [] ==> forall y :: y in pendingPQ && y.priority == pendingPQ[0].priority ==> !Overdue(y, now)
      ensures forall x, y :: x in evicted && y in pendingPQ ==> !Less(y, x)
    {
      evicted := [];
      while |pendingPQ| > 0
        invariant Valid()
        invariant multiset(old(pendingPQ)) == multiset(evicted) + multiset(pendingPQ)
        invariant forall x :: x in evicted ==> Overdue(x, now)
        invariant forall x, y :: x in evicted && y in pendingPQ ==> !Less(y, x)
        decreases |pendingPQ|
      {
        var x := pendingPQ[0];
        if !Overdue(x, now) {
          SameRankInTime(pendingPQ, now);
          break;
        }
        ghost var before := pendingPQ;
        var popped, rest := Pop(pendingPQ);
        pendingPQ := rest;
        assert forall y :: y in rest ==> y in multiset(before);
        evicted := evicted + [popped];
      }
    }

    ghost predicate InTime(q: seq<Waiting>, now: int) {
      forall y :: y in q ==> now - y.tick <= TimeoutNanos()
    }

    /** No overdue task has a lower priority than one in time. */
    ghost predicate OverdueRankFirst(q: seq<Waiting>, now: int) {
      forall x, y :: x in q && y in q && now - x.tick <= TimeoutNanos() && now - y.tick > TimeoutNanos() ==>
        x.priority <= y.priority
    }

    lemma SameMembers(before: seq<Waiting>, evicted: seq<Waiting>, rest: seq<Waiting>)
      requires multiset(before) == multiset(evicted) + multiset(rest)
      ensures forall x :: x in before <==> x in evicted || x in rest
    {
      forall x ensures x in before <==> x in evicted || x in rest {
        assert x in multiset(before) <==> x in multiset(evicted) || x in multiset(rest);
      }
    }

    /** Eviction leaves no overdue task behind if and only if none had a lower priority than a task in time. */
    lemma EvictionIsCompleteIff(before: seq<Waiting>, evicted: seq<Waiting>, rest: seq<Waiting>, now: int)
      requires forall x :: x in before <==> x in evicted || x in rest
      requires HeapOrdered(rest) && (rest != [] ==> !Overdue(rest[0], now))
      requires forall x :: x in evicted ==> Overdue(x, now)
      requires forall x, y :: x in evicted && y in rest ==> !Less(y, x)
      ensures InTime(rest, now) <==> OverdueRankFirst(before, now)
    {
      if y :| y in rest && Overdue(y, now) {
        var k :| 0 <= k < |rest| && rest[k] == y;
        HeadIsFirst(rest, k);
        assert rest[0] in before && y in before && !Less(y, rest[0]);
      } else {
        forall x, y | x in before && y in before && !Overdue(x, now) && Overdue(y, now) ensures x.priority <= y.priority {
          assert y in evicted && x in rest;
        }
      }
    }

    lemma SameRankInTime(q: seq<Waiting>, now: int)
      requires HeapOrdered(q) && q != [] && !Overdue(q[0], now)
      ensures forall y :: y in q && y.priority == q[0].priority ==> !Overdue(y, now)
    {
      forall y | y in q && y.priority == q[0].priority ensures !Overdue(y, now) {
        var k :| 0 <= k < |q| && q[k] == y;
        HeadIsFirst(q, k);
      }
    }

    /** The dispatch loop: pop in rank order, put aside what its workflow's cap blocks, take a slot of
        both levels for the rest, and put the blocked tasks back at the end. */
    method SelectTasks() returns (toPush: seq<Waiting>)
      requires Valid()
      modifies this`globalActive, this`perWfActive, this`pendingPQ
      ensures Valid()
      ensures multiset(old(pendingPQ)) == multiset(toPush) + multiset(pendingPQ)
      ensures globalActive == old(globalActive) + |toPush|
      ensures forall w :: Load(perWfActive, w) == old(Load(perWfActive, w)) + Of(toPush, w)
      // Maximal: what is left could not have been dispatched.
      ensures (globalMax > 0 && globalActive >= globalMax)
              || forall x :: x in pendingPQ ==> perWfMax > 0 && Load(perWfActive, x.value.workflow) >= perWfMax
      // Priority: a task left behind that ranks before a selected one waits for its own workflow, a different
      // one, which is at its cap.
      ensures forall x, y :: x in toPush && y in pendingPQ ==>
                || x.priority > y.priority || (x.priority == y.priority && x.tick <= y.tick)
                || (perWfMax > 0 && Load(perWfActive, y.value.workflow) >= perWfMax && y.value.workflow != x.value.workflow)
      ensures forall i, j :: 0 <= i < j < |toPush| ==>
                toPush[i].priority > toPush[j].priority
                || (toPush[i].priority == toPush[j].priority && toPush[i].tick <= toPush[j].tick)
      // No cap is passed.
      ensures globalMax > 0 ==> globalActive <= old(globalActive) || globalActive <= globalMax
      ensures forall x :: x in toPush && perWfMax > 0 ==> Load(perWfActive, x.value.workflow) <= perWfMax
    {
      ghost var start := Counts(pendingPQ, globalActive, perWfActive);
      var deferred;
      toPush, deferred := DispatchLoop();
      ghost var now := Counts(pendingPQ, globalActive, perWfActive);
      PutBack(deferred);
      FinishSelection(start, toPush, deferred, now, pendingPQ);
    }

    lemma FinishSelection(start: Counts, toPush: seq<Waiting>, deferred: seq<Waiting>, now: Counts, queue: seq<Waiting>)
      requires Going(start, toPush, deferred, now)
      requires now.queue == [] || (globalMax > 0 && now.total >= globalMax)
      requires multiset(queue) == multiset(now.queue) + multiset(deferred)
      requires forall x :: x in queue ==> x in now.queue || x in deferred
      ensures multiset(start.queue) == multiset(toPush) + multiset(queue)
      ensures (globalMax > 0 && now.total >= globalMax) || Blocked(now.each, queue)
      ensures forall x, y :: x in toPush && y in queue && Less(y, x) ==>
                CapHit(now.each, y.value.workflow) && y.value.workflow != x.value.workflow
    {
    }

    method DispatchLoop() returns (toPush: seq<Waiting>, deferred: seq<Waiting>)
      requires Valid()
      modifies this`globalActive, this`perWfActive, this`pendingPQ
      ensures Valid()
      ensures Going(old(Counts(pendingPQ, globalActive, perWfActive)), toPush, deferred, Counts(pendingPQ, globalActive, perWfActive))
      ensures pendingPQ == [] || AtGlobalCap()
    {
      toPush, deferred := [], [];
      var blockedWf: set<Workflow> := {};
      ghost var start := Counts(pendingPQ, globalActive, perWfActive);
      while |pendingPQ| > 0
        invariant Valid()
        invariant Going(start, toPush, deferred, Counts(pendingPQ, globalActive, perWfActive))
        invariant forall w :: w in blockedWf ==> AtCap(w)
        decreases |pendingPQ|
      {
        if AtGlobalCap() {
          break;
        }
        var w := pendingPQ[0].value.workflow;
        if AtCap(w) {
          blockedWf := blockedWf + {w};
          var x := DeferHead(start, toPush, deferred);
          deferred := deferred + [x];
          continue;
        }
        if w in blockedWf {
          assert false;  // taken one call at a time, a blocked workflow stays at its cap
        }
        var x := TakeHead(start, toPush, deferred);
        toPush := toPush + [x];
      }
    }

    method DeferHead(ghost start: Counts, ghost toPush: seq<Waiting>, ghost deferred: seq<Waiting>) returns (x: Waiting)
      requires Valid() && pendingPQ != [] && AtCap(pendingPQ[0].value.workflow)
      requires Going(start, toPush, deferred, Counts(pendingPQ, globalActive, perWfActive))
      modifies this`pendingPQ
      ensures Valid() && |pendingPQ| < |old(pendingPQ)|
      ensures Going(start, toPush, deferred + [x], Counts(pendingPQ, globalActive, perWfActive))
    {
      var rest;
      x, rest := Pop(pendingPQ);
      DeferKeepsGoing(start, toPush, deferred, Counts(pendingPQ, globalActive, perWfActive), rest);
      pendingPQ := rest;
    }

    method TakeHead(ghost start: Counts, ghost toPush: seq<Waiting>, ghost deferred: seq<Waiting>) returns (x: Waiting)
      requires Valid() && pendingPQ != [] && !AtCap(pendingPQ[0].value.workflow) && !AtGlobalCap()
      requires Going(start, toPush, deferred, Counts(pendingPQ, globalActive, perWfActive))
      modifies this`globalActive, this`perWfActive, this`pendingPQ
      ensures Valid() && |pendingPQ| < |old(pendingPQ)|
      ensures Going(start, toPush + [x], deferred, Counts(pendingPQ, globalActive, perWfActive))
      ensures forall w :: old(AtCap(w)) ==> AtCap(w)
    {
      var rest;
      x, rest := Pop(pendingPQ);
      TakeKeepsGoing(start, toPush, deferred, Counts(pendingPQ, globalActive, perWfActive), rest);
      pendingPQ := rest;
      globalActive := globalActive + 1;
      perWfActive := Inc(perWfActive, x.value.workflow);
    }

    /** What the dispatch loop maintains, on the values of the queue and the counters. */
    ghost predicate Going(start: Counts, toPush: seq<Waiting>, deferred: seq<Waiting>, now: Counts) {
      && multiset(start.queue) == multiset(toPush) + multiset(deferred) + multiset(now.queue)
      && now.total == start.total + |toPush|
      && (globalMax > 0 ==> now.total <= start.total || now.total <= globalMax)
      && Charged(start.each, now.each, toPush)
      && Blocked(now.each, deferred)
      && WithinCap(now.each, toPush)
      && InOrder(toPush, deferred, now.queue)
    }

    lemma DeferKeepsGoing(start: Counts, toPush: seq<Waiting>, deferred: seq<Waiting>, now: Counts, rest: seq<Waiting>)
      requires Going(start, toPush, deferred, now) && HeapOrdered(now.queue) && now.queue != []
      requires multiset(now.queue) == multiset(rest) + multiset{now.queue[0]}
      requires CapHit(now.each, now.queue[0].value.workflow)
      ensures Going(start, toPush, deferred + [now.queue[0]], now.(queue := rest))
    {
      DeferKeepsOrder(toPush, deferred, now.queue, rest);
    }

    lemma TakeKeepsGoing(start: Counts, toPush: seq<Waiting>, deferred: seq<Waiting>, now: Counts, rest: seq<Waiting>)
      requires Going(start, toPush, deferred, now) && HeapOrdered(now.queue) && now.queue != []
      requires multiset(now.queue) == multiset(rest) + multiset{now.queue[0]}
      requires !CapHit(now.each, now.queue[0].value.workflow) && (globalMax > 0 ==> now.total < globalMax)
      ensures var x := now.queue[0];
              Going(start, toPush + [x], deferred, Counts(rest, now.total + 1, Inc(now.each, x.value.workflow)))
    {
      var x := now.queue[0];
      TakeKeepsOrder(toPush, deferred, now.queue, rest, now.each);
      ChargeOne(start.each, now.each, toPush, x);
    }

    predicate CapHit(c: Counters, w: Workflow) {
      perWfMax > 0 && Load(c, w) >= perWfMax
    }

    ghost predicate Blocked(c: Counters, q: seq<Waiting>) {
      forall x :: x in q ==> CapHit(c, x.value.workflow)
    }

    ghost predicate WithinCap(c: Counters, q: seq<Waiting>) {
      forall x :: x in q && perWfMax > 0 ==> Load(c, x.value.workflow) <= perWfMax
    }

    ghost predicate Charged(before: Counters, after: Counters, q: seq<Waiting>) {
      forall w :: Load(after, w) == Load(before, w) + Of(q, w)
    }

    lemma ChargeOne(before: Counters, c: Counters, q: seq<Waiting>, x: Waiting)
      requires Charged(before, c, q)
      ensures Charged(before, Inc(c, x.value.workflow), q + [x])
    {
      forall w ensures Load(Inc(c, x.value.workflow), w) == Load(before, w) + Of(q + [x], w) {
        OfSnoc(q, x, w);
      }
    }

    /** The rank facts the loop keeps: tasks are popped in order, and none of a dispatched task's own
        workflow was put aside before it. */
    ghost predicate InOrder(toPush: seq<Waiting>, deferred: seq<Waiting>, queue: seq<Waiting>) {
      && (forall x, y :: x in toPush && y in deferred && Less(y, x) ==> y.value.workflow != x.value.workflow)
      && (forall x, y :: x in toPush && y in queue ==> !Less(y, x))
      && (forall i, j :: 0 <= i < j < |toPush| ==> !Less(toPush[j], toPush[i]))
    }

    lemma RestIsBehindHead(before: seq<Waiting>, rest: seq<Waiting>)
      requires before != [] && multiset(before) == multiset(rest) + multiset{before[0]} && HeapOrdered(before)
      ensures forall y :: y in rest ==> y in before && !Less(y, before[0])
    {
      forall y | y in rest ensures y in before && !Less(y, before[0]) {
        assert y in multiset(before);
        var k :| 0 <= k < |before| && before[k] == y;
        HeadIsFirst(before, k);
      }
    }

    lemma DeferKeepsOrder(toPush: seq<Waiting>, deferred: seq<Waiting>, queue: seq<Waiting>, rest: seq<Waiting>)
      requires InOrder(toPush, deferred, queue)
      requires queue != [] && multiset(queue) == multiset(rest) + multiset{queue[0]} && HeapOrdered(queue)
      ensures InOrder(toPush, deferred + [queue[0]], rest)
    {
      RestIsBehindHead(queue, rest);
    }

    lemma TakeKeepsOrder(toPush: seq<Waiting>, deferred: seq<Waiting>, queue: seq<Waiting>, rest: seq<Waiting>, c: Counters)
      requires InOrder(toPush, deferred, queue)
      requires queue != [] && multiset(queue) == multiset(rest) + multiset{queue[0]} && HeapOrdered(queue)
      requires Blocked(c, deferred) && !CapHit(c, queue[0].value.workflow)
      ensures InOrder(toPush + [queue[0]], deferred, rest)
    {
      RestIsBehindHead(queue, rest);
    }

    method PutBack(deferred: seq<Waiting>)
      requires Valid()
      modifies this`pendingPQ
      ensures Valid()
      ensures multiset(pendingPQ) == old(multiset(pendingPQ)) + multiset(deferred)
      ensures forall x :: x in pendingPQ ==> x in old(pendingPQ) || x in deferred
    {
      var i := 0;
      while i < |deferred|
        invariant i <= |deferred| && Valid()
        invariant multiset(pendingPQ) == old(multiset(pendingPQ)) + multiset(deferred[..i])
      {
        var h := Push(pendingPQ, deferred[i]);
        pendingPQ := h;
        assert deferred[..i + 1] == deferred[..i] + [deferred[i]];
        i := i + 1;
      }
      assert deferred[..i] == deferred;
      forall x | x in pendingPQ ensures x in old(pendingPQ) || x in deferred {
        assert x in multiset(pendingPQ);
      }
    }

    /** batchPush: build the payloads, write them in one transaction, and give back the slots of the
        tasks that could not be serialized and, if the write fails, of all that were to be written. */
    method BatchPush(tasks: seq<Waiting>, env: BatchEnv) returns (written: seq<Waiting>)
      modifies this`globalActive, this`perWfActive
      ensures written == if env.storeOk then All(tasks, env, Ready) else []
      ensures var refunds := |All(tasks, env, Unserializable)| + if env.storeOk then 0 else |All(tasks, env, Ready)|;
              globalActive == old(globalActive) - if globalMax > 0 then refunds else 0
      ensures forall w :: Load(perWfActive, w) == old(Load(perWfActive, w))
                - Of(All(tasks, env, Unserializable), w) - if env.storeOk then 0 else Of(All(tasks, env, Ready), w)
    {
      var kvs: seq<Waiting> := [];
      var occupied: seq<bool> := [];
      var cache: set<Workflow> := {};
      for i := 0 to |tasks|
        invariant |occupied| == i
        invariant kvs == Having(tasks, env, Ready, i)
        invariant forall j :: 0 <= j < i ==> occupied[j] == (FateOf(tasks, env, j) == Ready)
        invariant forall w :: w in cache <==> exists j :: 0 <= j < i && tasks[j].value.workflow == w && env.found(j)
        invariant globalActive == old(globalActive) - if globalMax > 0 then |Having(tasks, env, Unserializable, i)| else 0
        invariant Refunded(old(perWfActive), perWfActive, Having(tasks, env, Unserializable, i))
      {
        var w := tasks[i].value.workflow;
        RefundStep(old(perWfActive), perWfActive, tasks, env, Unserializable, i);
        var cached := w in cache;
        if !cached && !env.found(i) {
          assert !FoundBefore(tasks, env, i);
          occupied := occupied + [false];
          continue;
        }
        cache := cache + {w};
        assert FoundBefore(tasks, env, i);
        if !env.serializes(i) {
          if globalMax > 0 {
            globalActive := globalActive - 1;
          }
          perWfActive := Dec(perWfActive, w);
          occupied := occupied + [false];
          continue;
        }
        kvs := kvs + [tasks[i]];
        occupied := occupied + [true];
      }
      if |kvs| == 0 {
        return [];
      }
      if env.storeOk {
        return kvs;
      }
      written := [];
      RefundOccupied(tasks, env, occupied);
    }

    ghost predicate Refunded(before: Counters, after: Counters, q: seq<Waiting>) {
      forall w :: Load(after, w) == Load(before, w) - Of(q, w)
    }

    lemma RefundStep(before: Counters, c: Counters, tasks: seq<Waiting>, env: BatchEnv, f: Fate, i: nat)
      requires i < |tasks| && Refunded(before, c, Having(tasks, env, f, i))
      ensures Refunded(before, if FateOf(tasks, env, i) == f then Dec(c, tasks[i].value.workflow) else c,
                       Having(tasks, env, f, i + 1))
      ensures |Having(tasks, env, f, i + 1)| == |Having(tasks, env, f, i)| + if FateOf(tasks, env, i) == f then 1 else 0
    {
      var q := Having(tasks, env, f, i);
      if FateOf(tasks, env, i) == f {
        RefundOne(before, c, q, tasks[i]);
      } else {
        assert q + [] == q;
      }
    }

    lemma RefundOne(before: Counters, c: Counters, q: seq<Waiting>, x: Waiting)
      requires Refunded(before, c, q)
      ensures Refunded(before, Dec(c, x.value.workflow), q + [x])
    {
      forall v ensures Load(Dec(c, x.value.workflow), v) == Load(before, v) - Of(q + [x], v) {
        OfSnoc(q, x, v);
      }
    }

    method RefundOccupied(tasks: seq<Waiting>, env: BatchEnv, occupied: seq<bool>)
      requires |occupied| == |tasks|
      requires forall j :: 0 <= j < |tasks| ==> occupied[j] == (FateOf(tasks, env, j) == Ready)
      modifies this`globalActive, this`perWfActive
      ensures globalActive == old(globalActive) - if globalMax > 0 then |All(tasks, env, Ready)| else 0
      ensures forall w :: Load(perWfActive, w) == old(Load(perWfActive, w)) - Of(All(tasks, env, Ready), w)
    {
      for i := 0 to |tasks|
        invariant globalActive == old(globalActive) - if globalMax > 0 then |Having(tasks, env, Ready, i)| else 0
        invariant Refunded(old(perWfActive), perWfActive, Having(tasks, env, Ready, i))
      {
        var w := tasks[i].value.workflow;
        RefundStep(old(perWfActive), perWfActive, tasks, env, Ready, i);
        if !occupied[i] {
          continue;
        }
        if globalMax > 0 {
          globalActive := globalActive - 1;
        }
        perWfActive := Dec(perWfActive, w);
      }
    }

    /** tryDispatchPending: evict, select, write. The tasks that waited before are exactly those evicted,
        those selected and those still waiting; with a global cap both levels of counters end with one
        slot more per task written and one per task whose workflow had vanished, and nothing else. */
    method TryDispatchPending(now: int, env: BatchEnv)
      returns (evicted: seq<Waiting>, selected: seq<Waiting>, written: seq<Waiting>)
      requires Valid()
      modifies this
      ensures Valid()
      ensures multiset(old(pendingPQ)) == multiset(evicted) + multiset(selected) + multiset(pendingPQ)
      ensures forall x :: x in evicted ==> now - x.tick > TimeoutNanos()
      ensures running == old(running) - WorkflowsOf(evicted)
      ensures written == if env.storeOk then All(selected, env, Ready) else []
      ensures globalMax > 0 ==> globalActive == old(globalActive) + |written| + |All(selected, env, Vanished)|
      ensures globalMax <= 0 ==> globalActive == old(globalActive) + |selected|
      ensures forall w :: Load(perWfActive, w) ==
                (if w in WorkflowsOf(evicted) * old(running) then 0 else old(Load(perWfActive, w)))
                + Of(written, w) + Of(All(selected, env, Vanished), w)
      ensures env.storeOk && All(selected, env, Unserializable) == [] ==>
                (globalMax > 0 && globalActive >= globalMax)
                || forall x :: x in pendingPQ ==> perWfMax > 0 && Load(perWfActive, x.value.workflow) >= perWfMax
    {
      evicted := EvictTimedOut(now);
      selected := SelectTasks();
      written := BatchPush(selected, env);
      FatesOfAll(selected, env);
    }

    method EnqueuePending(task: Task, priority: int, now: int)
      requires Valid()
      modifies this`pendingPQ
      ensures Valid()
      ensures multiset(pendingPQ) == old(multiset(pendingPQ)) + multiset{Entry(priority, now, task)}
    {
      var h := Push(pendingPQ, Entry(priority, now, task));
      pendingPQ := h;
    }

    /** PushTask: check both caps, add, check again, write; refused tasks are enqueued. The two loads may
        be stale (other calls run in between), so they are inputs; the adds are not, so a task is only
        ever let through below both caps. A failed write gives the slots back except in two corners:
        without a global cap the global counter stays up, and without any cap the workflow's counter
        drops below where it was. */
    method PushTask(task: Task, priority: int, now: int, seenWf: int, seenGlobal: int, writeOk: bool)
      returns (r: PushResult)
      requires Valid()
      modifies this`globalActive, this`perWfActive, this`pendingPQ
      ensures Valid()
      ensures multiset(pendingPQ) == old(multiset(pendingPQ))
                + if r == Enqueued then multiset{Entry(priority, now, task)} else multiset{}
      ensures seenWf == old(Load(perWfActive, task.workflow)) && seenGlobal == old(globalActive) ==>
                (r == Enqueued <==> (globalMax > 0 && old(globalActive) >= globalMax)
                                    || (perWfMax > 0 && old(Load(perWfActive, task.workflow)) >= perWfMax))
      ensures r != Enqueued ==>
                && (globalMax > 0 ==> old(globalActive) < globalMax)
                && (perWfMax > 0 ==> old(Load(perWfActive, task.workflow)) < perWfMax)
                && (r == Pushed <==> writeOk)
      ensures r == Enqueued ==>
                || (globalMax > 0 && (seenGlobal >= globalMax || old(globalActive) >= globalMax))
                || (perWfMax > 0 && (seenWf >= perWfMax || old(Load(perWfActive, task.workflow)) >= perWfMax))
      ensures globalActive == old(globalActive) + match r
                case Enqueued => 0
                case Pushed => if globalMax > 0 || perWfMax > 0 then 1 else 0
                case PushFailed => if globalMax <= 0 && perWfMax > 0 then 1 else 0
      ensures Load(perWfActive, task.workflow) == old(Load(perWfActive, task.workflow)) + match r
                case Enqueued => 0
                case Pushed => if globalMax > 0 || perWfMax > 0 then 1 else 0
                case PushFailed => if globalMax > 0 || perWfMax > 0 then 0 else -1
      ensures forall w :: w != task.workflow ==> Load(perWfActive, w) == old(Load(perWfActive, w))
    {
      var w := task.workflow;
      if globalMax > 0 || perWfMax > 0 {
        if perWfMax > 0 && seenWf >= perWfMax {
          EnqueuePending(task, priority, now);
          return Enqueued;
        }
        if globalMax > 0 && seenGlobal >= globalMax {
          EnqueuePending(task, priority, now);
          return Enqueued;
        }
        perWfActive := Inc(perWfActive, w);
        if perWfMax > 0 && Load(perWfActive, w) > perWfMax {
          perWfActive := Dec(perWfActive, w);
          EnqueuePending(task, priority, now);
          return Enqueued;
        }
        globalActive := globalActive + 1;
        if globalMax > 0 && globalActive > globalMax {
          globalActive := globalActive - 1;
          perWfActive := Dec(perWfActive, w);
          EnqueuePending(task, priority, now);
          return Enqueued;
        }
      }
      if !writeOk {
        if globalMax > 0 {
          globalActive := globalActive - 1;
        }
        perWfActive := Dec(perWfActive, w);
        return PushFailed;
      }
      return Pushed;
    }

    /** ReleaseSlotForWorkflow: give one slot of both levels back and dispatch what has become possible. */
    method ReleaseSlotForWorkflow(w: Workflow, now: int, env: BatchEnv)
      returns (evicted: seq<Waiting>, selected: seq<Waiting>, written: seq<Waiting>)
      requires Valid()
      modifies this
      ensures Valid()
      ensures multiset(old(pendingPQ)) == multiset(evicted) + multiset(selected) + multiset(pendingPQ)
      ensures written == if env.storeOk then All(selected, env, Ready) else []
      ensures globalMax > 0 ==> globalActive == old(globalActive) - 1 + |written| + |All(selected, env, Vanished)|
      ensures globalMax <= 0 ==> globalActive == old(globalActive) + |selected|
      ensures forall v :: Load(perWfActive, v) ==
                (if v in WorkflowsOf(evicted) * old(running) then 0
                 else old(Load(perWfActive, v)) - if v == w then 1 else 0)
                + Of(written, v) + Of(All(selected, env, Vanished), v)
    {
      if globalMax > 0 {
        globalActive := globalActive - 1;
      }
      perWfActive := Dec(perWfActive, w);
      evicted, selected, written := TryDispatchPending(now, env);
    }

    /** RetryTask: it takes a slot of both levels without looking at any cap. When the write fails it ends
        the workflow, which clears that workflow's counter, and only then gives the slot back, so the
        counter of a workflow still running comes to minus one; then it dispatches what waits. */
    method RetryTask(w: Workflow, writeOk: bool, now: int, env: BatchEnv)
      returns (evicted: seq<Waiting>, selected: seq<Waiting>, written: seq<Waiting>)
      requires Valid()
      modifies this
      ensures Valid()
      ensures multiset(old(pendingPQ)) == multiset(evicted) + multiset(selected) + multiset(pendingPQ)
      ensures writeOk ==> evicted == [] && selected == [] && pendingPQ == old(pendingPQ) && running == old(running)
      ensures !writeOk ==> running == old(running) - {w} - WorkflowsOf(evicted)
      ensures written == if env.storeOk then All(selected, env, Ready) else []
      ensures globalMax > 0 ==> globalActive == old(globalActive) + (if writeOk then 1 else 0)
                                                + |written| + |All(selected, env, Vanished)|
      ensures globalMax <= 0 ==> globalActive == old(globalActive) + |selected|
      ensures forall v :: Load(perWfActive, v) ==
                (if v in WorkflowsOf(evicted) * (old(running) - {w}) then 0
                 else if v != w then old(Load(perWfActive, v))
                 else if writeOk then old(Load(perWfActive, w)) + (if globalMax > 0 || perWfMax > 0 then 1 else 0)
                 else if w in old(running) then -1
                 else old(Load(perWfActive, w)) - (if globalMax > 0 || perWfMax > 0 then 0 else 1))
                + Of(written, v) + Of(All(selected, env, Vanished), v)
    {
      evicted, selected, written := [], [], [];
      if globalMax > 0 || perWfMax > 0 {
        if globalMax > 0 {
          globalActive := globalActive + 1;
        }
        perWfActive := Inc(perWfActive, w);
      }
      NoFates(env);
      if !writeOk {
        MarkWorkflowFailed(w);
        if globalMax > 0 {
          globalActive := globalActive - 1;
        }
        perWfActive := Dec(perWfActive, w);
        evicted, selected, written := TryDispatchPending(now, env);
      }
    }

    lemma NoFates(env: BatchEnv)
      ensures All([], env, Ready) == [] && All([], env, Vanished) == []
    {
    }
  }
}
