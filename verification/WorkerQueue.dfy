/** The worker's task queue: an array heap that refines a queue ranked by priority and arrival. */
module WorkerQueue {
  import opened Heap

  datatype Event = Event(key: string, value: string)

  type Item = Entry<Event>

  /** What one Dequeue round does: hand out an event, report the closed queue, or go on waiting. */
  datatype Dequeued = Taken(event: Event) | Closed | Waiting

  // ---------------------------------------------------------------- the simple queue

  /** Every element outranks all later ones. */
  ghost predicate Ranked(q: seq<Item>) {
    forall i, j :: 0 <= i < j < |q| ==> Less(q[i], q[j])
  }

  /** x is put behind everything it does not outrank. */
  ghost function Place(x: Item, q: seq<Item>): seq<Item> {
    if q == [] || Less(x, q[0]) then [x] + q else [q[0]] + Place(x, q[1..])
  }

  ghost predicate ArrivedBy(q: seq<Item>, tick: int) {
    forall k :: 0 <= k < |q| ==> q[k].tick <= tick
  }

  lemma {:induction false} PlaceMembers(x: Item, q: seq<Item>)
    ensures multiset(Place(x, q)) == multiset(q) + multiset{x}
    ensures forall y :: y in Place(x, q) <==> y == x || y in q
  {
    if q != [] && !Less(x, q[0]) {
      PlaceMembers(x, q[1..]);
      assert q == [q[0]] + q[1..];
    }
  }

  lemma ConsKeepsRank(y: Item, q: seq<Item>)
    requires Ranked(q) && forall z :: z in q ==> Less(y, z)
    ensures Ranked([y] + q)
  {
  }

  lemma {:induction false} PlaceKeepsRank(x: Item, q: seq<Item>)
    requires Ranked(q) && ArrivedBy(q, x.tick - 1)
    ensures Ranked(Place(x, q)) && ArrivedBy(Place(x, q), x.tick)
    ensures multiset(Place(x, q)) == multiset(q) + multiset{x}
  {
    PlaceMembers(x, q);
    if q == [] || Less(x, q[0]) {
      assert forall z :: z in q ==> z == q[0] || Less(q[0], z);
      ConsKeepsRank(x, q);
    } else {
      PlaceMembers(x, q[1..]);
      PlaceKeepsRank(x, q[1..]);
      assert forall z :: z in q[1..] ==> Less(q[0], z);
      ConsKeepsRank(q[0], Place(x, q[1..]));
    }
  }

  ghost function OfPriority(q: seq<Item>, p: int): seq<Item> {
    if q == [] then []
    else (if q[0].priority == p then [q[0]] else []) + OfPriority(q[1..], p)
  }

  lemma {:induction false} OfPrioritySnoc(q: seq<Item>, x: Item, p: int)
    ensures OfPriority(q + [x], p) == OfPriority(q, p) + (if x.priority == p then [x] else [])
  {
    if q == [] {
    } else {
      OfPrioritySnoc(q[1..], x, p);
      assert (q + [x])[1..] == q[1..] + [x];
    }
  }

  lemma OfPriorityCons(x: Item, q: seq<Item>, p: int)
    ensures OfPriority([x] + q, p) == (if x.priority == p then [x] else []) + OfPriority(q, p)
  {
    assert ([x] + q)[1..] == q;
  }

  lemma Regroup(a: seq<Item>, b: seq<Item>, c: seq<Item>)
    ensures a + (b + c) == (a + b) + c
  {
  }

  /** A newcomer joins its own priority class at the end and leaves every other class alone. */
  lemma {:induction false} PlaceIsFifo(x: Item, q: seq<Item>, p: int)
    requires Ranked(q) && ArrivedBy(q, x.tick - 1)
    ensures OfPriority(Place(x, q), p) == OfPriority(q, p) + (if x.priority == p then [x] else [])
  {
    var own := if x.priority == p then [x] else [];
    if q == [] {
      OfPriorityCons(x, [], p);
    } else if Less(x, q[0]) {
      OfPriorityCons(x, q, p);
      if x.priority == p {
        NonePlaced(q, p);
      }
    } else {
      PlaceIsFifo(x, q[1..], p);
      OfPriorityCons(q[0], Place(x, q[1..]), p);
      Regroup(if q[0].priority == p then [q[0]] else [], OfPriority(q[1..], p), own);
    }
  }

  lemma {:induction false} NonePlaced(q: seq<Item>, p: int)
    requires Ranked(q) && (q != [] ==> q[0].priority < p)
    ensures OfPriority(q, p) == []
  {
    if q != [] {
      if |q| > 1 {
        assert Less(q[0], q[1]);
      }
      NonePlaced(q[1..], p);
    }
  }

  /** The heap's front is the head of the ranked queue. */
  lemma RankedHeadLeavesFirst(items: seq<Item>, q: seq<Item>, x: Item, rest: seq<Item>)
    requires multiset(items) == multiset(q) && Ranked(q) && q != []
    requires multiset(items) == multiset(rest) + multiset{x}
    requires forall y :: y in items ==> !Less(y, x)
    ensures x == q[0] && multiset(rest) == multiset(q[1..])
  {
    assert x in multiset(q);
    assert q[0] in multiset(items);
    var k :| 0 <= k < |q| && q[k] == x;
    if k > 0 {
      assert Less(q[0], q[k]);
    }
    assert q == [q[0]] + q[1..];
    assert multiset(q) == multiset{x} + multiset(q[1..]);
    assert multiset(rest) == multiset(q) - multiset{x};
  }

  // ---------------------------------------------------------------- the array heap

  class PriorityTaskQueue {
    var items: seq<Item>
    var nextIndex: int
    var closed: bool
    ghost var ranked: seq<Item>

    ghost predicate Valid()
      reads this
    {
      && HeapOrdered(items)
      && multiset(items) == multiset(ranked)
      && Ranked(ranked)
      && ArrivedBy(ranked, nextIndex)
    }

    ghost function View(): QueueState
      reads this
    {
      QueueState(ranked, nextIndex, closed)
    }

    constructor ()
      ensures Valid() && View() == QueueState([], 0, false)
    {
      items, nextIndex, closed := [], 0, false;
      ranked := [];
    }

    method Enqueue(event: Event, priority: int)
      requires Valid()
      modifies this
      ensures Valid() && View() == Enqueued(old(View()), event, priority)
      ensures old(closed) ==> items == old(items)
      ensures !old(closed) ==> multiset(items) == old(multiset(items)) + multiset{Entry(priority, old(nextIndex) + 1, event)}
    {
      if closed {
        return;
      }
      nextIndex := nextIndex + 1;
      var x := Entry(priority, nextIndex, event);
      PlaceKeepsRank(x, ranked);
      items := Push(items, x);
      ranked := Place(x, ranked);
    }

    /** One round of the wait loop; closeSignalled says whether the close channel fires when it waits.
        A queue with events hands out the front even when it is closed; an empty one reports that it is
        closed, or is closed by the signal, or goes on waiting. */
    method Dequeue(closeSignalled: bool) returns (r: Dequeued)
      requires Valid()
      modifies this
      ensures Valid()
      ensures (View(), r) == AfterDequeue(old(View()), closeSignalled)
      ensures old(items) != [] ==> closed == old(closed) && r == Taken(old(items)[0].value)
                                   && old(multiset(items)) == multiset(items) + multiset{old(items)[0]}
      ensures old(items) == [] ==> items == [] && closed == (old(closed) || closeSignalled)
                                   && r == if old(closed) || closeSignalled then Closed else Waiting
    {
      assert |items| == |multiset(items)| == |ranked|;
      if closed && |items| == 0 {
        return Closed;
      }
      if |items| > 0 {
        var x, rest := Pop(items);
        RankedHeadLeavesFirst(items, ranked, x, rest);
        items := rest;
        ranked := ranked[1..];
        return Taken(x.value);
      }
      if closeSignalled {
        closed := true;
        return Closed;
      }
      return Waiting;
    }

    method Close()
      requires Valid()
      modifies this
      ensures Valid() && View() == old(View()).(closed := true)
    {
      closed := true;
    }
  }

  // ---------------------------------------------------------------- runs

  datatype QueueState = QueueState(ranked: seq<Item>, nextIndex: int, closed: bool)

  ghost function Enqueued(s: QueueState, event: Event, priority: int): QueueState {
    if s.closed then s
    else s.(ranked := Place(Entry(priority, s.nextIndex + 1, event), s.ranked), nextIndex := s.nextIndex + 1)
  }

  ghost function AfterDequeue(s: QueueState, closeSignalled: bool): (QueueState, Dequeued) {
    if s.ranked != [] then (s.(ranked := s.ranked[1..]), Taken(s.ranked[0].value))
    else if s.closed then (s, Closed)
    else if closeSignalled then (s.(closed := true), Closed)
    else (s, Waiting)
  }

  datatype Op = Enq(event: Event, priority: int) | Deq(closeSignalled: bool) | CloseQueue

  /** A run with its history: what was accepted, in order, and what was handed out, in order. */
  datatype Trace = Trace(s: QueueState, arrived: seq<Item>, departed: seq<Item>)

  ghost function Step(t: Trace, op: Op): Trace {
    match op
    case Enq(event, priority) =>
      t.(s := Enqueued(t.s, event, priority),
         arrived := t.arrived + if t.s.closed then [] else [Entry(priority, t.s.nextIndex + 1, event)])
    case Deq(sig) =>
      t.(s := AfterDequeue(t.s, sig).0,
         departed := t.departed + if t.s.ranked == [] then [] else [t.s.ranked[0]])
    case CloseQueue => t.(s := t.s.(closed := true))
  }

  datatype Run = Start | Then(before: Run, op: Op)

  ghost function End(r: Run): Trace {
    match r
    case Start => Trace(QueueState([], 0, false), [], [])
    case Then(before, op) => Step(End(before), op)
  }

  ghost predicate Consistent(t: Trace) {
    && Ranked(t.s.ranked)
    && ArrivedBy(t.s.ranked, t.s.nextIndex)
    && multiset(t.departed) + multiset(t.s.ranked) == multiset(t.arrived)
  }

  lemma ArrivalKeepsConsistent(t: Trace, event: Event, priority: int)
    requires Consistent(t) && !t.s.closed
    ensures Consistent(Step(t, Enq(event, priority)))
  {
    PlaceKeepsRank(Entry(priority, t.s.nextIndex + 1, event), t.s.ranked);
  }

  lemma DepartureKeepsConsistent(t: Trace, sig: bool)
    requires Consistent(t) && t.s.ranked != []
    ensures Consistent(Step(t, Deq(sig)))
  {
    var q := t.s.ranked;
    assert q == [q[0]] + q[1..];
    assert multiset(q) == multiset{q[0]} + multiset(q[1..]);
  }

  lemma StepKeepsConsistent(t: Trace, op: Op)
    requires Consistent(t)
    ensures Consistent(Step(t, op))
  {
    if op.Enq? && !t.s.closed {
      ArrivalKeepsConsistent(t, op.event, op.priority);
    } else if op.Deq? && t.s.ranked != [] {
      DepartureKeepsConsistent(t, op.closeSignalled);
    } else {
      assert t.arrived + [] == t.arrived && t.departed + [] == t.departed;
      assert Step(t, op) == t.(s := Step(t, op).s) && Step(t, op).s.ranked == t.s.ranked;
    }
  }

  /** In every run nothing is lost or duplicated, and the waiting tasks are ranked, so the next
      Dequeue hands out the highest priority and, within it, the earliest arrival. */
  lemma {:induction false} NothingLostAndHeadFirst(r: Run)
    ensures Consistent(End(r))
  {
    if r.Then? {
      NothingLostAndHeadFirst(r.before);
      StepKeepsConsistent(End(r.before), r.op);
    }
  }

  ghost predicate Fifo(t: Trace, p: int) {
    OfPriority(t.departed, p) + OfPriority(t.s.ranked, p) == OfPriority(t.arrived, p)
  }

  lemma ArrivalKeepsFifo(t: Trace, event: Event, priority: int, p: int)
    requires Consistent(t) && Fifo(t, p) && !t.s.closed
    ensures Fifo(Step(t, Enq(event, priority)), p)
  {
    var x := Entry(priority, t.s.nextIndex + 1, event);
    var t' := Trace(QueueState(Place(x, t.s.ranked), t.s.nextIndex + 1, false), t.arrived + [x], t.departed);
    assert Step(t, Enq(event, priority)) == t';
    PlaceIsFifo(x, t.s.ranked, p);
    OfPrioritySnoc(t.arrived, x, p);
    JoinsBothEnds(t, t', if x.priority == p then [x] else [], p);
  }

  lemma JoinsBothEnds(t: Trace, t': Trace, own: seq<Item>, p: int)
    requires Fifo(t, p) && t'.departed == t.departed
    requires OfPriority(t'.s.ranked, p) == OfPriority(t.s.ranked, p) + own
    requires OfPriority(t'.arrived, p) == OfPriority(t.arrived, p) + own
    ensures Fifo(t', p)
  {
    Regroup(OfPriority(t.departed, p), OfPriority(t.s.ranked, p), own);
  }

  lemma DepartureKeepsFifo(t: Trace, sig: bool, p: int)
    requires Fifo(t, p) && t.s.ranked != []
    ensures Fifo(Step(t, Deq(sig)), p)
  {
    OfPrioritySnoc(t.departed, t.s.ranked[0], p);
  }

  lemma StepKeepsFifo(t: Trace, op: Op, p: int)
    requires Consistent(t) && Fifo(t, p)
    ensures Fifo(Step(t, op), p)
  {
    if op.Enq? && !t.s.closed {
      ArrivalKeepsFifo(t, op.event, op.priority, p);
    } else if op.Deq? && t.s.ranked != [] {
      DepartureKeepsFifo(t, op.closeSignalled, p);
    } else {
      assert t.arrived + [] == t.arrived && t.departed + [] == t.departed;
    }
  }

  /** Within each priority the queue is first in, first out, however operations interleave. */
  lemma {:induction false} FifoWithinPriority(r: Run, p: int)
    ensures OfPriority(End(r).departed, p) + OfPriority(End(r).s.ranked, p) == OfPriority(End(r).arrived, p)
  {
    if r.Then? {
      NothingLostAndHeadFirst(r.before);
      FifoWithinPriority(r.before, p);
      StepKeepsFifo(End(r.before), r.op, p);
    }
  }

  // ---------------------------------------------------------------- draining is the stable sort

  ghost predicate Descending(q: seq<Item>) {
    forall i, j :: 0 <= i < j < |q| ==> q[i].priority >= q[j].priority
  }

  /** out is the stable sort of input: priorities descend and each priority keeps its input order. */
  ghost predicate StableSortOf(out: seq<Item>, input: seq<Item>) {
    Descending(out) && forall p :: OfPriority(out, p) == OfPriority(input, p)
  }

  lemma {:induction false} OfPriorityMembers(q: seq<Item>, p: int, x: Item)
    ensures x in OfPriority(q, p) <==> x in q && x.priority == p
  {
    if q != [] {
      OfPriorityMembers(q[1..], p, x);
      assert q == [q[0]] + q[1..];
    }
  }

  lemma SameTail(a: seq<Item>, b: seq<Item>, p: int)
    requires a != [] && b != [] && a[0].priority == b[0].priority
    requires OfPriority(a, p) == OfPriority(b, p)
    ensures OfPriority(a[1..], p) == OfPriority(b[1..], p)
  {
    var mine := a[0].priority == p;
    assert OfPriority(a, p) == (if mine then [a[0]] else []) + OfPriority(a[1..], p);
    assert OfPriority(b, p) == (if mine then [b[0]] else []) + OfPriority(b[1..], p);
    if mine {
      assert OfPriority(a, p)[1..] == OfPriority(a[1..], p);
      assert OfPriority(b, p)[1..] == OfPriority(b[1..], p);
    } else {
      assert [] + OfPriority(a[1..], p) == OfPriority(a[1..], p);
      assert [] + OfPriority(b[1..], p) == OfPriority(b[1..], p);
    }
  }

  lemma TailDescends(q: seq<Item>)
    requires q != [] && Descending(q)
    ensures Descending(q[1..])
  {
  }

  lemma SameFirst(a: seq<Item>, b: seq<Item>)
    requires a != [] && b != [] && a[0].priority == b[0].priority
    requires OfPriority(a, a[0].priority) == OfPriority(b, a[0].priority)
    ensures a[0] == b[0]
  {
    var p := a[0].priority;
    assert OfPriority(a, p)[0] == a[0] && OfPriority(b, p)[0] == b[0];
  }

  lemma SameTails(a: seq<Item>, b: seq<Item>)
    requires a != [] && b != [] && a[0].priority == b[0].priority
    requires forall p :: OfPriority(a, p) == OfPriority(b, p)
    ensures forall p :: OfPriority(a[1..], p) == OfPriority(b[1..], p)
  {
    forall p ensures OfPriority(a[1..], p) == OfPriority(b[1..], p) {
      assert OfPriority(a, p) == OfPriority(b, p);
      SameTail(a, b, p);
    }
  }

  lemma {:induction false} StableSortUnique(a: seq<Item>, b: seq<Item>)
    requires Descending(a) && Descending(b)
    requires forall p :: OfPriority(a, p) == OfPriority(b, p)
    ensures a == b
  {
    if a == [] {
      OnlyEmpty(a, b);
    } else {
      SameFirstPriority(a, b);
      assert a[1..] == b[1..] by {
        SameTails(a, b);
        TailDescends(a);
        TailDescends(b);
        StableSortUnique(a[1..], b[1..]);
      }
      SameFirst(a, b);
      assert a == [a[0]] + a[1..] && b == [b[0]] + b[1..];
    }
  }

  lemma OnlyEmpty(a: seq<Item>, b: seq<Item>)
    requires a == [] && forall p :: OfPriority(a, p) == OfPriority(b, p)
    ensures b == []
  {
    forall p ensures OfPriority(b, p) == [] {
      assert OfPriority(a, p) == OfPriority(b, p);
    }
    EmptyIff(b);
  }

  lemma EmptyIff(b: seq<Item>)
    ensures b == [] <==> forall p :: OfPriority(b, p) == []
  {
    if b != [] {
      assert OfPriority(b, b[0].priority) != [];
    }
  }

  lemma SameFirstPriority(a: seq<Item>, b: seq<Item>)
    requires a != [] && Descending(a) && Descending(b)
    requires forall p :: OfPriority(a, p) == OfPriority(b, p)
    ensures b != [] && a[0].priority == b[0].priority
  {
    OfPriorityMembers(a, a[0].priority, a[0]);
    assert OfPriority(a, a[0].priority) == OfPriority(b, a[0].priority);
    OfPriorityMembers(b, a[0].priority, a[0]);
    OfPriorityMembers(b, b[0].priority, b[0]);
    assert OfPriority(a, b[0].priority) == OfPriority(b, b[0].priority);
    OfPriorityMembers(a, b[0].priority, b[0]);
  }

  ghost function Drained(r: Run, n: nat): Run {
    if n == 0 then r else Then(Drained(r, n - 1), Deq(false))
  }

  /** After any run, Dequeue repeated once per waiting task empties the queue in rank order. */
  lemma {:induction false} DrainHandsOutRanked(r: Run, n: nat)
    requires n <= |End(r).s.ranked|
    ensures var t, t' := End(r), End(Drained(r, n));
            && t'.s.ranked == t.s.ranked[n..]
            && t'.departed == t.departed + t.s.ranked[..n]
            && t'.arrived == t.arrived
  {
    if n > 0 {
      DrainHandsOutRanked(r, n - 1);
      var d, q := End(r).departed, End(r).s.ranked;
      OneMore(d, q, n);
      var t := End(Drained(r, n - 1));
      assert t.s.ranked[0] == q[n - 1];
      assert End(Drained(r, n)) == Step(t, Deq(false));
    }
  }

  lemma OneMore(d: seq<Item>, q: seq<Item>, n: nat)
    requires 0 < n <= |q|
    ensures q[n - 1..] != [] && q[n - 1..][0] == q[n - 1] && q[n - 1..][1..] == q[n..]
    ensures (d + q[..n - 1]) + [q[n - 1]] == d + q[..n]
  {
  }

  /** out is what is missing from input behind done: priorities descend, and for each priority done and
      out together are the input's elements of that priority, in order. */
  ghost predicate SortsRest(done: seq<Item>, out: seq<Item>, input: seq<Item>) {
    Descending(out) && forall p :: OfPriority(done, p) + OfPriority(out, p) == OfPriority(input, p)
  }

  /** Draining after any run hands out, behind what had departed before, the stable sort of the arrivals
      that were still waiting, and no other sequence is that. When nothing had departed, draining yields
      the stable sort of all arrivals. */
  lemma DrainIsStableSort(r: Run, out: seq<Item>)
    ensures var t, t' := End(r), End(Drained(r, |End(r).s.ranked|));
            && t'.s.ranked == []
            && t'.departed == t.departed + t.s.ranked
            && SortsRest(t.departed, t.s.ranked, t.arrived)
            && (SortsRest(t.departed, out, t.arrived) ==> out == t.s.ranked)
            && (t.departed == [] ==> StableSortOf(t'.departed, t.arrived))
  {
    var t := End(r);
    DrainHandsOutRanked(r, |t.s.ranked|);
    RankedSortsRest(r);
    if SortsRest(t.departed, out, t.arrived) {
      RestIsUnique(t.departed, out, t.s.ranked, t.arrived);
    }
    if t.departed == [] {
      assert t.departed + t.s.ranked == t.s.ranked;
      forall p ensures OfPriority(t.s.ranked, p) == OfPriority(t.arrived, p) {
        assert OfPriority(t.departed, p) + OfPriority(t.s.ranked, p) == OfPriority(t.arrived, p);
        assert [] + OfPriority(t.s.ranked, p) == OfPriority(t.s.ranked, p);
      }
    }
  }

  lemma RankedSortsRest(r: Run)
    ensures SortsRest(End(r).departed, End(r).s.ranked, End(r).arrived)
  {
    NothingLostAndHeadFirst(r);
    RankedDescends(End(r).s.ranked);
    forall p ensures OfPriority(End(r).departed, p) + OfPriority(End(r).s.ranked, p) == OfPriority(End(r).arrived, p) {
      FifoWithinPriority(r, p);
    }
  }

  lemma RestIsUnique(done: seq<Item>, a: seq<Item>, b: seq<Item>, input: seq<Item>)
    requires SortsRest(done, a, input) && SortsRest(done, b, input)
    ensures a == b
  {
    forall p ensures OfPriority(a, p) == OfPriority(b, p) {
      assert OfPriority(done, p) + OfPriority(a, p) == OfPriority(input, p) == OfPriority(done, p) + OfPriority(b, p);
      SameBehind(OfPriority(done, p), OfPriority(a, p), OfPriority(b, p));
    }
    StableSortUnique(a, b);
  }

  lemma SameBehind(d: seq<Item>, a: seq<Item>, b: seq<Item>)
    requires d + a == d + b
    ensures a == b
  {
    assert a == (d + a)[|d|..] == (d + b)[|d|..] == b;
  }

  lemma RankedDescends(q: seq<Item>)
    requires Ranked(q)
    ensures Descending(q)
  {
    forall i, j | 0 <= i < j < |q| ensures q[i].priority >= q[j].priority {
      assert Less(q[i], q[j]);
    }
  }
}
