/** One workflow's slot counter under concurrency. The counter is an atomic integer found through a
    concurrent map, created on first use and deleted from the map when a decrement brings it to zero.
    Finding it, adding to it and deleting it are separate steps, and anything may happen in between. A
    push checks what its own add returned; the dispatcher, one at a time under the queue's lock, checks
    only before; a retry does not check at all. */
module CounterRace {
  import opened Options

  type Tid = nat

  /** Where a task stands on its way to a slot and back. A task that is refused or done is forgotten. */
  datatype Pc =
    | Passed                  // the push's load was below the cap
    | Found(counter: nat)     // the push has found the counter to increment
    | Checked                 // the dispatcher's load was below the cap
    | Picked(counter: nat)    // the dispatcher has found the counter to increment
    | Retrying(counter: nat)  // the retry has found the counter to increment
    | Holds(retried: bool)    // has a slot
    | Overshot                // its add went past the cap and is still to be taken back
    | Giving(counter: nat)    // the counter to decrement has been found
    | Deleting                // brought a counter to zero; the map entry is still to be deleted

  /** All counters ever created, and which of them the map holds. */
  datatype State = State(counters: seq<int>, current: Option<nat>, tasks: map<Tid, Pc>)

  datatype Step =
    | Load(t: Tid)
    | DispatcherLoad(t: Tid)
    | RetryFind(t: Tid)
    | FindToAdd(t: Tid)
    | Add(t: Tid)
    | FindToGive(t: Tid)
    | Give(t: Tid)
    | Delete(t: Tid)
    | Cleanup            // the workflow has ended: the map entry is deleted whatever it holds

  const INIT := State([], None, map[])

  /** What loadPerWfActive reads. */
  ghost function Visible(s: State): int {
    if s.current.Some? && s.current.value < |s.counters| then s.counters[s.current.value] else 0
  }

  /** getOrCreatePerWfCounter. */
  ghost function Create(s: State): State {
    if s.current.Some? then s else s.(counters := s.counters + [0], current := Some(|s.counters|))
  }

  ghost function Counter(s: State): nat {
    if s.current.Some? then s.current.value else |s.counters|
  }

  ghost function At(s: State, t: Tid, pc: Pc): State {
    s.(tasks := s.tasks[t := pc])
  }

  ghost function Bumped(s: State, c: nat, d: int): State
    requires c < |s.counters|
  {
    s.(counters := s.counters[c := s.counters[c] + d])
  }

  ghost predicate Wants(s: State, t: Tid) {
    t in s.tasks && (s.tasks[t].Holds? || s.tasks[t] == Overshot)
  }

  /** The dispatcher is between its load and its add for this task. */
  ghost predicate Dispatching(pc: Pc) {
    pc.Checked? || pc.Picked?
  }

  ghost predicate DispatcherBusy(s: State) {
    exists t :: t in s.tasks && Dispatching(s.tasks[t])
  }

  /** About to add to this counter. */
  ghost predicate Adding(pc: Pc) {
    pc.Found? || pc.Picked? || pc.Retrying?
  }

  ghost predicate Enabled(s: State, step: Step) {
    match step
    case Load(t) => t !in s.tasks
    case DispatcherLoad(t) => t !in s.tasks && !DispatcherBusy(s)
    case RetryFind(t) => t !in s.tasks
    case FindToAdd(t) => t in s.tasks && (s.tasks[t] == Passed || s.tasks[t] == Checked)
    case Add(t) => t in s.tasks && Adding(s.tasks[t]) && s.tasks[t].counter < |s.counters|
    case FindToGive(t) => Wants(s, t)
    case Give(t) => t in s.tasks && s.tasks[t].Giving? && s.tasks[t].counter < |s.counters|
    case Delete(t) => t in s.tasks && s.tasks[t] == Deleting
    case Cleanup => true
  }

  /** The map holds an existing counter. */
  ghost predicate Valid(s: State) {
    s.current.Some? ==> s.current.value < |s.counters|
  }

  /** What an add leads to: only a push looks at the new value. */
  ghost function AfterAdd(max: int, pc: Pc, value: int): Pc {
    if pc.Found? && value > max then Overshot else Holds(pc.Retrying?)
  }

  ghost function Added(max: int, s: State, t: Tid): State
    requires Enabled(s, Add(t))
  {
    var c := s.tasks[t].counter;
    At(Bumped(s, c, 1), t, AfterAdd(max, s.tasks[t], s.counters[c] + 1))
  }

  ghost function Apply(max: int, s: State, step: Step): State
    requires Enabled(s, step)
  {
    match step
    case Load(t) => if Visible(s) >= max then s else At(s, t, Passed)
    case DispatcherLoad(t) => if Visible(s) >= max then s else At(s, t, Checked)
    case RetryFind(t) => At(Create(s), t, Retrying(Counter(s)))
    case FindToAdd(t) => At(Create(s), t, if s.tasks[t] == Passed then Found(Counter(s)) else Picked(Counter(s)))
    case Add(t) => Added(max, s, t)
    case FindToGive(t) => At(Create(s), t, Giving(Counter(s)))
    case Give(t) =>
      var c := s.tasks[t].counter;
      if s.counters[c] - 1 == 0 then At(Bumped(s, c, -1), t, Deleting)
      else Bumped(s, c, -1).(tasks := s.tasks - {t})
    case Delete(t) => s.(current := None, tasks := s.tasks - {t})
    case Cleanup => s.(current := None)
  }

  datatype Run = Start | Then(before: Run, step: Step)

  ghost function End(max: int, r: Run): State {
    match r
    case Start => INIT
    case Then(before, step) =>
      var s := End(max, before);
      if Enabled(s, step) then Apply(max, s, step) else s
  }

  ghost function Holders(tasks: map<Tid, Pc>): set<Tid> {
    set t | t in tasks && tasks[t].Holds?
  }

  ghost function Retries(tasks: map<Tid, Pc>): set<Tid> {
    set t | t in tasks && tasks[t] == Holds(true)
  }

  ghost function FirstTimes(tasks: map<Tid, Pc>): set<Tid> {
    set t | t in tasks && tasks[t] == Holds(false)
  }

  /** The tasks whose add has not been taken back. */
  ghost function Charged(tasks: map<Tid, Pc>): set<Tid> {
    set t | t in tasks && Owes(tasks[t])
  }

  ghost predicate Owes(pc: Pc) {
    pc.Holds? || pc == Overshot || pc.Giving?
  }

  ghost function Debt(tasks: map<Tid, Pc>, t: Tid): nat {
    if t in tasks && Owes(tasks[t]) then 1 else 0
  }

  // ---------------------------------------------------------------- no add is ever lost

  ghost function Sum(s: seq<int>): int {
    if s == [] then 0 else Sum(s[..|s| - 1]) + s[|s| - 1]
  }

  lemma {:induction false} SumUpdate(s: seq<int>, i: nat, x: int)
    requires i < |s|
    ensures Sum(s[i := x]) == Sum(s) - s[i] + x
  {
    var last := |s| - 1;
    if i < last {
      SumUpdate(s[..last], i, x);
      assert s[i := x][..last] == s[..last][i := x];
    } else {
      assert s[i := x][..last] == s[..last];
    }
  }

  lemma SumCreate(s: State)
    ensures Sum(Create(s).counters) == Sum(s.counters)
  {
    assert (s.counters + [0])[..|s.counters|] == s.counters;
  }

  lemma ChargeWithout(tasks: map<Tid, Pc>, t: Tid)
    ensures |Charged(tasks - {t})| == |Charged(tasks)| - Debt(tasks, t)
  {
    var rest, all := Charged(tasks - {t}), Charged(tasks);
    assert t !in rest && all == if Debt(tasks, t) == 1 then rest + {t} else rest;
  }

  lemma ChargeWith(tasks: map<Tid, Pc>, t: Tid, pc: Pc)
    ensures |Charged(tasks[t := pc])| == |Charged(tasks)| - Debt(tasks, t) + (if Owes(pc) then 1 else 0)
  {
    ChargeWithout(tasks, t);
    var rest, all := Charged(tasks - {t}), Charged(tasks[t := pc]);
    assert t !in rest && all == if Owes(pc) then rest + {t} else rest;
  }

  /** In every interleaving all counters together, those dropped from the map included, add up to the
      tasks holding a slot or about to give one back. */
  lemma {:induction false} CountersAddUp(max: int, r: Run)
    ensures var s := End(max, r); Sum(s.counters) == |Charged(s.tasks)| && Valid(s)
  {
    match r
    case Start =>
      assert Charged(map[]) == {};
    case Then(before, step) =>
      CountersAddUp(max, before);
      if Enabled(End(max, before), step) {
        StepAddsUp(max, End(max, before), step);
      }
  }

  ghost predicate AddsUp(s: State) {
    Valid(s) && Sum(s.counters) == |Charged(s.tasks)|
  }

  lemma CreateAddsUp(s: State)
    requires AddsUp(s)
    ensures AddsUp(Create(s)) && Counter(s) < |Create(s).counters|
  {
    SumCreate(s);
  }

  /** A counter moves by what the task's debt moves. */
  lemma BumpAddsUp(s: State, c: nat, d: int, tasks: map<Tid, Pc>)
    requires AddsUp(s) && c < |s.counters| && |Charged(tasks)| == |Charged(s.tasks)| + d
    ensures AddsUp(Bumped(s, c, d).(tasks := tasks))
  {
    SumUpdate(s.counters, c, s.counters[c] + d);
  }

  lemma StepAddsUp(max: int, s: State, step: Step)
    requires Enabled(s, step) && AddsUp(s)
    ensures AddsUp(Apply(max, s, step))
  {
    CreateAddsUp(s);
    match step
    case Load(t) => ChargeWith(s.tasks, t, Passed);
    case DispatcherLoad(t) => ChargeWith(s.tasks, t, Checked);
    case RetryFind(t) => ChargeWith(s.tasks, t, Retrying(Counter(s)));
    case FindToAdd(t) => ChargeWith(s.tasks, t, if s.tasks[t] == Passed then Found(Counter(s)) else Picked(Counter(s)));
    case FindToGive(t) => ChargeWith(s.tasks, t, Giving(Counter(s)));
    case Delete(t) => ChargeWithout(s.tasks, t);
    case Add(t) => AddAddsUp(max, s, t);
    case Give(t) =>
      ChargeWithout(s.tasks, t);
      ChargeWith(s.tasks, t, Deleting);
      BumpAddsUp(s, s.tasks[t].counter, -1, s.tasks[t := Deleting]);
      BumpAddsUp(s, s.tasks[t].counter, -1, s.tasks - {t});
    case Cleanup =>
  }

  lemma AddAddsUp(max: int, s: State, t: Tid)
    requires AddsUp(s) && Enabled(s, Add(t))
    ensures AddsUp(Added(max, s, t))
  {
    var c := s.tasks[t].counter;
    var pc := AfterAdd(max, s.tasks[t], s.counters[c] + 1);
    ChargeWith(s.tasks, t, pc);
    BumpAddsUp(s, c, 1, s.tasks[t := pc]);
  }

  // ---------------------------------------------------------------- when the visible counter is exact

  /** The visible counter counts the tasks holding a slot or about to give one back. */
  ghost predicate Exact(s: State) {
    Visible(s) == |Charged(s.tasks)|
  }

  ghost predicate AlwaysExact(max: int, r: Run) {
    Exact(End(max, r)) && (r.Then? ==> AlwaysExact(max, r.before))
  }

  /** An add or a subtraction meets the counter the map holds, and a deletion one that reads zero. */
  ghost predicate CleanStep(s: State, step: Step)
    requires Enabled(s, step)
  {
    match step
    case Add(t) => s.current == Some(s.tasks[t].counter)
    case Give(t) => s.current == Some(s.tasks[t].counter)
    case Delete(_) => Visible(s) == 0
    case Cleanup => Visible(s) == 0
    case _ => true
  }

  ghost predicate Clean(max: int, r: Run) {
    r.Then? ==> Clean(max, r.before) && (Enabled(End(max, r.before), r.step) ==> CleanStep(End(max, r.before), r.step))
  }

  /** From an exact counter a step leads to an exact one if and only if it is clean. */
  lemma StepIsExactIff(max: int, s: State, step: Step)
    requires Enabled(s, step) && Valid(s) && Exact(s)
    ensures Exact(Apply(max, s, step)) <==> CleanStep(s, step)
  {
    match step
    case Load(t) => ChargeWith(s.tasks, t, Passed);
    case DispatcherLoad(t) => ChargeWith(s.tasks, t, Checked);
    case RetryFind(t) => ChargeWith(s.tasks, t, Retrying(Counter(s)));
    case FindToAdd(t) => ChargeWith(s.tasks, t, if s.tasks[t] == Passed then Found(Counter(s)) else Picked(Counter(s)));
    case FindToGive(t) => ChargeWith(s.tasks, t, Giving(Counter(s)));
    case Add(t) => ChargeWith(s.tasks, t, AfterAdd(max, s.tasks[t], s.counters[s.tasks[t].counter] + 1));
    case Give(t) =>
      ChargeWith(s.tasks, t, Deleting);
      ChargeWithout(s.tasks, t);
    case Delete(t) => ChargeWithout(s.tasks, t);
    case Cleanup =>
  }

  /** Over every run of the code's own steps the visible counter is exact at every moment if and only if
      every add and every subtraction meets the counter the map holds at that moment and every deletion,
      the forced one at the workflow's end included, finds it reading zero. */
  lemma {:induction false} CounterIsExactIff(max: int, r: Run)
    ensures AlwaysExact(max, r) <==> Clean(max, r)
  {
    match r
    case Start =>
      assert Charged(map[]) == {};
    case Then(before, step) =>
      CounterIsExactIff(max, before);
      CountersAddUp(max, before);
      if AlwaysExact(max, before) && Enabled(End(max, before), step) {
        StepIsExactIff(max, End(max, before), step);
      }
  }

  // ---------------------------------------------------------------- when the cap is kept

  ghost predicate NeverOverCap(max: int, r: Run) {
    |Holders(End(max, r).tasks)| <= max && (r.Then? ==> NeverOverCap(max, r.before))
  }

  /** The step is an add that does not look at what it comes to: the dispatcher's or a retry's. */
  ghost predicate UncheckedAdd(s: State, step: Step) {
    step.Add? && step.t in s.tasks && !s.tasks[step.t].Found?
  }

  /** Every unchecked add finds a slot free. */
  ghost predicate TakesFreeSlots(max: int, r: Run) {
    r.Then? ==>
      && TakesFreeSlots(max, r.before)
      && (Enabled(End(max, r.before), r.step) && UncheckedAdd(End(max, r.before), r.step)
          ==> |Holders(End(max, r.before).tasks)| < max)
  }

  /** As long as the counter is exact the workflow never holds more slots than its cap if and only if every
      add of the dispatcher and of a retry finds fewer slots held than the cap. */
  lemma {:induction false} CapIsKeptIff(max: int, r: Run)
    requires 0 < max && AlwaysExact(max, r)
    ensures NeverOverCap(max, r) <==> TakesFreeSlots(max, r)
  {
    match r
    case Start =>
      assert Holders(map[]) == {};
    case Then(before, step) =>
      CapIsKeptIff(max, before);
      if Enabled(End(max, before), step) {
        HoldersMove(max, before, step);
      }
  }

  /** What a step does to the slots held while the counter is exact. */
  lemma HoldersMove(max: int, before: Run, step: Step)
    requires AlwaysExact(max, Then(before, step)) && Enabled(End(max, before), step)
    ensures var s, s' := End(max, before), Apply(max, End(max, before), step);
            if UncheckedAdd(s, step) then |Holders(s'.tasks)| == |Holders(s.tasks)| + 1
            else |Holders(s'.tasks)| <= |Holders(s.tasks)| || |Holders(s'.tasks)| <= max
  {
    var s, s' := End(max, before), Apply(max, End(max, before), step);
    if UncheckedAdd(s, step) {
      UncheckedAddGains(max, s, step.t);
    } else if step.Add? && s'.tasks[step.t].Holds? {
      CheckedAddFits(max, before, step.t);
      FewerHoldThanAreCharged(s'.tasks);
    } else {
      NoNewHolder(max, s, step);
    }
  }

  lemma UncheckedAddGains(max: int, s: State, t: Tid)
    requires Enabled(s, Add(t)) && !s.tasks[t].Found?
    ensures |Holders(Apply(max, s, Add(t)).tasks)| == |Holders(s.tasks)| + 1
  {
    assert t !in Holders(s.tasks) && Holders(Apply(max, s, Add(t)).tasks) == Holders(s.tasks) + {t};
  }

  lemma NoNewHolder(max: int, s: State, step: Step)
    requires Enabled(s, step) && (step.Add? ==> !Apply(max, s, step).tasks[step.t].Holds?)
    ensures |Holders(Apply(max, s, step).tasks)| <= |Holders(s.tasks)|
  {
    var h, h' := Holders(s.tasks), Holders(Apply(max, s, step).tasks);
    assert h' <= h;
    Fewer(h', h);
  }

  /** A push that is granted leaves the exact counter within the cap. */
  lemma CheckedAddFits(max: int, before: Run, t: Tid)
    requires AlwaysExact(max, Then(before, Add(t))) && Enabled(End(max, before), Add(t))
    requires End(max, before).tasks[t].Found? && Apply(max, End(max, before), Add(t)).tasks[t].Holds?
    ensures |Charged(Apply(max, End(max, before), Add(t)).tasks)| <= max
  {
    var s := End(max, before);
    CountersAddUp(max, before);
    StepIsExactIff(max, s, Add(t));
    assert Visible(Apply(max, s, Add(t))) == s.counters[s.tasks[t].counter] + 1;
  }

  /** As long as the counter is exact the workflow holds at most its cap, plus one for the dispatcher, plus
      the retried tasks that hold a slot. */
  lemma OvershootBound(max: int, r: Run)
    requires 0 < max && AlwaysExact(max, r)
    ensures |Holders(End(max, r).tasks)| <= max + 1 + |Retries(End(max, r).tasks)|
  {
    FirstTimesBound(max, r);
    var tasks := End(max, r).tasks;
    assert Holders(tasks) == FirstTimes(tasks) + Retries(tasks) && FirstTimes(tasks) !! Retries(tasks);
  }

  ghost predicate OneDispatcher(s: State) {
    forall t, u :: t in s.tasks && u in s.tasks && Dispatching(s.tasks[t]) && Dispatching(s.tasks[u]) ==> t == u
  }

  ghost predicate FirstTimesFit(max: int, s: State) {
    |FirstTimes(s.tasks)| <= if DispatcherBusy(s) then max else max + 1
  }

  lemma {:induction false} FirstTimesBound(max: int, r: Run)
    requires 0 < max && AlwaysExact(max, r)
    ensures FirstTimesFit(max, End(max, r)) && OneDispatcher(End(max, r))
  {
    match r
    case Start =>
      assert FirstTimes(map[]) == {};
    case Then(before, step) =>
      FirstTimesBound(max, before);
      if Enabled(End(max, before), step) {
        StepKeepsOneDispatcher(max, End(max, before), step);
        if step.Add? {
          AddFits(max, before, step.t);
        } else {
          OtherStepFits(max, End(max, before), step);
        }
      }
  }

  lemma StepKeepsOneDispatcher(max: int, s: State, step: Step)
    requires OneDispatcher(s) && Enabled(s, step)
    ensures OneDispatcher(Apply(max, s, step))
  {
    var s' := Apply(max, s, step);
    forall t, u | t in s'.tasks && u in s'.tasks && Dispatching(s'.tasks[t]) && Dispatching(s'.tasks[u]) ensures t == u {
      if step.DispatcherLoad? {
        assert forall v :: v in s.tasks ==> !Dispatching(s.tasks[v]);
      }
    }
  }

  /** An add of the dispatcher ends its turn, and a granted push has looked at the counter. */
  lemma AddFits(max: int, before: Run, t: Tid)
    requires 0 < max && AlwaysExact(max, Then(before, Add(t))) && Enabled(End(max, before), Add(t))
    requires FirstTimesFit(max, End(max, before)) && OneDispatcher(End(max, before))
    ensures FirstTimesFit(max, Apply(max, End(max, before), Add(t)))
  {
    var s, s' := End(max, before), Apply(max, End(max, before), Add(t));
    if s'.tasks[t] == Holds(false) {
      if s.tasks[t].Found? {
        CheckedAddFits(max, before, t);
        Fewer(FirstTimes(s'.tasks), Charged(s'.tasks));
      } else {
        DispatcherAddFits(max, s, t);
      }
    } else {
      Fewer(FirstTimes(s'.tasks), FirstTimes(s.tasks));
      SameDispatcher(s, s', t);
    }
  }

  lemma DispatcherAddFits(max: int, s: State, t: Tid)
    requires Enabled(s, Add(t)) && s.tasks[t].Picked? && FirstTimesFit(max, s) && OneDispatcher(s)
    ensures FirstTimesFit(max, Apply(max, s, Add(t)))
  {
    var s' := Apply(max, s, Add(t));
    assert Dispatching(s.tasks[t]);
    assert FirstTimes(s'.tasks) == FirstTimes(s.tasks) + {t};
    forall u | u in s'.tasks ensures !Dispatching(s'.tasks[u]) {
      if u != t {
        assert s'.tasks[u] == s.tasks[u];
      }
    }
  }

  /** A step of a task that is not the dispatcher's leaves the dispatcher where it is. */
  lemma SameDispatcher(s: State, s': State, t: Tid)
    requires t in s.tasks ==> !Dispatching(s.tasks[t])
    requires forall u :: u != t ==> (u in s'.tasks <==> u in s.tasks) && (u in s.tasks ==> s'.tasks[u] == s.tasks[u])
    requires t in s'.tasks ==> !Dispatching(s'.tasks[t])
    ensures DispatcherBusy(s') <==> DispatcherBusy(s)
  {
    if u :| u in s.tasks && Dispatching(s.tasks[u]) {
      assert u in s'.tasks && Dispatching(s'.tasks[u]);
    }
    if u :| u in s'.tasks && Dispatching(s'.tasks[u]) {
      assert u in s.tasks && Dispatching(s.tasks[u]);
    }
  }

  lemma OtherStepFits(max: int, s: State, step: Step)
    requires 0 < max && Exact(s) && Enabled(s, step) && !step.Add? && FirstTimesFit(max, s)
    ensures FirstTimesFit(max, Apply(max, s, step))
  {
    var s' := Apply(max, s, step);
    assert FirstTimes(s'.tasks) <= FirstTimes(s.tasks);
    Fewer(FirstTimes(s'.tasks), FirstTimes(s.tasks));
    if step.DispatcherLoad? {
      Fewer(FirstTimes(s.tasks), Charged(s.tasks));
    } else if u :| u in s'.tasks && Dispatching(s'.tasks[u]) {
      assert u in s.tasks && Dispatching(s.tasks[u]);
    }
  }

  lemma FewerHoldThanAreCharged(tasks: map<Tid, Pc>)
    ensures |Holders(tasks)| <= |Charged(tasks)|
  {
    Fewer(Holders(tasks), Charged(tasks));
  }

  lemma Fewer(a: set<Tid>, b: set<Tid>)
    requires a <= b
    ensures |a| <= |b|
  {
    assert b == a + (b - a);
  }

  /** The earlier step of the same task comes directly before, and took effect. */
  ghost predicate Follows(max: int, r: Run, step: Step)
    requires r.Then?
  {
    r.before.Then? && r.before.step == step && Enabled(End(max, r.before.before), step)
  }

  /** Finding and adding are not interrupted, nor are finding, subtracting and deleting; and a workflow
      ends with its counter at zero. */
  ghost predicate Uninterrupted(max: int, r: Run) {
    r.Then? ==>
      && Uninterrupted(max, r.before)
      && match r.step
         case Add(t) => Follows(max, r, FindToAdd(t)) || Follows(max, r, RetryFind(t))
         case Give(t) => Follows(max, r, FindToGive(t))
         case Delete(t) => Follows(max, r, Give(t))
         case Cleanup => Visible(End(max, r.before)) == 0
         case _ => true
  }

  /** Uninterrupted, the counter is exact at every moment. */
  lemma UninterruptedIsExact(max: int, r: Run)
    requires Uninterrupted(max, r)
    ensures AlwaysExact(max, r)
  {
    UninterruptedIsClean(max, r);
    CounterIsExactIff(max, r);
  }

  lemma {:induction false} UninterruptedIsClean(max: int, r: Run)
    requires Uninterrupted(max, r)
    ensures Clean(max, r)
  {
    if r.Then? {
      UninterruptedIsClean(max, r.before);
    }
  }

  /** Besides, there are no retries, and nothing comes between the dispatcher's load and its add. */
  ghost predicate DispatchUninterrupted(max: int, r: Run) {
    r.Then? ==>
      && DispatchUninterrupted(max, r.before)
      && !r.step.RetryFind?
      && (r.step.FindToAdd? && r.step.t in End(max, r.before).tasks && End(max, r.before).tasks[r.step.t] == Checked
          ==> Follows(max, r, DispatcherLoad(r.step.t)))
  }

  /** Then the cap is kept too. */
  lemma UninterruptedKeepsCap(max: int, r: Run)
    requires 0 < max && Uninterrupted(max, r) && DispatchUninterrupted(max, r)
    ensures AlwaysExact(max, r) && NeverOverCap(max, r)
  {
    UninterruptedIsExact(max, r);
    CheckedSlotIsFree(max, r);
    CapIsKeptIff(max, r);
  }

  lemma {:induction false} NobodyRetries(max: int, r: Run)
    requires DispatchUninterrupted(max, r)
    ensures forall t :: t in End(max, r).tasks ==> !End(max, r).tasks[t].Retrying?
  {
    if r.Then? {
      NobodyRetries(max, r.before);
    }
  }

  lemma {:induction false} CheckedSlotIsFree(max: int, r: Run)
    requires 0 < max && Uninterrupted(max, r) && DispatchUninterrupted(max, r)
    ensures TakesFreeSlots(max, r)
  {
    if r.Then? {
      CheckedSlotIsFree(max, r.before);
      var s := End(max, r.before);
      if Enabled(s, r.step) && UncheckedAdd(s, r.step) {
        NobodyRetries(max, r.before);
        LoadedBelowCap(max, r.before.before, r.step.t);
      }
    }
  }

  lemma LoadedBelowCap(max: int, r: Run, t: Tid)
    requires 0 < max && Uninterrupted(max, Then(r, FindToAdd(t))) && DispatchUninterrupted(max, Then(r, FindToAdd(t)))
    requires Enabled(End(max, r), FindToAdd(t)) && End(max, r).tasks[t] == Checked
    ensures |Holders(End(max, Then(r, FindToAdd(t))).tasks)| < max
  {
    var s := End(max, r.before);
    UninterruptedIsExact(max, r.before);
    assert Enabled(s, DispatcherLoad(t)) && Visible(s) < max;
    FewerHoldThanAreCharged(s.tasks);
    assert Holders(End(max, Then(r, FindToAdd(t))).tasks) == Holders(s.tasks);
  }

  // ---------------------------------------------------------------- the bound is reached

  ghost function Granted(n: nat): (m: map<Tid, Pc>)
    ensures forall t :: t in m ==> t < n && m[t] == Holds(false)
    ensures |m| == n
  {
    if n == 0 then map[] else Granted(n - 1)[n - 1 := Holds(false)]
  }

  ghost function Push(r: Run, t: Tid): Run {
    Then(Then(Then(r, Load(t)), FindToAdd(t)), Add(t))
  }

  ghost function Pushes(n: nat): Run {
    if n == 0 then Start else Push(Pushes(n - 1), n - 1)
  }

  /** A push that nobody interferes with takes a slot when one is free. */
  lemma OnePush(max: int, r: Run, t: Tid)
    requires var s := End(max, r); t !in s.tasks && Visible(s) < max && Valid(s)
    ensures var s := End(max, r);
            End(max, Push(r, t)) == Bumped(Create(s), Counter(s), 1).(tasks := s.tasks[t := Holds(false)])
    ensures Uninterrupted(max, r) ==> Uninterrupted(max, Push(r, t))
  {
    var s := End(max, r);
    assert End(max, Then(r, Load(t))) == At(s, t, Passed);
    FoundThenAdded(max, Then(r, Load(t)), s, t);
  }

  lemma FoundThenAdded(max: int, r: Run, s: State, t: Tid)
    requires t !in s.tasks && Visible(s) < max && Valid(s) && End(max, r) == At(s, t, Passed)
    ensures End(max, Then(Then(r, FindToAdd(t)), Add(t)))
         == Bumped(Create(s), Counter(s), 1).(tasks := s.tasks[t := Holds(false)])
    ensures Enabled(End(max, r), FindToAdd(t))
  {
    var r2 := Then(r, FindToAdd(t));
    assert End(max, r2) == At(Create(s), t, Found(Counter(s))) by {
      assert s.tasks[t := Passed][t := Found(Counter(s))] == s.tasks[t := Found(Counter(s))];
    }
    assert s.tasks[t := Found(Counter(s))][t := Holds(false)] == s.tasks[t := Holds(false)];
  }

  /** The counter reads v, whether or not it has been created yet. */
  ghost predicate Reads(s: State, v: int, tasks: map<Tid, Pc>) {
    Create(s) == State([v], Some(0), tasks) && Valid(s)
  }

  lemma ReadsIsVisible(s: State, v: int, tasks: map<Tid, Pc>)
    requires Reads(s, v, tasks)
    ensures Visible(s) == v && Counter(s) == 0 && s.tasks == tasks
  {
    if s.current.None? {
      assert (s.counters + [0])[|s.counters|] == 0;
    }
  }

  lemma PushFrom(max: int, r: Run, t: Tid, v: int, tasks: map<Tid, Pc>)
    requires Reads(End(max, r), v, tasks) && v < max && t !in tasks
    ensures End(max, Push(r, t)) == State([v + 1], Some(0), tasks[t := Holds(false)])
    ensures Uninterrupted(max, r) ==> Uninterrupted(max, Push(r, t))
  {
    ReadsIsVisible(End(max, r), v, tasks);
    OnePush(max, r, t);
    assert [v][0 := v + 1] == [v + 1];
  }

  lemma {:induction false} PushesFillSlots(max: int, n: nat)
    requires n <= max
    ensures Reads(End(max, Pushes(n)), n, Granted(n))
    ensures Uninterrupted(max, Pushes(n))
  {
    if n > 0 {
      PushesFillSlots(max, n - 1);
      PushFrom(max, Pushes(n - 1), n - 1, n - 1, Granted(n - 1));
    }
  }

  /** The dispatcher finds the last slot free, a push takes it, the dispatcher adds. */
  ghost function Overdispatch(max: nat): Run
    requires 0 < max
  {
    Then(Then(Push(Then(Pushes(max - 1), DispatcherLoad(max)), max + 1), FindToAdd(max)), Add(max))
  }

  lemma OneTooMany(max: nat)
    requires 0 < max
    ensures var d: Tid := max;
            End(max, Overdispatch(max))
            == State([max + 1], Some(0), Granted(max - 1)[d + 1 := Holds(false)][d := Holds(false)])
    ensures Uninterrupted(max, Overdispatch(max))
  {
    LastSlotTaken(max);
    DispatcherAdds(max, Push(Then(Pushes(max - 1), DispatcherLoad(max)), max + 1), Granted(max - 1), max);
  }

  lemma LastSlotTaken(max: nat)
    requires 0 < max
    ensures var d: Tid := max;
            var r := Push(Then(Pushes(max - 1), DispatcherLoad(d)), d + 1);
            && End(max, r) == State([max], Some(0), Granted(max - 1)[d := Checked][d + 1 := Holds(false)])
            && Uninterrupted(max, r)
  {
    var d: Tid := max;
    PushesFillSlots(max, max - 1);
    DispatcherPasses(max, Pushes(max - 1), d, max - 1, Granted(max - 1));
    PushFrom(max, Then(Pushes(max - 1), DispatcherLoad(d)), d + 1, max - 1, Granted(max - 1)[d := Checked]);
  }

  lemma DispatcherPasses(max: int, r: Run, d: Tid, v: int, tasks: map<Tid, Pc>)
    requires Reads(End(max, r), v, tasks) && v < max && d !in tasks && forall t :: t in tasks ==> tasks[t] == Holds(false)
    ensures Reads(End(max, Then(r, DispatcherLoad(d))), v, tasks[d := Checked])
  {
    ReadsIsVisible(End(max, r), v, tasks);
  }

  lemma DispatcherAdds(max: nat, r: Run, m: map<Tid, Pc>, d: Tid)
    requires d !in m && d + 1 !in m && End(max, r) == State([max], Some(0), m[d := Checked][d + 1 := Holds(false)])
    ensures End(max, Then(Then(r, FindToAdd(d)), Add(d))) == State([max + 1], Some(0), m[d + 1 := Holds(false)][d := Holds(false)])
    ensures Enabled(End(max, r), FindToAdd(d))
  {
    var m1 := m[d := Checked][d + 1 := Holds(false)];
    assert End(max, Then(r, FindToAdd(d))) == State([max], Some(0), m1[d := Picked(0)]);
    assert [max][0 := max + 1] == [max + 1];
    assert m1[d := Picked(0)][d := Holds(false)] == m[d + 1 := Holds(false)][d := Holds(false)];
  }

  /** Retries add to that without any check. */
  ghost function ThenRetries(r: Run, first: Tid, k: nat): Run {
    if k == 0 then r
    else Then(Then(ThenRetries(r, first, k - 1), RetryFind(first + k - 1)), Add(first + k - 1))
  }

  /** The tasks below first hold slots of their own, those from there to n retried ones. */
  ghost predicate AllHold(tasks: map<Tid, Pc>, first: Tid, n: Tid) {
    forall t :: t in tasks ==> t < n && tasks[t] == Holds(t >= first)
  }

  ghost predicate Retried(s: State, first: Tid, k: nat, others: nat) {
    Valid(s) && AllHold(s.tasks, first, first + k) && |s.tasks| == others + k && |Retries(s.tasks)| == k
  }

  lemma {:induction false} RetriesAdd(max: int, r: Run, first: Tid, k: nat)
    requires Uninterrupted(max, r) && Retried(End(max, r), first, 0, |End(max, r).tasks|)
    ensures Retried(End(max, ThenRetries(r, first, k)), first, k, |End(max, r).tasks|)
    ensures Uninterrupted(max, ThenRetries(r, first, k))
  {
    if k > 0 {
      RetriesAdd(max, r, first, k - 1);
      RetryStep(max, ThenRetries(r, first, k - 1), first, k - 1, |End(max, r).tasks|);
    }
  }

  lemma RetryStep(max: int, p: Run, first: Tid, k: nat, others: nat)
    requires Retried(End(max, p), first, k, others)
    ensures Retried(End(max, Then(Then(p, RetryFind(first + k)), Add(first + k))), first, k + 1, others)
    ensures Uninterrupted(max, p) ==> Uninterrupted(max, Then(Then(p, RetryFind(first + k)), Add(first + k)))
  {
    OneRetry(max, p, first + k);
    OneMoreHolds(End(max, p).tasks, first, first + k);
  }

  lemma OneRetry(max: int, r: Run, t: Tid)
    requires t !in End(max, r).tasks && Valid(End(max, r))
    ensures var s, s' := End(max, r), End(max, Then(Then(r, RetryFind(t)), Add(t)));
            && Enabled(s, RetryFind(t)) && Valid(s') && s'.tasks == s.tasks[t := Holds(true)]
  {
    var s := End(max, r);
    assert End(max, Then(r, RetryFind(t))) == At(Create(s), t, Retrying(Counter(s)));
    assert s.tasks[t := Retrying(Counter(s))][t := Holds(true)] == s.tasks[t := Holds(true)];
  }

  lemma OneMoreHolds(tasks: map<Tid, Pc>, first: Tid, t: Tid)
    requires AllHold(tasks, first, t) && first <= t
    ensures AllHold(tasks[t := Holds(true)], first, t + 1)
    ensures |tasks[t := Holds(true)]| == |tasks| + 1
    ensures |Retries(tasks[t := Holds(true)])| == |Retries(tasks)| + 1
  {
    assert t !in tasks;
    assert Retries(tasks[t := Holds(true)]) == Retries(tasks) + {t};
  }

  /** The bound is tight, for every cap and every number of retries: a run in which the counter is exact
      at every moment, and which ends with one slot too many and one more for each retried task. */
  lemma OvershootIsReached(max: nat, k: nat) returns (r: Run)
    requires 0 < max
    ensures AlwaysExact(max, r)
    ensures |Retries(End(max, r).tasks)| == k && |Holders(End(max, r).tasks)| == max + 1 + k
  {
    OneTooManyHold(max);
    r := ThenRetries(Overdispatch(max), max + 2, k);
    RetriesAdd(max, Overdispatch(max), max + 2, k);
    UninterruptedIsExact(max, r);
    AllAreHolders(End(max, r).tasks, max + 2, max + 2 + k);
  }

  lemma OneTooManyHold(max: nat)
    requires 0 < max
    ensures Retried(End(max, Overdispatch(max)), max + 2, 0, max + 1) && |End(max, Overdispatch(max)).tasks| == max + 1
    ensures Uninterrupted(max, Overdispatch(max))
  {
    OneTooMany(max);
    var d: Tid := max;
    var tasks := Granted(max - 1)[d + 1 := Holds(false)][d := Holds(false)];
    assert d !in Granted(max - 1) && d + 1 !in Granted(max - 1);
    assert Retries(tasks) == {};
  }

  lemma AllAreHolders(tasks: map<Tid, Pc>, first: Tid, n: Tid)
    requires AllHold(tasks, first, n)
    ensures |Holders(tasks)| == |tasks|
  {
    assert Holders(tasks) == tasks.Keys;
  }

  // ---------------------------------------------------------------- without, nothing bounds the slots held

  /** A task takes a slot and gives it back; before it deletes the map entry another task takes a slot
      from the same counter, which the deletion then hides. */
  ghost function Hide(r: Run, a: Tid, b: Tid): Run {
    var taken := Then(Then(Then(r, Load(a)), FindToAdd(a)), Add(a));
    var given := Then(Then(taken, FindToGive(a)), Give(a));
    var taken' := Then(Then(Then(given, Load(b)), FindToAdd(b)), Add(b));
    Then(taken', Delete(a))
  }

  ghost function HideTimes(n: nat): Run {
    if n == 0 then Start else Hide(HideTimes(n - 1), 2 * n - 2, 2 * n - 1)
  }

  lemma OneHide(max: int, r: Run, a: Tid, b: Tid)
    requires 0 < max && a != b && a !in End(max, r).tasks && b !in End(max, r).tasks && End(max, r).current == None
    ensures var s := End(max, r);
            End(max, Hide(r, a, b)) == State(s.counters + [1], None, s.tasks[b := Holds(false)])
  {
    var s := End(max, r);
    var c := |s.counters|;
    var r1 := Then(r, Load(a));
    assert End(max, r1) == At(s, a, Passed);
    var r2 := Then(r1, FindToAdd(a));
    assert End(max, r2) == State(s.counters + [0], Some(c), s.tasks[a := Passed][a := Found(c)]);
    var r3 := Then(r2, Add(a));
    assert (s.counters + [0])[c := 1] == s.counters + [1];
    assert s.tasks[a := Passed][a := Found(c)][a := Holds(false)] == s.tasks[a := Holds(false)];
    assert End(max, r3) == State(s.counters + [1], Some(c), s.tasks[a := Holds(false)]);
    var r4 := Then(r3, FindToGive(a));
    assert End(max, r4) == State(s.counters + [1], Some(c), s.tasks[a := Holds(false)][a := Giving(c)]);
    var r5 := Then(r4, Give(a));
    assert (s.counters + [1])[c := 0] == s.counters + [0];
    assert s.tasks[a := Holds(false)][a := Giving(c)][a := Deleting] == s.tasks[a := Deleting];
    assert End(max, r5) == State(s.counters + [0], Some(c), s.tasks[a := Deleting]);
    HideRest(max, r5, s, a, b);
  }

  lemma HideRest(max: int, r5: Run, s: State, a: Tid, b: Tid)
    requires 0 < max && a != b && a !in s.tasks && b !in s.tasks
    requires End(max, r5) == State(s.counters + [0], Some(|s.counters|), s.tasks[a := Deleting])
    ensures End(max, Then(Then(Then(Then(r5, Load(b)), FindToAdd(b)), Add(b)), Delete(a)))
         == State(s.counters + [1], None, s.tasks[b := Holds(false)])
  {
    var c := |s.counters|;
    var m := s.tasks[a := Deleting];
    var r6 := Then(r5, Load(b));
    assert End(max, r6) == State(s.counters + [0], Some(c), m[b := Passed]);
    var r7 := Then(r6, FindToAdd(b));
    assert End(max, r7) == State(s.counters + [0], Some(c), m[b := Passed][b := Found(c)]);
    var r8 := Then(r7, Add(b));
    assert (s.counters + [0])[c := 1] == s.counters + [1];
    assert m[b := Passed][b := Found(c)][b := Holds(false)] == m[b := Holds(false)];
    assert End(max, r8) == State(s.counters + [1], Some(c), m[b := Holds(false)]);
    assert m[b := Holds(false)] - {a} == s.tasks[b := Holds(false)];
  }

  lemma {:induction false} HiddenHolders(max: int, n: nat)
    requires 0 < max
    ensures var s := End(max, HideTimes(n));
            && s.current == None
            && (forall t :: t in s.tasks ==> t < 2 * n && s.tasks[t] == Holds(false))
            && |s.tasks| == n
  {
    if n > 0 {
      HiddenHolders(max, n - 1);
      OneHide(max, HideTimes(n - 1), 2 * n - 2, 2 * n - 1);
    }
  }

  /** Deleting a counter at zero races with the next increment: for every cap and every number there is a
      run that ends with that many slots held by one workflow, while its counter reads zero. */
  lemma NoBoundOnSlotsHeld(max: int, n: nat) returns (r: Run)
    requires 0 < max
    ensures |Holders(End(max, r).tasks)| == n && Visible(End(max, r)) == 0
  {
    r := HideTimes(n);
    HiddenHolders(max, n);
    var tasks := End(max, r).tasks;
    assert Holders(tasks) == tasks.Keys;
  }
}
