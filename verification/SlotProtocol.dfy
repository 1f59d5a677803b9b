/** The global slot counter under concurrency: PushTask, tryDispatchPending, RetryTask and releases
    as interleaved atomic steps. The counter is an atomic integer; only the queue is locked, so the
    dispatcher's load and add are two steps and anything may happen between them. */
module SlotProtocol {

  type Tid = nat

  datatype Holder = Pushed | Dispatched | Retried

  /** Where a PushTask call stands. A granted call leaves this table and becomes a holder. */
  datatype PushPc =
    | PassedLoad   // the load was below the cap, the add is still to come
    | Overshot     // its add went past the cap and is still to be taken back
    | ToQueue      // refused; will enqueue once the queue lock is free

  /** Where the holder of the queue lock stands inside tryDispatchPending. */
  datatype DispatchPc = Unlocked | AtTop | PassedCheck | Leaving

  datatype State = State(
    globalActive: int,
    pushers: map<Tid, PushPc>,
    dispatcher: DispatchPc,
    waiting: nat,
    deferred: nat,
    holders: map<Tid, Holder>)

  datatype Step =
    | PushLoad(t: Tid)
    | PushRefused(t: Tid)     // its workflow is at its own cap, at the first check or at the second
    | PushAdd(t: Tid)
    | PushTakeBack(t: Tid)
    | PushEnqueue(t: Tid)
    | Lock
    | Evict
    | Check
    | Defer
    | Grant(t: Tid)
    | Unlock
    | Retry(t: Tid)
    | Release(t: Tid)

  const INIT := State(0, map[], Unlocked, 0, 0, map[])

  ghost predicate Fresh(s: State, t: Tid) {
    t !in s.pushers && t !in s.holders
  }

  ghost predicate Enabled(s: State, step: Step) {
    match step
    case PushLoad(t) => Fresh(s, t)
    case PushRefused(t) => Fresh(s, t) || (t in s.pushers && s.pushers[t] == PassedLoad)
    case PushAdd(t) => t in s.pushers && s.pushers[t] == PassedLoad
    case PushTakeBack(t) => t in s.pushers && s.pushers[t] == Overshot
    case PushEnqueue(t) => t in s.pushers && s.pushers[t] == ToQueue && s.dispatcher == Unlocked
    case Lock => s.dispatcher == Unlocked
    case Evict => s.dispatcher == AtTop && s.waiting > 0
    case Check => s.dispatcher == AtTop
    case Defer => s.dispatcher == PassedCheck && s.waiting > 0
    case Grant(t) => s.dispatcher == PassedCheck && s.waiting > 0 && Fresh(s, t)
    case Unlock => s.dispatcher == Leaving
    case Retry(t) => Fresh(s, t)
    case Release(t) => t in s.holders
  }

  ghost function Apply(max: int, s: State, step: Step): State
    requires Enabled(s, step)
  {
    match step
    case PushLoad(t) =>
      s.(pushers := s.pushers[t := if s.globalActive >= max then ToQueue else PassedLoad])
    case PushRefused(t) => s.(pushers := s.pushers[t := ToQueue])
    case PushAdd(t) =>
      if s.globalActive + 1 > max then
        s.(globalActive := s.globalActive + 1, pushers := s.pushers[t := Overshot])
      else
        s.(globalActive := s.globalActive + 1, pushers := s.pushers - {t},
           holders := s.holders[t := Pushed])
    case PushTakeBack(t) =>
      s.(globalActive := s.globalActive - 1, pushers := s.pushers[t := ToQueue])
    case PushEnqueue(t) =>
      s.(pushers := s.pushers - {t}, waiting := s.waiting + 1)
    case Lock => s.(dispatcher := AtTop, deferred := 0)
    case Evict => s.(waiting := s.waiting - 1)
    case Check =>
      s.(dispatcher := if s.waiting == 0 || s.globalActive >= max then Leaving else PassedCheck)
    case Defer => s.(waiting := s.waiting - 1, deferred := s.deferred + 1, dispatcher := AtTop)
    case Grant(t) =>
      s.(globalActive := s.globalActive + 1, waiting := s.waiting - 1, dispatcher := AtTop,
         holders := s.holders[t := Dispatched])
    case Unlock => s.(dispatcher := Unlocked, waiting := s.waiting + s.deferred, deferred := 0)
    case Retry(t) => s.(globalActive := s.globalActive + 1, holders := s.holders[t := Retried])
    case Release(t) => s.(globalActive := s.globalActive - 1, holders := s.holders - {t})
  }

  /** A run is its steps in order; a step that is not enabled when its turn comes changes nothing. */
  datatype Run = Start | Then(before: Run, step: Step)

  ghost function End(max: int, r: Run): State {
    match r
    case Start => INIT
    case Then(before, step) =>
      var s := End(max, before);
      if Enabled(s, step) then Apply(max, s, step) else s
  }

  ghost function Retries(holders: map<Tid, Holder>): set<Tid> {
    set t | t in holders && holders[t] == Retried
  }

  ghost function FirstTimes(holders: map<Tid, Holder>): set<Tid> {
    set t | t in holders && holders[t] != Retried
  }

  ghost function Overshots(pushers: map<Tid, PushPc>): set<Tid> {
    set t | t in pushers && pushers[t] == Overshot
  }

  ghost predicate Inv(max: int, s: State) {
    && (forall t :: t in s.pushers ==> t !in s.holders)
    && s.globalActive == |FirstTimes(s.holders)| + |Retries(s.holders)| + |Overshots(s.pushers)|
    && |FirstTimes(s.holders)| <= (if s.dispatcher == PassedCheck then max else max + 1)
  }

  lemma Gains(holders: map<Tid, Holder>, t: Tid, h: Holder)
    requires t !in holders
    ensures |FirstTimes(holders[t := h])| == |FirstTimes(holders)| + (if h == Retried then 0 else 1)
    ensures |Retries(holders[t := h])| == |Retries(holders)| + (if h == Retried then 1 else 0)
  {
    var more := holders[t := h];
    assert FirstTimes(more) == FirstTimes(holders) + (if h == Retried then {} else {t});
    assert Retries(more) == Retries(holders) + (if h == Retried then {t} else {});
  }

  lemma Loses(holders: map<Tid, Holder>, t: Tid)
    requires t in holders
    ensures |FirstTimes(holders - {t})| == |FirstTimes(holders)| - (if holders[t] == Retried then 0 else 1)
    ensures |Retries(holders - {t})| == |Retries(holders)| - (if holders[t] == Retried then 1 else 0)
  {
    var rest := holders - {t};
    Gains(rest, t, holders[t]);
    assert rest[t := holders[t]] == holders;
  }

  lemma Overshoots(pushers: map<Tid, PushPc>, t: Tid)
    requires t in pushers ==> pushers[t] != Overshot
    ensures |Overshots(pushers[t := Overshot])| == |Overshots(pushers)| + 1
  {
    assert t !in Overshots(pushers);
    assert Overshots(pushers[t := Overshot]) == Overshots(pushers) + {t};
  }

  lemma TakesBack(pushers: map<Tid, PushPc>, t: Tid)
    requires t in pushers && pushers[t] == Overshot
    ensures |Overshots(pushers[t := ToQueue])| == |Overshots(pushers)| - 1
  {
    assert t !in Overshots(pushers[t := ToQueue]);
    assert Overshots(pushers) == Overshots(pushers[t := ToQueue]) + {t};
  }

  lemma PushStepKeepsInv(max: int, s: State, step: Step)
    requires 0 < max && Inv(max, s) && Enabled(s, step)
    requires step.PushLoad? || step.PushRefused? || step.PushAdd? || step.PushTakeBack? || step.PushEnqueue?
    ensures Inv(max, Apply(max, s, step))
  {
    var s' := Apply(max, s, step);
    match step
    case PushAdd(t) =>
      if s.globalActive + 1 > max {
        Overshoots(s.pushers, t);
      } else {
        Gains(s.holders, t, Pushed);
        assert Overshots(s'.pushers) == Overshots(s.pushers);
      }
    case PushTakeBack(t) => TakesBack(s.pushers, t);
    case _ => assert Overshots(s'.pushers) == Overshots(s.pushers);
  }

  lemma HolderStepKeepsInv(max: int, s: State, step: Step)
    requires 0 < max && Inv(max, s) && Enabled(s, step)
    requires step.Grant? || step.Retry? || step.Release?
    ensures Inv(max, Apply(max, s, step))
  {
    match step
    case Release(t) => Loses(s.holders, t);
    case Retry(t) => Gains(s.holders, t, Retried);
    case Grant(t) => Gains(s.holders, t, Dispatched);
  }

  lemma StepKeepsInv(max: int, s: State, step: Step)
    requires 0 < max && Inv(max, s) && Enabled(s, step)
    ensures Inv(max, Apply(max, s, step))
  {
    if step.PushLoad? || step.PushRefused? || step.PushAdd? || step.PushTakeBack? || step.PushEnqueue? {
      PushStepKeepsInv(max, s, step);
    } else if step.Grant? || step.Retry? || step.Release? {
      HolderStepKeepsInv(max, s, step);
    }
  }

  lemma {:induction false} EveryRunKeepsInv(max: int, r: Run)
    requires 0 < max
    ensures Inv(max, End(max, r))
  {
    match r
    case Start =>
      assert FirstTimes(map[]) == {} && Retries(map[]) == {} && Overshots(map[]) == {};
    case Then(before, step) =>
      EveryRunKeepsInv(max, before);
      if Enabled(End(max, before), step) {
        StepKeepsInv(max, End(max, before), step);
      }
  }

  /** In every interleaving the slots held exceed the cap by at most one plus the retried tasks that
      hold one, and the counter is exactly the slots held plus the adds not yet taken back. */
  lemma OvershootBound(max: int, r: Run)
    requires 0 < max
    ensures var s := End(max, r);
            && |s.holders| <= max + 1 + |Retries(s.holders)|
            && s.globalActive == |s.holders| + |Overshots(s.pushers)|
  {
    var s := End(max, r);
    EveryRunKeepsInv(max, r);
    assert s.holders.Keys == FirstTimes(s.holders) + Retries(s.holders);
    assert |s.holders.Keys| == |FirstTimes(s.holders)| + |Retries(s.holders)|;
  }

  // ---------------------------------------------------------------- when the cap is kept

  /** At no moment of the run more slots are held than the cap allows. */
  ghost predicate NeverOverCap(max: int, r: Run) {
    |End(max, r).holders| <= max && (r.Then? ==> NeverOverCap(max, r.before))
  }

  /** Whenever the dispatcher adds, or a retry takes its slot, a slot is free at that moment. */
  ghost predicate TakesFreeSlots(max: int, r: Run) {
    r.Then? ==>
      && TakesFreeSlots(max, r.before)
      && (Enabled(End(max, r.before), r.step) && (r.step.Grant? || r.step.Retry?) ==> |End(max, r.before).holders| < max)
  }

  /** A run keeps the cap throughout if and only if every dispatch and every retry finds a slot free when it
      adds; pushes, which check what their own add returned, never exceed it. */
  lemma {:induction false} CapIsKeptIff(max: int, r: Run)
    requires 0 < max
    ensures NeverOverCap(max, r) <==> TakesFreeSlots(max, r)
  {
    if r.Then? {
      CapIsKeptIff(max, r.before);
      if Enabled(End(max, r.before), r.step) {
        OvershootBound(max, r.before);
        HoldersMove(max, End(max, r.before), r.step);
      }
    }
  }

  lemma HoldersMove(max: int, s: State, step: Step)
    requires Enabled(s, step) && |s.holders| <= s.globalActive
    ensures var s' := Apply(max, s, step);
            && (step.Grant? || step.Retry? ==> |s'.holders| == |s.holders| + 1)
            && (step.PushAdd? ==> |s'.holders| <= |s.holders| || |s'.holders| <= max)
            && (!step.Grant? && !step.Retry? && !step.PushAdd? ==> |s'.holders| <= |s.holders|)
  {
    if step.Release? {
      assert s.holders == (s.holders - {step.t})[step.t := s.holders[step.t]];
    }
  }

  /** There are no retries, and nothing comes between the dispatcher's check and its add. */
  ghost predicate ChecksUninterrupted(max: int, r: Run) {
    r.Then? ==>
      && ChecksUninterrupted(max, r.before)
      && !r.step.Retry?
      && (r.step.Grant? ==> r.before.Then? && r.before.step.Check? && Enabled(End(max, r.before.before), r.before.step))
  }

  lemma UninterruptedCheckKeepsCap(max: int, r: Run)
    requires 0 < max && ChecksUninterrupted(max, r)
    ensures NeverOverCap(max, r)
  {
    CheckedSlotIsFree(max, r);
    CapIsKeptIff(max, r);
  }

  lemma {:induction false} CheckedSlotIsFree(max: int, r: Run)
    requires 0 < max && ChecksUninterrupted(max, r)
    ensures TakesFreeSlots(max, r)
  {
    if r.Then? {
      CheckedSlotIsFree(max, r.before);
      if r.step.Grant? {
        OvershootBound(max, r.before);
      }
    }
  }

  // ---------------------------------------------------------------- no call and no task is lost

  /** What has happened in a run: calls begun, slots given to calls, tasks enqueued, dispatched and evicted. */
  datatype Tally = Tally(begun: nat, added: nat, enqueued: nat, dispatched: nat, evicted: nat)

  ghost function Tallied(max: int, r: Run): Tally {
    match r
    case Start => Tally(0, 0, 0, 0, 0)
    case Then(before, step) =>
      var n := Tallied(max, before);
      if !Enabled(End(max, before), step) then n
      else
        match step
        case PushLoad(t) => n.(begun := n.begun + 1)
        case PushRefused(t) => if Fresh(End(max, before), t) then n.(begun := n.begun + 1) else n
        case PushAdd(t) => if t in End(max, r).holders then n.(added := n.added + 1) else n
        case PushEnqueue(_) => n.(enqueued := n.enqueued + 1)
        case Grant(_) => n.(dispatched := n.dispatched + 1)
        case Evict => n.(evicted := n.evicted + 1)
        case _ => n
  }

  lemma CallsMove(max: int, s: State, step: Step)
    requires Enabled(s, step) && forall t :: t in s.pushers ==> t !in s.holders
    ensures var s' := Apply(max, s, step);
            |s'.pushers| == |s.pushers| + (if step.PushLoad? || (step.PushRefused? && Fresh(s, step.t)) then 1 else 0)
                            - (if step.PushEnqueue? || (step.PushAdd? && step.t in s'.holders) then 1 else 0)
  {
    if step.PushAdd? || step.PushEnqueue? {
      assert s.pushers == (s.pushers - {step.t})[step.t := s.pushers[step.t]];
    }
  }

  lemma {:induction false} CallsAddUp(max: int, r: Run)
    requires 0 < max
    ensures Tallied(max, r).begun == |End(max, r).pushers| + Tallied(max, r).added + Tallied(max, r).enqueued
  {
    if r.Then? {
      CallsAddUp(max, r.before);
      EveryRunKeepsInv(max, r.before);
      if Enabled(End(max, r.before), r.step) {
        CallsMove(max, End(max, r.before), r.step);
      }
    }
  }

  lemma TasksMove(max: int, s: State, step: Step)
    requires Enabled(s, step) && (s.dispatcher == Unlocked ==> s.deferred == 0)
    ensures var s' := Apply(max, s, step);
            && s'.waiting + s'.deferred == s.waiting + s.deferred + (if step.PushEnqueue? then 1 else 0)
                                           - (if step.Grant? || step.Evict? then 1 else 0)
            && (s'.dispatcher == Unlocked ==> s'.deferred == 0)
  {
  }

  lemma {:induction false} TasksAddUp(max: int, r: Run)
    ensures var s, n := End(max, r), Tallied(max, r);
            && n.enqueued == s.waiting + s.deferred + n.dispatched + n.evicted
            && (s.dispatcher == Unlocked ==> s.deferred == 0)
  {
    if r.Then? {
      TasksAddUp(max, r.before);
      if Enabled(End(max, r.before), r.step) {
        TasksMove(max, End(max, r.before), r.step);
      }
    }
  }

  /** In every run each PushTask call begun is still under way, has been given a slot or has enqueued its
      task; and each task enqueued waits, is put aside by the dispatcher that holds the lock, or was
      dispatched or evicted. */
  lemma EveryCallIsAccountedFor(max: int, r: Run)
    requires 0 < max
    ensures var s, n := End(max, r), Tallied(max, r);
            && n.begun == |s.pushers| + n.added + n.enqueued
            && n.enqueued == s.waiting + s.deferred + n.dispatched + n.evicted
            && (s.dispatcher == Unlocked ==> s.deferred == 0)
  {
    CallsAddUp(max, r);
    TasksAddUp(max, r);
  }

  // ---------------------------------------------------------------- the bound is reached

  ghost function Granted(n: nat): (m: map<Tid, Holder>)
    ensures forall t :: t in m ==> t < n && m[t] == Pushed
    ensures |m| == n
  {
    if n == 0 then map[] else Granted(n - 1)[n - 1 := Pushed]
  }

  ghost function Pushes(n: nat): Run {
    if n == 0 then Start else Then(Then(Pushes(n - 1), PushLoad(n - 1)), PushAdd(n - 1))
  }

  /** A PushTask call that nobody interferes with takes a slot when one is free. */
  lemma OnePush(max: int, r: Run, t: Tid)
    requires Fresh(End(max, r), t) && End(max, r).globalActive < max
    ensures var s := End(max, r);
            End(max, Then(Then(r, PushLoad(t)), PushAdd(t)))
            == s.(globalActive := s.globalActive + 1, holders := s.holders[t := Pushed])
  {
    var s := End(max, r);
    assert s.pushers[t := PassedLoad] - {t} == s.pushers;
  }

  /** One refused PushTask call leaves one task waiting. */
  lemma OneRefusal(max: int, r: Run, t: Tid)
    requires Fresh(End(max, r), t) && End(max, r).globalActive >= max && End(max, r).dispatcher == Unlocked
    ensures var s := End(max, r);
            End(max, Then(Then(r, PushLoad(t)), PushEnqueue(t))) == s.(waiting := s.waiting + 1)
  {
    var s := End(max, r);
    assert s.pushers[t := ToQueue] - {t} == s.pushers;
  }

  lemma {:induction false} PushesFillSlots(max: int, n: nat)
    requires n <= max
    ensures End(max, Pushes(n)) == State(n, map[], Unlocked, 0, 0, Granted(n))
  {
    if n > 0 {
      PushesFillSlots(max, n - 1);
      OnePush(max, Pushes(n - 1), n - 1);
    }
  }

  /** The dispatcher has just found a free slot for the one waiting task. */
  ghost function UpToCheck(max: nat): Run
    requires 0 < max
  {
    Then(Then(Then(Then(Then(Pushes(max), PushLoad(max)), PushEnqueue(max)), Release(max - 1)), Lock), Check)
  }

  lemma CheckFindsFreeSlot(max: nat)
    requires 0 < max
    ensures End(max, UpToCheck(max)) == State(max - 1, map[], PassedCheck, 1, 0, Granted(max - 1))
  {
    PushesFillSlots(max, max);
    OneRefusal(max, Pushes(max), max);
    assert Granted(max) - {max - 1} == Granted(max - 1);
    var refused := Then(Then(Pushes(max), PushLoad(max)), PushEnqueue(max));
    assert End(max, Then(refused, Release(max - 1))) == State(max - 1, map[], Unlocked, 1, 0, Granted(max - 1));
  }

  /** The bound is tight for every cap: a run without retries that holds one slot too many. The
      dispatcher checks, a PushTask call takes the last slot, the dispatcher adds. */
  lemma CapIsExceeded(max: nat) returns (r: Run)
    requires 0 < max
    ensures Retries(End(max, r).holders) == {} && |End(max, r).holders| == max + 1
  {
    var checked := UpToCheck(max);
    CheckFindsFreeSlot(max);
    OnePush(max, checked, max + 1);
    r := Then(Then(Then(checked, PushLoad(max + 1)), PushAdd(max + 1)), Grant(max + 2));
    assert End(max, r).holders == Granted(max - 1)[max + 1 := Pushed][max + 2 := Dispatched];
  }
}
