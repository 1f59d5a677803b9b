/** Incremental snapshots: a running workflow's finished tasks are written as deltas, each task once per
    mark; after a crash the deltas that reached the database are replayed to find where to go on.
    Deltas are lists here, not bytes. */
module Snapshot {
  import opened Sequences

  type Output = map<string, string>

  datatype Delta =
    | Completed(name: string, output: Output)
    | Failed(name: string, result: string)
    | RolledBack(name: string)

  /** What a snapshot is meant to preserve. */
  datatype Tasks = Tasks(completed: map<string, Output>, failed: map<string, string>, rolledBack: set<string>)

  /** The running state: the tasks, the snapshot counter and the marks of what was written. */
  datatype Live = Live(tasks: Tasks, seqNo: nat, marks: map<string, nat>)

  const FRESH := Tasks(map[], map[], {})

  // ---------------------------------------------------------------- collecting and replaying

  predicate Marked(l: Live, name: string) {
    name in l.marks && l.marks[name] != 0
  }

  /** The delta tells something that is live and not marked. */
  predicate IsNew(l: Live, d: Delta) {
    && !Marked(l, d.name)
    && match d
       case Completed(n, o) => n in l.tasks.completed && l.tasks.completed[n] == o
       case Failed(n, r) => n in l.tasks.failed && l.tasks.failed[n] == r
       case RolledBack(n) => n in l.tasks.rolledBack
  }

  /** The deltas are exactly the unmarked changes, each once, in some order. */
  ghost predicate Collects(l: Live, ds: seq<Delta>) {
    (forall d :: d in ds <==> IsNew(l, d)) && NoRepeat(ds)
  }

  lemma TogetherCollect(l: Live, c: seq<Delta>, f: seq<Delta>, r: seq<Delta>)
    requires NoRepeat(c) && forall d :: d in c <==> d.Completed? && IsNew(l, d)
    requires NoRepeat(f) && forall d :: d in f <==> d.Failed? && IsNew(l, d)
    requires NoRepeat(r) && forall d :: d in r <==> d.RolledBack? && IsNew(l, d)
    ensures Collects(l, c + f + r)
  {
    JoinNoRepeat(c, f);
    forall d | d in r ensures d !in c + f {
    }
    JoinNoRepeat(c + f, r);
  }

  lemma OneChange(l: Live, d: Delta)
    requires forall e :: IsNew(l, e) <==> e == d
    ensures Collects(l, [d])
  {
  }

  lemma OneCompletion(n: string, o: Output)
    ensures Collects(Live(Tasks(map[][n := o], map[], {}), 0, map[]), [Completed(n, o)])
  {
    var l := Live(Tasks(map[][n := o], map[], {}), 0, map[]);
    forall d ensures IsNew(l, d) <==> d == Completed(n, o) {
      match d
      case Completed(m, p) => assert m in map[][n := o] <==> m == n;
      case Failed(m, p) =>
      case RolledBack(m) =>
    }
    OneChange(l, Completed(n, o));
  }

  lemma OneFailure(n: string, result: string)
    ensures Collects(Live(Tasks(map[], map[][n := result], {}), 0, map[]), [Failed(n, result)])
  {
    var l := Live(Tasks(map[], map[][n := result], {}), 0, map[]);
    forall d ensures IsNew(l, d) <==> d == Failed(n, result) {
      match d
      case Completed(m, p) =>
      case Failed(m, p) => assert m in map[][n := result] <==> m == n;
      case RolledBack(m) =>
    }
    OneChange(l, Failed(n, result));
  }

  function Names(ds: seq<Delta>): set<string> {
    set d | d in ds :: d.name
  }

  /** The marks after a snapshot, before stale ones are swept. */
  function Remarked(l: Live, ds: seq<Delta>): map<string, nat> {
    map n | n in l.marks.Keys + Names(ds) :: if n in Names(ds) then l.seqNo + 1 else l.marks[n]
  }

  predicate Known(t: Tasks, name: string) {
    name in t.completed || name in t.failed || name in t.rolledBack
  }

  /** After a snapshot; every tenth one that wrote something sweeps the marks of unknown tasks. */
  function AfterSnapshot(l: Live, ds: seq<Delta>): Live {
    var marks := Remarked(l, ds);
    Live(l.tasks, l.seqNo + 1,
         if ds != [] && (l.seqNo + 1) % 10 == 0 then map n | n in marks && Known(l.tasks, n) :: marks[n] else marks)
  }

  function Applied(t: Tasks, d: Delta): Tasks {
    match d
    case Completed(n, o) => t.(completed := t.completed[n := o])
    case Failed(n, r) => t.(failed := t.failed[n := r])
    case RolledBack(n) => t.(rolledBack := t.rolledBack + {n})
  }

  /** The deltas applied one after the other. */
  function Replay(t: Tasks, ds: seq<Delta>): Tasks {
    if ds == [] then t else Applied(Replay(t, ds[..|ds| - 1]), ds[|ds| - 1])
  }

  lemma {:induction false} ReplayConcat(t: Tasks, a: seq<Delta>, b: seq<Delta>)
    ensures Replay(t, a + b) == Replay(Replay(t, a), b)
  {
    if b == [] {
      assert a + b == a;
    } else {
      ReplayConcat(t, a, b[..|b| - 1]);
      assert (a + b)[..|a + b| - 1] == a + b[..|b| - 1];
    }
  }

  ghost predicate Completes(ds: seq<Delta>, name: string) {
    exists d :: d in ds && d.Completed? && d.name == name
  }

  ghost predicate Fails(ds: seq<Delta>, name: string) {
    exists d :: d in ds && d.Failed? && d.name == name
  }

  /** What replaying does to one task, and where the replayed output comes from. */
  lemma {:induction false} ReplayOf(t: Tasks, ds: seq<Delta>, name: string)
    ensures var r := Replay(t, ds);
            && (name in r.completed <==> name in t.completed || Completes(ds, name))
            && (Completes(ds, name) ==> Completed(name, r.completed[name]) in ds)
            && (!Completes(ds, name) && name in t.completed ==> r.completed[name] == t.completed[name])
            && (name in r.failed <==> name in t.failed || Fails(ds, name))
            && (name in r.rolledBack <==> name in t.rolledBack || RolledBack(name) in ds)
  {
    if ds != [] {
      var init, last := ds[..|ds| - 1], ds[|ds| - 1];
      ReplayOf(t, init, name);
      assert ds == init + [last];
    }
  }

  /** Appending a snapshot's deltas brings in exactly the unmarked tasks, with their live outputs. */
  lemma AppendSnapshot(l: Live, log: seq<Delta>, ds: seq<Delta>, name: string)
    requires Collects(l, ds)
    ensures var e, e' := Replay(FRESH, log), Replay(FRESH, log + ds);
            && (name in e'.completed <==> name in e.completed || (name in l.tasks.completed && !Marked(l, name)))
            && (name in l.tasks.completed && !Marked(l, name) ==> e'.completed[name] == l.tasks.completed[name])
            && (Marked(l, name) && name in e.completed ==> e'.completed[name] == e.completed[name])
            && (name in e'.failed <==> name in e.failed || (name in l.tasks.failed && !Marked(l, name)))
            && (name in e'.rolledBack <==> name in e.rolledBack || (name in l.tasks.rolledBack && !Marked(l, name)))
  {
    var e := Replay(FRESH, log);
    ReplayConcat(FRESH, log, ds);
    ReplayOf(e, ds, name);
    assert IsNew(l, RolledBack(name)) <==> name in l.tasks.rolledBack && !Marked(l, name);
    if name in l.tasks.completed && !Marked(l, name) {
      assert IsNew(l, Completed(name, l.tasks.completed[name]));
    }
    if name in l.tasks.failed && !Marked(l, name) {
      assert IsNew(l, Failed(name, l.tasks.failed[name]));
    }
  }

  lemma {:induction false} ReplayedFailure(t: Tasks, ds: seq<Delta>, name: string)
    ensures var r := Replay(t, ds);
            && (Fails(ds, name) ==> name in r.failed && Failed(name, r.failed[name]) in ds)
            && (!Fails(ds, name) && name in t.failed ==> name in r.failed && r.failed[name] == t.failed[name])
  {
    if ds != [] {
      var init, last := ds[..|ds| - 1], ds[|ds| - 1];
      ReplayedFailure(t, init, name);
      assert ds == init + [last];
    }
  }

  /** The same for failures: an unmarked one comes in with its live text, a marked task's stays as it was. */
  lemma AppendFailure(l: Live, log: seq<Delta>, ds: seq<Delta>, name: string)
    requires Collects(l, ds)
    ensures var e, e' := Replay(FRESH, log), Replay(FRESH, log + ds);
            && (name in l.tasks.failed && !Marked(l, name) ==> name in e'.failed && e'.failed[name] == l.tasks.failed[name])
            && (Marked(l, name) && name in e.failed ==> name in e'.failed && e'.failed[name] == e.failed[name])
  {
    var e := Replay(FRESH, log);
    ReplayConcat(FRESH, log, ds);
    ReplayedFailure(e, ds, name);
    if name in l.tasks.failed && !Marked(l, name) {
      assert IsNew(l, Failed(name, l.tasks.failed[name]));
    }
  }

  /** The tasks of what a snapshot collects bear its mark afterwards, also behind a sweep. */
  lemma CollectedBearMark(l: Live, ds: seq<Delta>)
    requires Collects(l, ds)
    ensures var marks := AfterSnapshot(l, ds).marks;
            forall d :: d in ds ==> d.name in marks && marks[d.name] == l.seqNo + 1
  {
    forall d | d in ds ensures d.name in AfterSnapshot(l, ds).marks && AfterSnapshot(l, ds).marks[d.name] == l.seqNo + 1 {
      assert d.name in Names(ds) && IsNew(l, d);
    }
  }

  // ---------------------------------------------------------------- the running entry

  class WorkflowState {
    var completedTasks: map<string, Output>
    var failedTasks: map<string, string>
    var rolledBack: set<string>
    var snapshotSeq: nat
    var snapshotted: map<string, nat>
    var recovered: bool

    function Value(): Live
      reads this
    {
      Live(Tasks(completedTasks, failedTasks, rolledBack), snapshotSeq, snapshotted)
    }

    constructor ()
      ensures Value() == Live(FRESH, 0, map[]) && !recovered
    {
      completedTasks, failedTasks, rolledBack := map[], map[], {};
      snapshotSeq, snapshotted, recovered := 0, map[], false;
    }

    /** ApplyDeltas. */
    method ApplyDeltas(deltas: seq<Delta>)
      modifies `completedTasks, `failedTasks, `rolledBack
      ensures Value().tasks == Replay(old(Value().tasks), deltas)
    {
      for i := 0 to |deltas|
        invariant Value().tasks == Replay(old(Value().tasks), deltas[..i])
      {
        assert deltas[..i + 1][..i] == deltas[..i];
        match deltas[i] {
          case Completed(n, o) => completedTasks := completedTasks[n := o];
          case Failed(n, r) => failedTasks := failedTasks[n := r];
          case RolledBack(n) => rolledBack := rolledBack + {n};
        }
      }
      assert deltas[..|deltas|] == deltas;
    }

    /** The unmarked completed tasks; a map is walked in an arbitrary order. */
    method CompletedDeltas() returns (ds: seq<Delta>)
      ensures NoRepeat(ds) && forall d :: d in ds <==> d.Completed? && IsNew(Value(), d)
    {
      ds := [];
      var left := completedTasks.Keys;
      while left != {}
        invariant left <= completedTasks.Keys && NoRepeat(ds)
        invariant forall d :: d in ds <==> d.Completed? && IsNew(Value(), d) && d.name !in left
        decreases left
      {
        var n :| n in left;
        left := left - {n};
        if !Marked(Value(), n) {
          ds := ds + [Completed(n, completedTasks[n])];
        }
      }
    }

    method FailedDeltas() returns (ds: seq<Delta>)
      ensures NoRepeat(ds) && forall d :: d in ds <==> d.Failed? && IsNew(Value(), d)
    {
      ds := [];
      var left := failedTasks.Keys;
      while left != {}
        invariant left <= failedTasks.Keys && NoRepeat(ds)
        invariant forall d :: d in ds <==> d.Failed? && IsNew(Value(), d) && d.name !in left
        decreases left
      {
        var n :| n in left;
        left := left - {n};
        if !Marked(Value(), n) {
          ds := ds + [Failed(n, failedTasks[n])];
        }
      }
    }

    method RolledBackDeltas() returns (ds: seq<Delta>)
      ensures NoRepeat(ds) && forall d :: d in ds <==> d.RolledBack? && IsNew(Value(), d)
    {
      ds := [];
      var left := rolledBack;
      while left != {}
        invariant left <= rolledBack && NoRepeat(ds)
        invariant forall d :: d in ds <==> d.RolledBack? && IsNew(Value(), d) && d.name !in left
        decreases left
      {
        var n :| n in left;
        left := left - {n};
        if !Marked(Value(), n) {
          ds := ds + [RolledBack(n)];
        }
      }
    }

    method Mark(deltas: seq<Delta>)
      requires snapshotSeq > 0
      modifies `snapshotted
      ensures snapshotted == Remarked(old(Value()).(seqNo := snapshotSeq - 1), deltas)
    {
      for i := 0 to |deltas|
        invariant snapshotted == Remarked(old(Value()).(seqNo := snapshotSeq - 1), deltas[..i])
      {
        assert deltas[..i + 1] == deltas[..i] + [deltas[i]];
        assert Names(deltas[..i + 1]) == Names(deltas[..i]) + {deltas[i].name};
        snapshotted := snapshotted[deltas[i].name := snapshotSeq];
      }
      assert deltas[..|deltas|] == deltas;
    }

    method Sweep()
      modifies `snapshotted
      ensures snapshotted == map n | n in old(snapshotted) && Known(Value().tasks, n) :: old(snapshotted[n])
    {
      var left := snapshotted.Keys;
      while left != {}
        invariant left <= old(snapshotted.Keys)
        invariant snapshotted == map n | n in old(snapshotted) && (n in left || Known(Value().tasks, n)) :: old(snapshotted[n])
        decreases left
      {
        var n :| n in left;
        left := left - {n};
        if n !in completedTasks && n !in failedTasks && n !in rolledBack {
          snapshotted := snapshotted - {n};
        }
      }
    }

    /** collectTaskDeltasLocked: all unmarked changes, which are then marked. */
    method CollectTaskDeltas() returns (deltas: seq<Delta>)
      modifies `snapshotSeq, `snapshotted
      ensures Collects(old(Value()), deltas)
      ensures Value() == AfterSnapshot(old(Value()), deltas)
      // A change is collected unless its task bears a mark; its task then bears the new one.
      ensures forall n, o :: Completed(n, o) in deltas <==>
                n in completedTasks && completedTasks[n] == o && (n in old(snapshotted) ==> old(snapshotted)[n] == 0)
      ensures forall n, r :: Failed(n, r) in deltas <==>
                n in failedTasks && failedTasks[n] == r && (n in old(snapshotted) ==> old(snapshotted)[n] == 0)
      ensures forall n :: RolledBack(n) in deltas <==> n in rolledBack && (n in old(snapshotted) ==> old(snapshotted)[n] == 0)
      ensures forall d :: d in deltas ==> d.name in snapshotted && snapshotted[d.name] == snapshotSeq == old(snapshotSeq) + 1
    {
      var c := CompletedDeltas();
      var f := FailedDeltas();
      var r := RolledBackDeltas();
      deltas := c + f + r;
      TogetherCollect(Value(), c, f, r);
      snapshotSeq := snapshotSeq + 1;
      Mark(deltas);
      if |deltas| > 0 && snapshotSeq % 10 == 0 {
        Sweep();
      }
      CollectedBearMark(old(Value()), deltas);
    }

    /** The event guard of watchWorkflowStatus with recordTaskCompleted. */
    method RecordCompleted(name: string, output: Output) returns (recorded: bool)
      modifies `completedTasks
      ensures recorded == !Dropped(old(Value()), recovered, name)
      ensures Value() == if recorded then Completing(old(Value()), name, output) else old(Value())
      ensures recorded <==> name !in failedTasks && !(recovered && name in old(completedTasks))
      ensures completedTasks == if recorded then old(completedTasks)[name := output] else old(completedTasks)
    {
      if name in failedTasks || (recovered && name in completedTasks) {
        return false;
      }
      completedTasks := completedTasks[name := output];
      return true;
    }

    /** The event guard with recordTaskFailed. */
    method RecordFailed(name: string, result: string) returns (recorded: bool)
      modifies `failedTasks
      ensures recorded == !Dropped(old(Value()), recovered, name)
      ensures Value() == if recorded then Failing(old(Value()), name, result) else old(Value())
      ensures recorded <==> name !in old(failedTasks) && !(recovered && name in completedTasks)
      ensures failedTasks == if recorded then old(failedTasks)[name := result] else old(failedTasks)
    {
      if name in failedTasks || (recovered && name in completedTasks) {
        return false;
      }
      failedTasks := failedTasks[name := result];
      return true;
    }

    /** clearFailedTask, called when a retry goes out. */
    method ClearFailedTask(name: string)
      modifies `failedTasks, `snapshotted
      ensures Value() == Clearing(old(Value()), name)
      ensures failedTasks == old(failedTasks) - {name} && snapshotted == old(snapshotted) - {name}
    {
      failedTasks := failedTasks - {name};
      snapshotted := snapshotted - {name};
    }
  }

  // ---------------------------------------------------------------- runs of a workflow and its database

  predicate Dropped(l: Live, recovered: bool, name: string) {
    name in l.tasks.failed || (recovered && name in l.tasks.completed)
  }

  function Completing(l: Live, name: string, output: Output): Live {
    l.(tasks := l.tasks.(completed := l.tasks.completed[name := output]))
  }

  function Failing(l: Live, name: string, result: string): Live {
    l.(tasks := l.tasks.(failed := l.tasks.failed[name := result]))
  }

  function Clearing(l: Live, name: string): Live {
    l.(tasks := l.tasks.(failed := l.tasks.failed - {name}), marks := l.marks - {name})
  }

  /** A snapshot's write travels on its own: it may land in any order, or be lost.
      emitted are the deltas of this process, after those it recovered from; stored those in the database.
      reported and overtaken are bookkeeping: all completions ever recorded, and, of the tasks that
      completed again since they were last written, the latest output. */
  datatype State = State(
    live: Live,
    recovered: bool,
    emitted: seq<Delta>,
    inFlight: seq<seq<Delta>>,
    stored: seq<Delta>,
    reported: set<(string, Output)>,
    overtaken: map<string, Output>)

  datatype Step =
    | Complete(name: string, output: Output)
    | Fail(name: string, result: string)
    | ClearFailed(name: string)
    | TakeSnapshot(deltas: seq<Delta>)
    | Land(k: nat)
    | Lose(k: nat)
    | Crash

  /** Every snapshot is a legal one. */
  ghost predicate Enabled(s: State, step: Step) {
    match step
    case Complete(n, _) => !Dropped(s.live, s.recovered, n)
    case Fail(n, _) => !Dropped(s.live, s.recovered, n)
    case TakeSnapshot(ds) => Collects(s.live, ds)
    case Land(k) => k < |s.inFlight|
    case Lose(k) => k < |s.inFlight|
    case _ => true
  }

  function Recovered(stored: seq<Delta>): Live {
    Live(Replay(FRESH, stored), 0, map[])
  }

  ghost function Apply(s: State, step: Step): State
    requires Enabled(s, step)
  {
    match step
    case Complete(n, o) =>
      s.(live := Completing(s.live, n, o),
         reported := s.reported + {(n, o)},
         overtaken := if Marked(s.live, n) then s.overtaken[n := o] else s.overtaken)
    case Fail(n, r) => s.(live := Failing(s.live, n, r))
    case ClearFailed(n) => s.(live := Clearing(s.live, n))
    case TakeSnapshot(ds) =>
      s.(live := AfterSnapshot(s.live, ds),
         emitted := s.emitted + ds,
         inFlight := s.inFlight + [ds],
         overtaken := s.overtaken - Names(ds))
    case Land(k) => s.(inFlight := RemoveAt(s.inFlight, k), stored := s.stored + s.inFlight[k])
    case Lose(k) => s.(inFlight := RemoveAt(s.inFlight, k))
    case Crash => State(Recovered(s.stored), true, s.stored, [], s.stored, s.reported, map[])
  }

  datatype Run = Start | Then(before: Run, step: Step)

  ghost function End(r: Run): State {
    match r
    case Start => State(Live(FRESH, 0, map[]), false, [], [], [], {}, map[])
    case Then(before, step) =>
      var s := End(before);
      if Enabled(s, step) then Apply(s, step) else s
  }

  // ---------------------------------------------------------------- the log agrees with the live state

  ghost predicate InFlight(s: State, d: Delta) {
    exists k :: 0 <= k < |s.inFlight| && d in s.inFlight[k]
  }

  /** The delta is in the process's log, in the database or on its way there. */
  ghost predicate Written(s: State, d: Delta) {
    d in s.emitted || d in s.stored || InFlight(s, d)
  }

  /** Every completion ever written is live, and was reported with that output. */
  ghost predicate WrittenIsReal(s: State) {
    && (forall d :: Written(s, d) ==> !d.RolledBack?)
    && (forall d :: Written(s, d) && d.Completed? ==> d.name in s.live.tasks.completed && (d.name, d.output) in s.reported)
    && (forall n :: n in s.live.tasks.completed ==> (n, s.live.tasks.completed[n]) in s.reported)
    && s.live.tasks.rolledBack == {}
  }

  /** What a mark means for the log: completions are in it, and what is not was written as a failure
      that still stands. */
  ghost predicate MarkIsHonest(s: State, n: string) {
    var e := Replay(FRESH, s.emitted);
    Marked(s.live, n) ==>
      && (n in s.live.tasks.completed ==> n in e.completed)
      && (n !in e.completed ==> n in s.live.tasks.failed && n in e.failed)
      && (n in s.live.tasks.completed ==> TellsApart(s, n))
  }

  /** The log has the task's live output, unless it completed again since, and then with that output. */
  ghost predicate TellsApart(s: State, n: string) {
    var e := Replay(FRESH, s.emitted);
    && n in e.completed && n in s.live.tasks.completed
    && s.live.tasks.completed[n] == if n in s.overtaken then s.overtaken[n] else e.completed[n]
  }

  ghost predicate Inv(s: State) {
    && WrittenIsReal(s)
    && (forall n :: MarkIsHonest(s, n))
    && (forall n :: n in s.live.marks ==> Marked(s.live, n))
  }

  lemma StepKeepsWritten(s: State, step: Step)
    requires Inv(s) && Enabled(s, step)
    ensures WrittenIsReal(Apply(s, step))
  {
    var s' := Apply(s, step);
    forall d | Written(s', d)
      ensures !d.RolledBack?
      ensures d.Completed? ==> d.name in s'.live.tasks.completed && (d.name, d.output) in s'.reported
    {
      WrittenBefore(s, step, d);
      if step.Crash? {
        ReplayOf(FRESH, s.stored, d.name);
      }
    }
    if step.Crash? {
      forall n ensures n in s'.live.tasks.completed ==> (n, s'.live.tasks.completed[n]) in s'.reported
               ensures n !in s'.live.tasks.rolledBack
      {
        ReplayOf(FRESH, s.stored, n);
        assert !Written(s, RolledBack(n));
        if n in s'.live.tasks.completed {
          assert Written(s, Completed(n, s'.live.tasks.completed[n]));
        }
      }
    }
  }

  /** A step writes nothing but a snapshot's deltas. */
  lemma WrittenBefore(s: State, step: Step, d: Delta)
    requires Enabled(s, step) && Written(Apply(s, step), d)
    ensures Written(s, d) || (step.TakeSnapshot? && IsNew(s.live, d))
    ensures step.Crash? ==> d in s.stored
  {
    var s' := Apply(s, step);
    if InFlight(s', d) {
      var k :| 0 <= k < |s'.inFlight| && d in s'.inFlight[k];
      if step.Land? || step.Lose? {
        assert s'.inFlight[k] == s.inFlight[if k < step.k then k else k + 1];
      }
    }
  }

  lemma StepKeepsMarks(s: State, step: Step, n: string)
    requires Inv(s) && Enabled(s, step)
    ensures MarkIsHonest(Apply(s, step), n)
    ensures n in Apply(s, step).live.marks ==> Marked(Apply(s, step).live, n)
  {
    assert MarkIsHonest(s, n);
    if step.TakeSnapshot? {
      AppendSnapshot(s.live, s.emitted, step.deltas, n);
      if n in Names(step.deltas) {
        var d :| d in step.deltas && d.name == n;
        assert IsNew(s.live, d);
      }
    }
  }

  lemma {:induction false} EveryRunKeepsInv(r: Run)
    ensures Inv(End(r))
  {
    match r
    case Start =>
    case Then(before, step) =>
      EveryRunKeepsInv(before);
      var s := End(before);
      if Enabled(s, step) {
        StepKeepsWritten(s, step);
        forall n ensures MarkIsHonest(End(r), n) && (n in End(r).live.marks ==> Marked(End(r).live, n)) {
          StepKeepsMarks(s, step, n);
        }
      }
  }

  // ---------------------------------------------------------------- snapshots are complete

  /** Nothing has been completed since the last snapshot, or since the process started. */
  ghost predicate Settled(r: Run) {
    match r
    case Start => true
    case Then(before, step) =>
      if !Enabled(End(before), step) then Settled(before)
      else if step.TakeSnapshot? || step.Crash? then true
      else !step.Complete? && Settled(before)
  }

  lemma EmittedIsLive(s: State, n: string)
    requires Inv(s) && n in Replay(FRESH, s.emitted).completed
    ensures n in s.live.tasks.completed
  {
    ReplayOf(FRESH, s.emitted, n);
    assert Written(s, Completed(n, Replay(FRESH, s.emitted).completed[n]));
  }

  lemma {:induction false} SettledCompletes(r: Run, n: string)
    requires Settled(r) && n in End(r).live.tasks.completed
    ensures n in Replay(FRESH, End(r).emitted).completed
  {
    match r
    case Start =>
    case Then(before, step) =>
      EveryRunKeepsInv(before);
      var s := End(before);
      if !Enabled(s, step) {
        SettledCompletes(before, n);
      } else if step.TakeSnapshot? {
        assert MarkIsHonest(s, n);
        AppendSnapshot(s.live, s.emitted, step.deltas, n);
      } else if !step.Crash? {
        SettledCompletes(before, n);
      }
  }

  lemma {:induction false} SettledTellsApart(r: Run, n: string)
    requires Settled(r) && n in End(r).live.tasks.completed
    ensures TellsApart(End(r), n)
  {
    match r
    case Start =>
    case Then(before, step) =>
      EveryRunKeepsInv(before);
      var s := End(before);
      if !Enabled(s, step) {
        SettledTellsApart(before, n);
      } else if step.TakeSnapshot? {
        StepKeepsMarks(s, step, n);
        SnapshotTellsApart(s, step.deltas, n);
      } else if !step.Crash? {
        SettledTellsApart(before, n);
      }
  }

  lemma SnapshotTellsApart(s: State, ds: seq<Delta>, n: string)
    requires Inv(s) && Collects(s.live, ds) && n in s.live.tasks.completed
    ensures TellsApart(Apply(s, TakeSnapshot(ds)), n)
  {
    assert MarkIsHonest(s, n);
    AppendSnapshot(s.live, s.emitted, ds, n);
    if Marked(s.live, n) {
      assert n !in Names(ds) by {
        forall d | d in ds ensures d.name != n {
          assert IsNew(s.live, d);
        }
      }
    } else {
      assert IsNew(s.live, Completed(n, s.live.tasks.completed[n]));
      assert Completed(n, s.live.tasks.completed[n]).name in Names(ds);
    }
  }

  /** From a snapshot, or the start of the process, to the next completion, replaying all deltas written
      so far gives exactly the live set of completed tasks; and it gives a task's live output if and only
      if the task has not completed again, with a different output, since it was last written. */
  lemma ReplayMatchesLive(r: Run)
    requires Settled(r)
    ensures var s, e := End(r), Replay(FRESH, End(r).emitted);
            && e.completed.Keys == s.live.tasks.completed.Keys
            && (forall n :: n in e.completed ==>
                  (e.completed[n] == s.live.tasks.completed[n]
                   <==> n !in s.overtaken || s.overtaken[n] == e.completed[n]))
  {
    EveryRunKeepsInv(r);
    var s, e := End(r), Replay(FRESH, End(r).emitted);
    forall n ensures n in e.completed <==> n in s.live.tasks.completed {
      if n in e.completed { EmittedIsLive(s, n); }
      if n in s.live.tasks.completed { SettledCompletes(r, n); }
    }
    forall n | n in e.completed ensures TellsApart(s, n) {
      SettledTellsApart(r, n);
    }
  }

  /** No completion is recorded for a task while its mark stands; those the guard drops do not matter. */
  ghost predicate NoRecompletion(r: Run) {
    match r
    case Start => true
    case Then(before, step) =>
      NoRecompletion(before)
      && (step.Complete? && Enabled(End(before), step) ==> !Marked(End(before).live, step.name))
  }

  lemma {:induction false} NothingOvertaken(r: Run)
    requires NoRecompletion(r)
    ensures End(r).overtaken == map[]
  {
    if r.Then? {
      NothingOvertaken(r.before);
    }
  }

  /** The task's latest failure was recorded while a mark of the task stood. */
  ghost predicate FailedUnderMark(r: Run, n: string) {
    match r
    case Start => false
    case Then(before, step) =>
      if !Enabled(End(before), step) then FailedUnderMark(before, n)
      else if step.Crash? || step == ClearFailed(n) then false
      else if step.Fail? && step.name == n then Marked(End(before).live, n)
      else FailedUnderMark(before, n)
  }

  /** The task's latest failure has been written since it was recorded, or was recovered. */
  ghost predicate FailureWritten(r: Run, n: string) {
    match r
    case Start => false
    case Then(before, step) =>
      if !Enabled(End(before), step) then FailureWritten(before, n)
      else if step.Crash? then true
      else if step.Fail? && step.name == n then false
      else FailureWritten(before, n) || (step.TakeSnapshot? && Fails(step.deltas, n))
  }

  /** What the log says about a standing failure. */
  ghost predicate FailureLogged(r: Run, n: string) {
    var s, e := End(r), Replay(FRESH, End(r).emitted);
    n in s.live.tasks.failed ==>
      if FailedUnderMark(r, n) then Marked(s.live, n) && !FailureWritten(r, n) && n in e.completed
      else Marked(s.live, n) ==> FailureWritten(r, n) && n in e.failed && e.failed[n] == s.live.tasks.failed[n]
  }

  lemma {:induction false} FailuresAreLogged(r: Run, n: string)
    ensures FailureLogged(r, n)
  {
    match r
    case Start =>
    case Then(before, step) =>
      FailuresAreLogged(before, n);
      EveryRunKeepsInv(before);
      var s := End(before);
      assert MarkIsHonest(s, n);
      if Enabled(s, step) && step.TakeSnapshot? {
        SnapshotLogsFailure(before, step.deltas, n);
      }
  }

  lemma SnapshotLogsFailure(before: Run, ds: seq<Delta>, n: string)
    requires FailureLogged(before, n) && Inv(End(before)) && Collects(End(before).live, ds)
    ensures var r := Then(before, TakeSnapshot(ds));
            FailureLogged(r, n) && (n in End(r).live.tasks.failed ==> Marked(End(r).live, n))
  {
    var s := End(before);
    if n in s.live.tasks.failed {
      AppendFailure(s.live, s.emitted, ds, n);
      AppendSnapshot(s.live, s.emitted, ds, n);
      if Marked(s.live, n) {
        MarkedIsNotCollected(s.live, ds, n);
      } else {
        UnmarkedIsCollected(s.live, ds, n);
      }
    }
  }

  lemma UnmarkedIsCollected(l: Live, ds: seq<Delta>, n: string)
    requires Collects(l, ds) && n in l.tasks.failed && !Marked(l, n)
    ensures Fails(ds, n) && n in Names(ds) && Marked(AfterSnapshot(l, ds), n)
  {
    var d := Failed(n, l.tasks.failed[n]);
    assert IsNew(l, d) && d in ds && d.name in Names(ds);
  }

  lemma MarkedIsNotCollected(l: Live, ds: seq<Delta>, n: string)
    requires Collects(l, ds) && Marked(l, n)
    ensures n !in Names(ds) && !Fails(ds, n)
  {
    forall d | d in ds ensures d.name != n {
      assert IsNew(l, d);
    }
  }

  /** The snapshot itself: with no task completing twice under one mark, the replay equals the live map of
      completed tasks. A standing failure has been written if and only if it was not recorded while a mark
      of the task stood, and then it is replayed with its live text; otherwise the replay counts the task
      as completed. A task that did not complete never fails under a mark. */
  lemma SnapshotIsComplete(before: Run, deltas: seq<Delta>)
    requires Collects(End(before).live, deltas)
    ensures var r := Then(before, TakeSnapshot(deltas));
            var s, e := End(r), Replay(FRESH, End(r).emitted);
            && (NoRecompletion(before) ==> e.completed == s.live.tasks.completed)
            && (forall n :: n in s.live.tasks.failed ==>
                  && (FailureWritten(r, n) <==> !FailedUnderMark(r, n))
                  && (!FailedUnderMark(r, n) ==> n in e.failed && e.failed[n] == s.live.tasks.failed[n])
                  && (FailedUnderMark(r, n) ==> n in e.completed && n in s.live.tasks.completed))
  {
    var r := Then(before, TakeSnapshot(deltas));
    EveryRunKeepsInv(before);
    ReplayMatchesLive(r);
    if NoRecompletion(before) {
      NothingOvertaken(r);
    }
    forall n | n in End(r).live.tasks.failed ensures FailureLogged(r, n) && Marked(End(r).live, n) {
      FailuresAreLogged(before, n);
      SnapshotLogsFailure(before, deltas, n);
    }
  }

  /** The sweep of every tenth snapshot never removes a mark. */
  lemma SweepRemovesNothing(before: Run, deltas: seq<Delta>)
    requires Collects(End(before).live, deltas)
    ensures AfterSnapshot(End(before).live, deltas).marks == Remarked(End(before).live, deltas)
  {
    var p := End(before);
    EveryRunKeepsInv(before);
    forall n | n in Remarked(p.live, deltas) ensures Known(p.live.tasks, n) {
      if n in Names(deltas) {
        var d :| d in deltas && d.name == n;
        assert IsNew(p.live, d);
      } else {
        assert MarkIsHonest(p, n);
        if n in Replay(FRESH, p.emitted).completed {
          EmittedIsLive(p, n);
        }
      }
    }
  }

  ghost function WrittenOnce(n: string, output: Output): Run {
    Then(Then(Start, Complete(n, output)), TakeSnapshot([Completed(n, output)]))
  }

  lemma AfterFirst(n: string, output: Output)
    ensures End(Then(Start, Complete(n, output))).live == Live(Tasks(map[][n := output], map[], {}), 0, map[])
    ensures End(Then(Start, Complete(n, output))).emitted == [] && !End(Then(Start, Complete(n, output))).recovered
  {
    assert End(Start).live == Live(FRESH, 0, map[]);
  }

  lemma AfterWrittenOnce(n: string, output: Output)
    ensures var s := End(WrittenOnce(n, output));
            && s.live.tasks == Tasks(map[n := output], map[], {})
            && s.emitted == [Completed(n, output)]
            && Marked(s.live, n)
            && !s.recovered
  {
    AfterFirst(n, output);
    OneCompletion(n, output);
    var ds := [Completed(n, output)];
    assert Enabled(End(Then(Start, Complete(n, output))), TakeSnapshot(ds));
    assert [] + ds == ds && ds[0] in ds && ds[0].name in Names(ds);
  }

  lemma ReplayOfOne(n: string, o: Output)
    ensures Replay(FRESH, [Completed(n, o)]) == Tasks(map[n := o], map[], {})
  {
    var ds := [Completed(n, o)];
    assert ds[..0] == [];
    assert Replay(FRESH, ds) == Applied(Replay(FRESH, ds[..0]), ds[0]);
  }

  lemma AfterSecond(n: string, first: Output, second: Output)
    ensures var r := Then(WrittenOnce(n, first), Complete(n, second));
            var s := End(r);
            && s.live.tasks == Tasks(map[n := second], map[], {})
            && s.emitted == [Completed(n, first)]
            && Marked(s.live, n)
  {
    AfterWrittenOnce(n, first);
    var s := End(WrittenOnce(n, first));
    assert End(Then(WrittenOnce(n, first), Complete(n, second))) == Apply(s, Complete(n, second));
    assert map[n := first][n := second] == map[n := second];
  }

  /** A task that completes again under its mark keeps its old output in the log, for every output. */
  lemma RecompletionIsNotWritten(n: string, first: Output, second: Output)
    requires first != second
    ensures var r := Then(Then(WrittenOnce(n, first), Complete(n, second)), TakeSnapshot([]));
            var s, e := End(r), Replay(FRESH, End(r).emitted);
            s.live.tasks.completed == map[n := second] && e.completed == map[n := first]
  {
    AfterSecond(n, first, second);
    var s := End(Then(WrittenOnce(n, first), Complete(n, second)));
    NothingNew(s.live, n);
    assert Enabled(s, TakeSnapshot([]));
    assert s.emitted + [] == [Completed(n, first)];
    ReplayOfOne(n, first);
  }

  /** A task that fails after its completion was written leaves no trace of the failure in the log. */
  lemma FailureAfterCompletionIsNotWritten(n: string, output: Output, result: string)
    ensures var r := Then(Then(WrittenOnce(n, output), Fail(n, result)), TakeSnapshot([]));
            var s, e := End(r), Replay(FRESH, End(r).emitted);
            && s.live.tasks.failed == map[n := result]
            && e == Tasks(map[n := output], map[], {})
  {
    AfterFailing(n, output, result);
    var s := End(Then(WrittenOnce(n, output), Fail(n, result)));
    NothingButMarked(s.live, n);
    assert Enabled(s, TakeSnapshot([]));
    assert s.emitted + [] == [Completed(n, output)];
    ReplayOfOne(n, output);
  }

  lemma AfterFailing(n: string, output: Output, result: string)
    ensures var s := End(Then(WrittenOnce(n, output), Fail(n, result)));
            && s.live.tasks == Tasks(map[n := output], map[n := result], {})
            && s.emitted == [Completed(n, output)]
            && Marked(s.live, n)
  {
    AfterWrittenOnce(n, output);
    var s := End(WrittenOnce(n, output));
    assert Enabled(s, Fail(n, result));
    assert s.live.tasks.failed[n := result] == map[n := result];
  }

  lemma NothingButMarked(l: Live, n: string)
    requires Marked(l, n) && l.tasks.completed.Keys == {n} && l.tasks.failed.Keys == {n} && l.tasks.rolledBack == {}
    ensures Collects(l, [])
  {
    forall d ensures !IsNew(l, d) {
      match d
      case Completed(m, _) => assert m in l.tasks.completed <==> m == n;
      case Failed(m, _) => assert m in l.tasks.failed <==> m == n;
      case RolledBack(m) =>
    }
  }

  lemma NothingNew(l: Live, n: string)
    requires Marked(l, n) && l.tasks.completed.Keys == {n} && l.tasks.failed == map[] && l.tasks.rolledBack == {}
    ensures Collects(l, [])
  {
    forall d ensures !IsNew(l, d) {
      match d
      case Completed(m, _) => assert m in l.tasks.completed <==> m == n;
      case Failed(m, _) =>
      case RolledBack(m) =>
    }
  }

  // ---------------------------------------------------------------- recovery

  predicate AllDone(group: seq<string>, done: set<string>) {
    forall k :: 0 <= k < |group| ==> group[k] in done
  }

  /** The first group that is not completely done. */
  function FirstIncomplete(groups: seq<seq<string>>, done: set<string>): (k: nat)
    ensures k <= |groups|
    ensures forall i :: 0 <= i < k ==> AllDone(groups[i], done)
    ensures k < |groups| ==> !AllDone(groups[k], done)
  {
    if groups == [] || !AllDone(groups[0], done) then 0
    else 1 + FirstIncomplete(groups[1..], done)
  }

  /** The task names of the groups, group by group in the order of definition. */
  ghost function NamesOf(groups: seq<seq<string>>): seq<string> {
    if groups == [] then [] else NamesOf(groups[..|groups| - 1]) + groups[|groups| - 1]
  }

  lemma {:induction false} NamesFollow(a: seq<seq<string>>, b: seq<seq<string>>)
    ensures NamesOf(a + b) == NamesOf(a) + NamesOf(b)
    ensures forall g :: NamesOf([g]) == g
  {
    forall g ensures NamesOf([g]) == g {
      assert [g][..0] == [] && [] + g == g;
    }
    if b == [] {
      assert a + b == a;
    } else {
      NamesFollow(a, b[..|b| - 1]);
      assert (a + b)[..|a + b| - 1] == a + b[..|b| - 1];
      assert (a + b)[|a + b| - 1] == b[|b| - 1];
    }
  }

  lemma {:induction false} NamedInGroup(groups: seq<seq<string>>, name: string)
    ensures name in NamesOf(groups) <==> exists i :: 0 <= i < |groups| && name in groups[i]
  {
    if groups != [] {
      NamedInGroup(groups[..|groups| - 1], name);
    }
  }

  method GroupIsDone(group: seq<string>, completed: map<string, Output>, pending: set<string>) returns (all: bool)
    ensures all <==> AllDone(group, completed.Keys)
  {
    all := true;
    for i := 0 to |group|
      invariant all && AllDone(group[..i], completed.Keys)
    {
      assert group[..i + 1] == group[..i] + [group[i]];
      if group[i] !in completed {
        if group[i] in pending {
          all := false;
          assert !AllDone(group, completed.Keys);
          break;
        }
        all := false;
        assert !AllDone(group, completed.Keys);
        break;
      }
    }
    assert group[..|group|] == group;
  }

  /** The values of the named tasks, name by name. */
  ghost predicate Holds(names: seq<string>, completed: map<string, Output>, values: seq<Output>) {
    |values| == |names| && forall k :: 0 <= k < |names| ==> names[k] in completed && values[k] == completed[names[k]]
  }

  /** The start group of a recovered workflow, with the outputs of all tasks before it, in the order of
      definition. The tasks found PENDING in the store make no difference. */
  method RecoverPosition(groups: seq<seq<string>>, completed: map<string, Output>, pending: set<string>)
    returns (startGroupIdx: nat, upstream: seq<Output>)
    ensures startGroupIdx == FirstIncomplete(groups, completed.Keys)
    ensures var names := NamesOf(groups[..startGroupIdx]);
            |upstream| == |names| && forall k :: 0 <= k < |names| ==> names[k] in completed && upstream[k] == completed[names[k]]
  {
    startGroupIdx, upstream := 0, [];
    for gi := 0 to |groups|
      invariant startGroupIdx == gi
      invariant forall i :: 0 <= i < gi ==> AllDone(groups[i], completed.Keys)
      invariant Holds(NamesOf(groups[..gi]), completed, upstream)
    {
      var all := GroupIsDone(groups[gi], completed, pending);
      if !all {
        startGroupIdx := gi;
        break;
      }
      var g := groups[gi];
      ghost var before := NamesOf(groups[..gi]);
      for j := 0 to |g|
        invariant Holds(before + g[..j], completed, upstream)
      {
        assert before + g[..j + 1] == before + g[..j] + [g[j]];
        if g[j] in completed {
          upstream := upstream + [completed[g[j]]];
        }
      }
      assert g[..|g|] == g && groups[..gi + 1][..gi] == groups[..gi];
      startGroupIdx := gi + 1;
    }
    FirstIncompleteIsUnique(groups, completed.Keys, startGroupIdx);
  }

  lemma {:induction false} FirstIncompleteIsUnique(groups: seq<seq<string>>, done: set<string>, k: nat)
    requires k <= |groups|
    requires forall i :: 0 <= i < k ==> AllDone(groups[i], done)
    requires k < |groups| ==> !AllDone(groups[k], done)
    ensures FirstIncomplete(groups, done) == k
  {
    if k > 0 {
      assert AllDone(groups[0], done);
      assert forall i :: 0 <= i < k - 1 ==> groups[1..][i] == groups[i + 1];
      FirstIncompleteIsUnique(groups[1..], done, k - 1);
    }
  }

  lemma {:induction false} FirstIncompleteIsMonotone(groups: seq<seq<string>>, done: set<string>, more: set<string>)
    requires done <= more
    ensures FirstIncomplete(groups, done) <= FirstIncomplete(groups, more)
  {
    if groups != [] {
      FirstIncompleteIsMonotone(groups[1..], done, more);
    }
  }

  /** After a crash at any point, with any writes lost, late or reordered: the recovered start is at most
      the first incomplete group of the state that was lost, and the outputs handed on are, position by
      position, ones that the tasks of the groups before it had really completed with. */
  lemma RecoveryNeverSkipsWork(r: Run, groups: seq<seq<string>>, upstream: seq<Output>)
    requires var t := End(Then(r, Crash)).live.tasks;
             Holds(NamesOf(groups[..FirstIncomplete(groups, t.completed.Keys)]), t.completed, upstream)
    ensures var s, t := End(r), End(Then(r, Crash)).live.tasks;
            var start := FirstIncomplete(groups, t.completed.Keys);
            var names := NamesOf(groups[..start]);
            && start <= FirstIncomplete(groups, s.live.tasks.completed.Keys)
            && (forall i :: 0 <= i < start ==> AllDone(groups[i], s.live.tasks.completed.Keys))
            && |upstream| == |names|
            && forall k :: 0 <= k < |names| ==> (names[k], upstream[k]) in s.reported
  {
    var s := End(r);
    var t := End(Then(r, Crash)).live.tasks;
    EveryRunKeepsInv(r);
    EveryRunKeepsInv(Then(r, Crash));
    forall n | n in t.completed ensures n in s.live.tasks.completed {
      ReplayOf(FRESH, s.stored, n);
      assert Written(s, Completed(n, t.completed[n]));
    }
    FirstIncompleteIsMonotone(groups, t.completed.Keys, s.live.tasks.completed.Keys);
  }

  /** No write has been lost since the process started. */
  ghost predicate NothingLost(r: Run) {
    match r
    case Start => true
    case Then(before, step) => step.Crash? || (NothingLost(before) && !(step.Lose? && Enabled(End(before), step)))
  }

  lemma {:induction false} EmittedIsOnItsWay(r: Run, d: Delta)
    requires NothingLost(r) && d in End(r).emitted
    ensures d in End(r).stored || InFlight(End(r), d)
  {
    if r.Then? {
      var s, s' := End(r.before), End(r);
      if s' != s && !r.step.Crash? {
        if d in s.emitted {
          EmittedIsOnItsWay(r.before, d);
          StaysOnItsWay(s, r.step, d);
        } else {
          assert d in s'.inFlight[|s.inFlight|];
        }
      } else if !r.step.Crash? {
        EmittedIsOnItsWay(r.before, d);
      }
    }
  }

  lemma StaysOnItsWay(s: State, step: Step, d: Delta)
    requires Enabled(s, step) && !step.Lose? && !step.Crash? && (d in s.stored || InFlight(s, d))
    ensures d in Apply(s, step).stored || InFlight(Apply(s, step), d)
  {
    var s' := Apply(s, step);
    if d !in s'.stored {
      var k :| 0 <= k < |s.inFlight| && d in s.inFlight[k];
      var k' := if step.Land? && step.k < k then k - 1 else k;
      assert s'.inFlight[k'] == s.inFlight[k];
    }
  }

  /** When no completion followed the last snapshot and all its writes landed, in whatever order, the
      recovered start is exactly the first incomplete group, and no completed task is forgotten. */
  lemma RecoveryIsExact(r: Run, groups: seq<seq<string>>)
    requires Settled(r) && NothingLost(r) && End(r).inFlight == []
    ensures var s, t := End(r), End(Then(r, Crash)).live.tasks;
            && t.completed.Keys == s.live.tasks.completed.Keys
            && FirstIncomplete(groups, t.completed.Keys) == FirstIncomplete(groups, s.live.tasks.completed.Keys)
  {
    var s := End(r);
    var t := End(Then(r, Crash)).live.tasks;
    EveryRunKeepsInv(r);
    forall n ensures n in t.completed <==> n in s.live.tasks.completed {
      ReplayOf(FRESH, s.stored, n);
      ReplayOf(FRESH, s.emitted, n);
      if n in t.completed {
        assert Written(s, Completed(n, t.completed[n]));
      }
      if n in s.live.tasks.completed {
        SettledCompletes(r, n);
        var d := Completed(n, Replay(FRESH, s.emitted).completed[n]);
        EmittedIsOnItsWay(r, d);
        assert d in s.stored;
      }
    }
  }

  /** What a crash makes of a task, after every run: its events are dropped from then on if and only if a
      completion or a failure of it had reached the database, whether or not that failure still stood. */
  lemma AfterCrash(r: Run, n: string)
    ensures var s, c := End(r), End(Then(r, Crash));
            && (Dropped(c.live, c.recovered, n) <==> Completes(s.stored, n) || Fails(s.stored, n))
            && (n in c.live.tasks.completed <==> Completes(s.stored, n))
            && (n in c.live.tasks.failed <==> Fails(s.stored, n))
  {
    ReplayOf(FRESH, End(r).stored, n);
  }

  /** So a failure whose retry had already gone out comes back with the replay, and the guard then drops
      the retry's completion: after the crash it is not recorded, whatever its output. */
  lemma ClearedFailureReturns(n: string, result: string, output: Output)
    ensures var r := Then(Then(Then(Then(Then(Start, Fail(n, result)), TakeSnapshot([Failed(n, result)])), Land(0)),
                               ClearFailed(n)), Crash);
            && n !in End(r.before).live.tasks.failed
            && n in End(r).live.tasks.failed
            && End(Then(r, Complete(n, output))) == End(r)
  {
    var r1 := Then(Start, Fail(n, result));
    var s1 := End(r1);
    assert End(Start).live == Live(FRESH, 0, map[]);
    assert s1.live == Live(Tasks(map[], map[][n := result], {}), 0, map[]);
    OneFailure(n, result);
    var ds := [Failed(n, result)];
    var s2 := End(Then(r1, TakeSnapshot(ds)));
    assert s2 == Apply(s1, TakeSnapshot(ds));
    assert s2.inFlight == [] + [ds] == [ds];
    var r3 := Then(Then(r1, TakeSnapshot(ds)), Land(0));
    assert End(r3) == Apply(s2, Land(0));
    assert End(r3).stored == [] + ds == ds;
    var r4 := Then(r3, ClearFailed(n));
    assert End(r4) == Apply(End(r3), ClearFailed(n));
    assert End(Then(r4, Crash)) == Apply(End(r4), Crash);
    ReplayOf(FRESH, ds, n);
    assert ds[0] in ds && Fails(ds, n);
  }
}
