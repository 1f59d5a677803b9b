/** Group sequencing: groups run one after another; a group's outputs may pause the workflow, enter a
    branch (which never returns), or skip ahead; a group with a loop node repeats its body. What the
    tasks answer is an arbitrary World. Sub-workflow and fan-out nodes are not part of this model. */
module Execution {
  import opened Options
  import opened Sequences

  // ---------------------------------------------------------------- workflow definitions

  datatype Condition = Always | Key | OtherCondition

  datatype Loop = NoLoop | LoopDef(maxIterations: int, condition: Condition, conditionKey: string)

  datatype Branches = NoBranches | BranchDef(list: seq<Branch>)

  datatype Branch = Branch(name: string, groups: seq<Group>)

  datatype TaskNode = TaskNode(name: string, branches: Branches, defaultBranch: string, loop: Loop)

  datatype Group = Group(nodes: seq<TaskNode>)

  /** Map lookup in a branch definition. */
  function Lookup(list: seq<Branch>, name: string): Option<seq<Group>> {
    if list == [] then None
    else if list[0].name == name then Some(list[0].groups)
    else Lookup(list[1..], name)
  }

  /** findTaskNodeWithBranches: the first node of the group that defines branches. */
  function BranchingNode(nodes: seq<TaskNode>): Option<TaskNode> {
    if nodes == [] then None
    else if nodes[0].branches.BranchDef? then Some(nodes[0])
    else BranchingNode(nodes[1..])
  }

  /** The first loop definition in the group, if any. */
  function LoopOf(nodes: seq<TaskNode>): Loop {
    if nodes == [] then NoLoop
    else if nodes[0].loop.LoopDef? then nodes[0].loop
    else LoopOf(nodes[1..])
  }

  /** A name leads to the first branch that bears it, and to none only when no branch does. */
  lemma {:induction false} LookupIsFirst(list: seq<Branch>, name: string) returns (k: nat)
    ensures k <= |list| && forall j :: 0 <= j < k ==> list[j].name != name
    ensures Lookup(list, name).Some? <==> k < |list|
    ensures k < |list| ==> list[k] == Branch(name, Lookup(list, name).value)
  {
    if list == [] {
      k := 0;
    } else if list[0].name == name {
      k := 0;
      assert list[0] == Branch(name, list[0].groups);
    } else {
      var m := LookupIsFirst(list[1..], name);
      k := m + 1;
    }
  }

  /** The branching node is the first node with branches, and missing only when no node has any. */
  lemma {:induction false} BranchingNodeIsFirst(nodes: seq<TaskNode>) returns (k: nat)
    ensures k <= |nodes| && forall j :: 0 <= j < k ==> nodes[j].branches.NoBranches?
    ensures k < |nodes| ==> nodes[k].branches.BranchDef?
    ensures BranchingNode(nodes) == if k < |nodes| then Some(nodes[k]) else None
  {
    if nodes == [] || nodes[0].branches.BranchDef? {
      k := 0;
    } else {
      var m := BranchingNodeIsFirst(nodes[1..]);
      k := m + 1;
    }
  }

  /** A group is looped if and only if one of its nodes is a loop; the first of them says how. */
  lemma {:induction false} LoopIsFirst(nodes: seq<TaskNode>) returns (k: nat)
    ensures k <= |nodes| && forall j :: 0 <= j < k ==> nodes[j].loop.NoLoop?
    ensures k < |nodes| ==> nodes[k].loop.LoopDef?
    ensures LoopOf(nodes) == if k < |nodes| then nodes[k].loop else NoLoop
  {
    if nodes == [] || nodes[0].loop.LoopDef? {
      k := 0;
    } else {
      var m := LoopIsFirst(nodes[1..]);
      k := m + 1;
    }
  }

  // ---------------------------------------------------------------- the size of a tree

  /** The number of groups in a forest of groups, with those of all branches. */
  ghost function Weight(groups: seq<Group>): nat
    decreases groups
  {
    if groups == [] then 0 else 1 + NodesWeight(groups[0].nodes) + Weight(groups[1..])
  }

  ghost function NodesWeight(nodes: seq<TaskNode>): nat
    decreases nodes
  {
    if nodes == [] then 0
    else (if nodes[0].branches.BranchDef? then BranchesWeight(nodes[0].branches.list) else 0) + NodesWeight(nodes[1..])
  }

  ghost function BranchesWeight(list: seq<Branch>): nat
    decreases list
  {
    if list == [] then 0 else Weight(list[0].groups) + BranchesWeight(list[1..])
  }

  lemma {:induction false} BranchIsLighter(list: seq<Branch>, name: string)
    requires Lookup(list, name).Some?
    ensures Weight(Lookup(list, name).value) <= BranchesWeight(list)
  {
    if list[0].name != name {
      BranchIsLighter(list[1..], name);
    }
  }

  lemma {:induction false} NodeIsLighter(nodes: seq<TaskNode>)
    requires BranchingNode(nodes).Some?
    ensures var n := BranchingNode(nodes).value;
            n.branches.BranchDef? && BranchesWeight(n.branches.list) <= NodesWeight(nodes)
  {
    if !nodes[0].branches.BranchDef? {
      NodeIsLighter(nodes[1..]);
    }
  }

  lemma {:induction false} SuffixIsLighter(groups: seq<Group>, i: nat, j: nat)
    requires i <= j <= |groups|
    ensures Weight(groups[j..]) + (j - i) <= Weight(groups[i..])
    decreases j - i
  {
    if i < j {
      SuffixIsLighter(groups, i + 1, j);
      assert groups[i..][1..] == groups[i + 1..];
    }
  }

  // ---------------------------------------------------------------- task outputs and control flags

  datatype Value = Str(s: string) | Int(i: int) | Float(r: real) | Bool(b: bool) | Other

  type Output = map<string, Value>

  const SKIP_GROUPS_KEY := "__vibeflow_skip_groups"
  const BRANCH_KEY := "__vibeflow_branch"
  const APPROVAL_KEY := "__vibeflow_approval"
  const LOOP_CONTINUE_KEY := "__vibeflow_loop_continue"

  /** The text under a key; a missing key and a value of another type read as no text. */
  function GetString(o: Output, key: string): (s: string)
    ensures s != "" <==> key in o && o[key].Str? && o[key].s != ""
    ensures s != "" ==> o[key] == Str(s)
  {
    if key in o && o[key].Str? then o[key].s else ""
  }

  /** The groups to skip: a number is cut off towards zero, and anything else asks for no skip. */
  function GetSkipGroups(o: Output): (n: int)
    ensures n != 0 ==> SKIP_GROUPS_KEY in o && (o[SKIP_GROUPS_KEY].Int? || o[SKIP_GROUPS_KEY].Float?)
    ensures SKIP_GROUPS_KEY in o && o[SKIP_GROUPS_KEY].Int? ==> n == o[SKIP_GROUPS_KEY].i
    ensures SKIP_GROUPS_KEY in o && o[SKIP_GROUPS_KEY].Float? ==>
              var r := o[SKIP_GROUPS_KEY].r;
              && (r >= 0.0 ==> n as real <= r < n as real + 1.0)
              && (r < 0.0 ==> n as real - 1.0 < r <= n as real)
  {
    if SKIP_GROUPS_KEY !in o then 0
    else match o[SKIP_GROUPS_KEY]
         case Float(r) => if r >= 0.0 then r.Floor else -((-r).Floor)
         case Int(i) => i
         case _ => 0
  }

  // ---------------------------------------------------------------- one group in parallel

  datatype TaskResult = Done(output: Output) | DoneSilently | Errored(message: string)

  datatype GroupResult = Outputs(outputs: seq<Output>) | GroupFailed(message: string)

  /** What a group amounts to: the first error that arrived, or all outputs in order of arrival. */
  function Collected(results: seq<TaskResult>): GroupResult {
    if results == [] then Outputs([])
    else
      var last := results[|results| - 1];
      match Collected(results[..|results| - 1])
      case GroupFailed(m) => GroupFailed(m)
      case Outputs(os) =>
        match last
        case Done(o) => Outputs(os + [o])
        case DoneSilently => Outputs(os)
        case Errored(m) => GroupFailed(m)
  }

  /** Results are collected piecewise: an error of the first piece is the one kept, and otherwise the
      outputs follow each other in order of arrival; a single result amounts to its output, to nothing, or
      to its error. */
  lemma {:induction false} CollectedPiecewise(a: seq<TaskResult>, b: seq<TaskResult>)
    ensures Collected(a + b) == match (Collected(a), Collected(b))
                                case (GroupFailed(m), _) => GroupFailed(m)
                                case (_, GroupFailed(m)) => GroupFailed(m)
                                case (Outputs(x), Outputs(y)) => Outputs(x + y)
    ensures forall o :: Collected([Done(o)]) == Outputs([o])
    ensures Collected([DoneSilently]) == Outputs([])
    ensures forall m :: Collected([Errored(m)]) == GroupFailed(m)
  {
    if b == [] {
      assert a + b == a;
      forall o ensures Collected([Done(o)]) == Outputs([o]) {
        assert [Done(o)][..0] == [] && [] + [o] == [o];
      }
    } else {
      var b' := b[..|b| - 1];
      CollectedPiecewise(a, b');
      assert (a + b)[..|a + b| - 1] == a + b';
      assert (a + b)[|a + b| - 1] == b[|b| - 1];
      if Collected(a).Outputs? && Collected(b').Outputs? && b[|b| - 1].Done? {
        var o := b[|b| - 1].output;
        assert Collected(a).outputs + (Collected(b').outputs + [o]) == (Collected(a).outputs + Collected(b').outputs) + [o];
      }
    }
  }

  /** The collecting loop of ExecuteWithOptions under the all-must-succeed strategy. */
  method CollectResults(results: seq<TaskResult>) returns (r: GroupResult)
    ensures r == Collected(results)
    ensures r.Outputs? <==> forall k :: 0 <= k < |results| ==> !results[k].Errored?
    ensures r.GroupFailed? ==> exists k :: 0 <= k < |results| && results[k] == Errored(r.message)
                                         && forall j :: 0 <= j < k ==> !results[j].Errored?
  {
    var allOutputs: seq<Output> := [];
    var firstErr: Option<string> := None;
    var successCount, failedCount := 0, 0;
    for i := 0 to |results|
      invariant successCount + failedCount == i && 0 <= successCount && 0 <= failedCount
      invariant firstErr.Some? <==> failedCount > 0
      invariant firstErr.Some? ==> exists k :: 0 <= k < i && results[k] == Errored(firstErr.value)
                                             && forall j :: 0 <= j < k ==> !results[j].Errored?
      invariant failedCount == 0 <==> forall k :: 0 <= k < i ==> !results[k].Errored?
      invariant Collected(results[..i]) == if firstErr.Some? then GroupFailed(firstErr.value) else Outputs(allOutputs)
    {
      assert results[..i + 1][..i] == results[..i];
      match results[i] {
        case Errored(m) =>
          failedCount := failedCount + 1;
          if firstErr.None? {
            firstErr := Some(m);
          }
        case Done(o) =>
          successCount := successCount + 1;
          allOutputs := allOutputs + [o];
        case DoneSilently =>
          successCount := successCount + 1;
      }
    }
    assert results[..|results|] == results;
    if successCount >= |results| {
      r := Outputs(allOutputs);
    } else {
      r := GroupFailed(firstErr.value);
    }
  }

  /** What the tasks of the t-th group run answer, in order of arrival. */
  type World = nat -> seq<TaskResult>

  /** A group without tasks completes at once, without outputs. */
  function RunGroup(w: World, g: Group, t: nat): (r: GroupResult)
    ensures g.nodes == [] ==> r == Outputs([])
  {
    if g.nodes == [] then Outputs([]) else Collected(w(t))
  }

  // ---------------------------------------------------------------- loops

  function ShouldContinue(last: Option<Output>, loop: Loop, iteration: int): bool
    requires loop.LoopDef?
  {
    if iteration >= loop.maxIterations then false
    else if loop.condition != Key then true
    else if loop.conditionKey == "" || last.None? then true
    else if loop.conditionKey in last.value && last.value[loop.conditionKey].Bool? then last.value[loop.conditionKey].b
    else if LOOP_CONTINUE_KEY in last.value && last.value[LOOP_CONTINUE_KEY].Bool? then last.value[LOOP_CONTINUE_KEY].b
    else true
  }

  /** A finished loop: its result and the number of times its body ran. */
  datatype LoopRun = LoopRun(result: GroupResult, rounds: nat)

  function LastOf(os: seq<Output>): Option<Output> {
    if os == [] then None else Some(os[|os| - 1])
  }

  /** The loop from a given iteration on; outputs accumulate behind what was passed in. */
  function LoopFrom(w: World, g: Group, loop: Loop, current: seq<Output>, iteration: nat, t: nat): (r: LoopRun)
    requires loop.LoopDef?
    ensures r.rounds <= if loop.maxIterations <= iteration then 0 else loop.maxIterations - iteration
    ensures iteration < loop.maxIterations ==> r.rounds > 0
    ensures r.result.Outputs? ==> current <= r.result.outputs
    decreases loop.maxIterations - iteration
  {
    if iteration >= loop.maxIterations then LoopRun(Outputs(current), 0)
    else
      match RunGroup(w, g, t)
      case GroupFailed(m) => LoopRun(GroupFailed(m), 1)
      case Outputs(os) =>
        if !ShouldContinue(LastOf(os), loop, iteration + 1) then LoopRun(Outputs(current + os), 1)
        else
          var rest := LoopFrom(w, g, loop, current + os, iteration + 1, t + 1);
          LoopRun(rest.result, rest.rounds + 1)
  }

  /** This round of the body succeeds and asks to stop: the loop looks at a key, and the last output holds
      false under it, or holds no boolean there and false under the general key. */
  ghost predicate RoundStops(w: World, g: Group, loop: Loop, t: nat)
    requires loop.LoopDef?
  {
    && RunGroup(w, g, t).Outputs? && RunGroup(w, g, t).outputs != []
    && loop.condition == Key && loop.conditionKey != ""
    && var o := RunGroup(w, g, t).outputs[|RunGroup(w, g, t).outputs| - 1];
       if loop.conditionKey in o && o[loop.conditionKey].Bool? then o[loop.conditionKey] == Bool(false)
       else LOOP_CONTINUE_KEY in o && o[LOOP_CONTINUE_KEY] == Bool(false)
  }

  /** The body succeeds whenever it runs from clock t to before clock u. */
  ghost predicate Succeeds(w: World, g: Group, t: nat, u: nat) {
    forall c: nat :: t <= c < u ==> RunGroup(w, g, c).Outputs?
  }

  /** The outputs of the rounds from clock t to before clock u, in order. */
  ghost function RoundOutputs(w: World, g: Group, t: nat, u: nat): seq<Output>
    requires t <= u && Succeeds(w, g, t, u)
    decreases u - t
  {
    if t == u then [] else RunGroup(w, g, t).outputs + RoundOutputs(w, g, t + 1, u)
  }

  /** A loop ends with the first of its rounds that fails or asks to stop, and otherwise with the last of
      the maximum; it fails exactly when that round failed, with its error, and otherwise hands on the
      upstream outputs and those of all its rounds, in order. */
  lemma {:induction false} LoopEndsAtFirstStop(w: World, g: Group, loop: Loop, current: seq<Output>, iteration: nat, t: nat)
    requires loop.LoopDef? && iteration < loop.maxIterations
    ensures var r := LoopFrom(w, g, loop, current, iteration, t);
            0 < r.rounds <= loop.maxIterations - iteration &&
            var last := t + r.rounds - 1;
            && (forall c: nat :: t <= c < last ==> RunGroup(w, g, c).Outputs? && !RoundStops(w, g, loop, c))
            && (r.rounds < loop.maxIterations - iteration ==>
                  RunGroup(w, g, last).GroupFailed? || RoundStops(w, g, loop, last))
            && (r.result.GroupFailed? ==> r.result == RunGroup(w, g, last))
            && (r.result.Outputs? ==>
                  && Succeeds(w, g, t, t + r.rounds)
                  && r.result.outputs == current + RoundOutputs(w, g, t, t + r.rounds))
    decreases loop.maxIterations - iteration
  {
    if RunGroup(w, g, t).Outputs? {
      var os := RunGroup(w, g, t).outputs;
      if ShouldContinue(LastOf(os), loop, iteration + 1) {
        LoopEndsAtFirstStop(w, g, loop, current + os, iteration + 1, t + 1);
        var rest := LoopFrom(w, g, loop, current + os, iteration + 1, t + 1);
        if rest.result.Outputs? {
          var later := RoundOutputs(w, g, t + 1, t + 1 + rest.rounds);
          assert (current + os) + later == current + (os + later);
        }
      } else {
        assert RoundOutputs(w, g, t + 1, t + 1) == [] && os + [] == os;
      }
    }
  }

  /** A body that never fails: the loop runs its maximum unless it looks at a key, and then the number of
      rounds is the first one that asks to stop. */
  lemma LoopRoundsIff(w: World, g: Group, loop: Loop, upstream: seq<Output>, t: nat, n: nat)
    requires loop.LoopDef? && loop.maxIterations > 0 && Succeeds(w, g, t, t + loop.maxIterations)
    ensures LoopFrom(w, g, loop, upstream, 0, t).result.Outputs?
    ensures loop.condition != Key || loop.conditionKey == "" ==>
              LoopFrom(w, g, loop, upstream, 0, t).rounds == loop.maxIterations
    ensures LoopFrom(w, g, loop, upstream, 0, t).rounds == n
            <==> 0 < n <= loop.maxIterations
                 && (forall c: nat :: t <= c < t + n - 1 ==> !RoundStops(w, g, loop, c))
                 && (n == loop.maxIterations || RoundStops(w, g, loop, t + n - 1))
  {
    LoopEndsAtFirstStop(w, g, loop, upstream, 0, t);
  }

  /** runLoop: the body is the loop group alone, run until it fails, stops, or has run its maximum. */
  method RunLoop(w: World, g: Group, loop: Loop, upstream: seq<Output>, t: nat) returns (r: LoopRun)
    requires loop.LoopDef?
    ensures r == LoopFrom(w, g, loop, upstream, 0, t)
  {
    var current := upstream;
    var iteration := 0;
    while iteration < loop.maxIterations
      invariant 0 <= iteration
      invariant LoopFrom(w, g, loop, upstream, 0, t)
             == LoopRun(LoopFrom(w, g, loop, current, iteration, t + iteration).result,
                        LoopFrom(w, g, loop, current, iteration, t + iteration).rounds + iteration)
      decreases loop.maxIterations - iteration
    {
      var body := RunGroup(w, g, t + iteration);
      if body.GroupFailed? {
        return LoopRun(GroupFailed(body.message), iteration + 1);
      }
      var last := LastOf(body.outputs);
      current := current + body.outputs;
      iteration := iteration + 1;
      if !ShouldContinue(last, loop, iteration) {
        return LoopRun(Outputs(current), iteration);
      }
    }
    return LoopRun(Outputs(current), iteration);
  }

  // ---------------------------------------------------------------- control flow after a group

  datatype Decision =
    | Pause(output: Output)
    | Enter(branch: string, groups: seq<Group>)
    | SkipTo(group: nat)
    | Finish
    | Next

  /** advanceWorkflow: the outputs are looked at in order; within one output approval comes before
      branching, branching before skipping, and an unknown branch falls through to the skip. */
  function Decide(groups: seq<Group>, idx: nat, outputs: seq<Output>): (d: Decision)
    requires idx < |groups|
    ensures d.SkipTo? ==> idx + 1 < d.group < |groups|
    ensures d.Next? ==> idx + 1 < |groups|
    ensures d.Enter? ==>
              && BranchingNode(groups[idx].nodes).Some?
              && BranchingNode(groups[idx].nodes).value.branches.BranchDef?
              && Lookup(BranchingNode(groups[idx].nodes).value.branches.list, d.branch) == Some(d.groups)
  {
    if outputs == [] then (if idx + 1 >= |groups| then Finish else Next)
    else
      var o := outputs[0];
      if GetString(o, APPROVAL_KEY) != "" then Pause(o)
      else
        var target := BranchTarget(groups[idx].nodes, GetString(o, BRANCH_KEY));
        var skip := GetSkipGroups(o);
        if target.Some? then Enter(target.value.name, target.value.groups)
        else if skip > 0 then (if idx + 1 + skip >= |groups| then Finish else SkipTo(idx + 1 + skip))
        else Decide(groups, idx, outputs[1..])
  }

  /** The branch a requested name leads to: the named one, else the default one. */
  function BranchTarget(nodes: seq<TaskNode>, requested: string): (r: Option<Branch>)
    ensures r.Some? ==>
              && BranchingNode(nodes).Some?
              && BranchingNode(nodes).value.branches.BranchDef?
              && Lookup(BranchingNode(nodes).value.branches.list, r.value.name) == Some(r.value.groups)
  {
    if requested == "" then None
    else
      match BranchingNode(nodes)
      case None => None
      case Some(n) =>
        if n.branches.NoBranches? then None
        else
          match Lookup(n.branches.list, requested)
          case Some(gs) => Some(Branch(requested, gs))
          case None =>
            if n.defaultBranch == "" then None
            else
              match Lookup(n.branches.list, n.defaultBranch)
              case Some(gs) => Some(Branch(n.defaultBranch, gs))
              case None => None
  }

  // ---------------------------------------------------------------- running a workflow

  /** How a run ends. A pause carries the index of the group it stopped at, within its own group list. */
  datatype End = Completed | Paused(group: nat, output: Output) | Failed(group: nat, message: string)

  /** A group's position in the tree: the branches entered on the way, then the index. */
  datatype Hop = Hop(group: nat, branch: string)
  datatype Place = Place(path: seq<Hop>, group: nat)

  datatype Execution = Execution(end: End, trace: seq<Place>, clock: nat)

  /** A point of control: a group list reached by a path, an index in it, and the outputs handed on. */
  datatype Point = Point(path: seq<Hop>, groups: seq<Group>, idx: nat, upstream: seq<Output>)

  /** What follows the group at a point: the run ends there or control moves on; the clock counts group runs. */
  datatype Move = Stop(end: End, clock: nat) | Goto(next: Point, clock: nat)

  ghost function Measure(groups: seq<Group>, idx: nat): nat {
    if idx <= |groups| then Weight(groups[idx..]) else 0
  }

  /** The result of a group, looped or not, and the clock after it. */
  function GroupOrLoop(w: World, g: Group, upstream: seq<Output>, t: nat): (GroupResult, nat) {
    var loop := LoopOf(g.nodes);
    if loop.LoopDef? then
      var run := LoopFrom(w, g, loop, upstream, 0, t);
      (run.result, t + run.rounds)
    else (RunGroup(w, g, t), t + 1)
  }

  /** Execute the group at a point and act on its outputs. Branches and skips hand on the group's own
      outputs, the plain next group gets them appended to what came before. */
  function Advance(w: World, p: Point, t: nat): Move
    requires p.idx < |p.groups|
  {
    var (result, t') := GroupOrLoop(w, p.groups[p.idx], p.upstream, t);
    match result
    case GroupFailed(m) => Stop(Failed(p.idx, m), t')
    case Outputs(os) =>
      match Decide(p.groups, p.idx, os)
      case Pause(o) => Stop(Paused(p.idx, o), t')
      case Finish => Stop(Completed, t')
      case Enter(b, gs) => Goto(Point(p.path + [Hop(p.idx, b)], gs, 0, os), t')
      case SkipTo(n) => Goto(p.(idx := n, upstream := os), t')
      case Next => Goto(p.(idx := p.idx + 1, upstream := p.upstream + os), t')
  }

  /** The groups of the branch a hop takes from a group list. */
  ghost function BranchOf(groups: seq<Group>, h: Hop): Option<seq<Group>> {
    if h.group >= |groups| then None
    else
      match BranchingNode(groups[h.group].nodes)
      case None => None
      case Some(n) => if n.branches.NoBranches? then None else Lookup(n.branches.list, h.branch)
  }

  /** Control stays in its list and moves ahead, or enters a branch of the group just executed. */
  ghost predicate MovesAhead(p: Point, n: Point) {
    && n.path == p.path && n.groups == p.groups && p.idx < n.idx < |p.groups|
  }

  ghost predicate EntersBranch(p: Point, n: Point) {
    && n.idx == 0 && p.idx < |p.groups|
    && |n.path| == |p.path| + 1 && p.path <= n.path
    && n.path[|p.path|].group == p.idx
    && BranchOf(p.groups, n.path[|p.path|]) == Some(n.groups)
    && 1 + Measure(n.groups, 0) + Measure(p.groups, p.idx + 1) <= Measure(p.groups, p.idx)
  }

  lemma AdvanceMoves(w: World, p: Point, t: nat)
    requires p.idx < |p.groups| && Advance(w, p, t).Goto?
    ensures var n := Advance(w, p, t).next;
            && (MovesAhead(p, n) || EntersBranch(p, n))
            && Measure(n.groups, n.idx) < Measure(p.groups, p.idx)
  {
    var (result, t') := GroupOrLoop(w, p.groups[p.idx], p.upstream, t);
    var n := Advance(w, p, t).next;
    var d := Decide(p.groups, p.idx, result.outputs);
    if d.Enter? {
      var node := BranchingNode(p.groups[p.idx].nodes).value;
      BranchIsLighter(node.branches.list, d.branch);
      NodeIsLighter(p.groups[p.idx].nodes);
      assert d.groups[0..] == d.groups;
      assert p.groups[p.idx..][0] == p.groups[p.idx] && p.groups[p.idx..][1..] == p.groups[p.idx + 1..];
    } else {
      SuffixIsLighter(p.groups, p.idx, n.idx);
    }
  }

  /** executeGroups with all it leads to. */
  function ExecuteGroups(w: World, p: Point, t: nat): Execution
    decreases Measure(p.groups, p.idx)
  {
    if p.idx >= |p.groups| then Execution(Completed, [], t)
    else
      match Advance(w, p, t)
      case Stop(end, t') => Execution(end, [Place(p.path, p.idx)], t')
      case Goto(n, t') =>
        AdvanceMoves(w, p, t);
        var rest := ExecuteGroups(w, n, t');
        rest.(trace := [Place(p.path, p.idx)] + rest.trace)
  }

  // ---------------------------------------------------------------- every run terminates, visiting no group twice

  /** The place lies at or after idx in the group list reached by path, or in a branch from there. */
  ghost predicate Under(path: seq<Hop>, idx: nat, q: Place) {
    path <= q.path && (if |q.path| == |path| then idx <= q.group else idx <= q.path[|path|].group)
  }

  /** q is visited strictly after p: further on in the same list, or in a branch p or a later group entered. */
  ghost predicate Later(p: Place, q: Place) {
    p.path <= q.path && (if |q.path| == |p.path| then p.group < q.group else p.group <= q.path[|p.path|].group)
  }

  /** Following the hops from a group list leads to the given list. */
  ghost predicate InTree(groups: seq<Group>, hops: seq<Hop>, target: seq<Group>)
    decreases |hops|
  {
    if hops == [] then target == groups
    else
      match BranchOf(groups, hops[0])
      case None => false
      case Some(list) => InTree(list, hops[1..], target)
  }

  /** The place is the position of a group of the tree below the given list. */
  ghost predicate IsPlace(groups: seq<Group>, hops: seq<Hop>, group: nat) {
    exists list :: InTree(groups, hops, list) && group < |list|
  }

  ghost predicate InOrder(trace: seq<Place>) {
    forall i, j :: 0 <= i < j < |trace| ==> Later(trace[i], trace[j])
  }

  lemma PrependInOrder(here: Place, rest: seq<Place>)
    requires InOrder(rest) && forall q :: q in rest ==> Later(here, q)
    ensures InOrder([here] + rest)
  {
  }

  lemma BelowIsLater(p: Point, n: Point, q: Place)
    requires MovesAhead(p, n) || EntersBranch(p, n)
    requires Under(n.path, n.idx, q) && IsPlace(n.groups, q.path[|n.path|..], q.group)
    ensures Later(Place(p.path, p.idx), q) && Under(p.path, p.idx, q) && IsPlace(p.groups, q.path[|p.path|..], q.group)
  {
    if EntersBranch(p, n) {
      var hops := q.path[|p.path|..];
      assert hops[0] == n.path[|p.path|] && hops[1..] == q.path[|n.path|..];
      var list :| InTree(n.groups, q.path[|n.path|..], list) && q.group < |list|;
      assert InTree(p.groups, hops, list);
    }
  }

  /** Every group executed lies in the tree at or after the starting point; the groups come in strictly
      increasing order, so none runs twice; and there are at most as many as the remaining tree holds. */
  lemma {:induction false} RunVisitsTreeInOrder(w: World, p: Point, t: nat)
    ensures var trace := ExecuteGroups(w, p, t).trace;
            && InOrder(trace)
            && (forall q :: q in trace ==> Under(p.path, p.idx, q) && IsPlace(p.groups, q.path[|p.path|..], q.group))
            && |trace| <= Measure(p.groups, p.idx)
    decreases Measure(p.groups, p.idx)
  {
    if p.idx < |p.groups| {
      var here := Place(p.path, p.idx);
      assert here.path[|p.path|..] == [] && InTree(p.groups, [], p.groups);
      SuffixIsLighter(p.groups, p.idx, p.idx + 1);
      var m := Advance(w, p, t);
      if m.Goto? {
        AdvanceMoves(w, p, t);
        RunVisitsTreeInOrder(w, m.next, m.clock);
        var rest := ExecuteGroups(w, m.next, m.clock).trace;
        forall q | q in rest
          ensures Later(here, q) && Under(p.path, p.idx, q) && IsPlace(p.groups, q.path[|p.path|..], q.group)
        {
          BelowIsLater(p, m.next, q);
        }
        PrependInOrder(here, rest);
      }
    }
  }

  /** No group is executed twice. */
  lemma NoGroupRunsTwice(w: World, p: Point, t: nat)
    ensures NoRepeat(ExecuteGroups(w, p, t).trace)
  {
    RunVisitsTreeInOrder(w, p, t);
    var trace := ExecuteGroups(w, p, t).trace;
    forall i, j | 0 <= i < j < |trace| ensures trace[i] != trace[j] {
      assert Later(trace[i], trace[j]);
    }
  }

  /** A run ends at the last group it executed: a pause or failure carries that group's own index, and
      only an output that asks for approval pauses. */
  lemma {:induction false} RunEndsAtLastPlace(w: World, p: Point, t: nat)
    ensures var x := ExecuteGroups(w, p, t);
            && (x.trace == [] <==> p.idx >= |p.groups|)
            && (x.trace == [] ==> x.end == Completed)
            && (x.trace != [] ==> x.trace[0] == Place(p.path, p.idx))
            && (x.end.Paused? ==> x.end.group == x.trace[|x.trace| - 1].group && GetString(x.end.output, APPROVAL_KEY) != "")
            && (x.end.Failed? ==> x.end.group == x.trace[|x.trace| - 1].group)
    decreases Measure(p.groups, p.idx)
  {
    if p.idx < |p.groups| {
      match Advance(w, p, t)
      case Stop(_, _) =>
        var (result, _) := GroupOrLoop(w, p.groups[p.idx], p.upstream, t);
        if result.Outputs? {
          PauseNeedsApproval(p.groups, p.idx, result.outputs);
        }
      case Goto(n, t') =>
        AdvanceMoves(w, p, t);
        RunEndsAtLastPlace(w, n, t');
    }
  }

  lemma {:induction false} PauseNeedsApproval(groups: seq<Group>, idx: nat, outputs: seq<Output>)
    requires idx < |groups|
    ensures var d := Decide(groups, idx, outputs);
            d.Pause? ==> d.output in outputs && GetString(d.output, APPROVAL_KEY) != ""
  {
    if outputs != [] {
      PauseNeedsApproval(groups, idx, outputs[1..]);
    }
  }

  // ---------------------------------------------------------------- what a loop group decides on

  /** The group acts on this output: it asks for approval, for a branch the group has, or for a skip. */
  ghost predicate Acts(groups: seq<Group>, idx: nat, o: Output)
    requires idx < |groups|
  {
    GetString(o, APPROVAL_KEY) != "" || BranchTarget(groups[idx].nodes, GetString(o, BRANCH_KEY)).Some? || GetSkipGroups(o) > 0
  }

  /** The first outputs that are acted on decide, whatever follows them. */
  lemma {:induction false} FirstActingOutputsDecide(groups: seq<Group>, idx: nat, a: seq<Output>, b: seq<Output>)
    requires idx < |groups|
    ensures Decide(groups, idx, a + b)
         == Decide(groups, idx, if exists o :: o in a && Acts(groups, idx, o) then a else b)
  {
    if a == [] {
      assert a + b == b;
    } else {
      assert (a + b)[1..] == a[1..] + b;
      if Acts(groups, idx, a[0]) {
        assert a[0] in a;
      } else {
        FirstActingOutputsDecide(groups, idx, a[1..], b);
        assert a == [a[0]] + a[1..];
        assert (exists o :: o in a && Acts(groups, idx, o)) <==> exists o :: o in a[1..] && Acts(groups, idx, o);
        if exists o :: o in a && Acts(groups, idx, o) {
          assert Decide(groups, idx, a) == Decide(groups, idx, a[1..]);
        }
      }
    }
  }

  /** The requested branch is entered if the branching node has it, else the default one if there is one. */
  lemma NamedBranchComesFirst(nodes: seq<TaskNode>, requested: string)
    ensures BranchTarget(nodes, requested).Some? ==>
              requested != "" && BranchTarget(nodes, requested).value.name in {requested, BranchingNode(nodes).value.defaultBranch}
    ensures requested != "" && BranchingNode(nodes).Some? && BranchingNode(nodes).value.branches.BranchDef? ==>
              var n := BranchingNode(nodes).value;
              var named, fallback := Lookup(n.branches.list, requested), Lookup(n.branches.list, n.defaultBranch);
              && (named.Some? ==> BranchTarget(nodes, requested) == Some(Branch(requested, named.value)))
              && (named.None? && n.defaultBranch != "" && fallback.Some? ==>
                    BranchTarget(nodes, requested) == Some(Branch(n.defaultBranch, fallback.value)))
              && (named.None? && (n.defaultBranch == "" || fallback.None?) ==> BranchTarget(nodes, requested).None?)
  {
    var k := BranchingNodeIsFirst(nodes);
  }

  /** Output k is the first that the group acts on. */
  ghost predicate ActsFirst(groups: seq<Group>, idx: nat, os: seq<Output>, k: nat)
    requires idx < |groups|
  {
    k < |os| && Acts(groups, idx, os[k]) && forall j :: 0 <= j < k ==> !Acts(groups, idx, os[j])
  }

  /** Until the first output acted on is reached, nothing is decided. */
  lemma {:induction false} DecidesAtFirst(groups: seq<Group>, idx: nat, os: seq<Output>, k: nat)
    requires idx < |groups| && k <= |os| && forall j :: 0 <= j < k ==> !Acts(groups, idx, os[j])
    ensures Decide(groups, idx, os) == Decide(groups, idx, os[k..])
  {
    if k > 0 {
      assert !Acts(groups, idx, os[0]) && os[1..][k - 1..] == os[k..];
      DecidesAtFirst(groups, idx, os[1..], k - 1);
    }
  }

  /** The run goes on at this place, in this group list, with these outputs handed on; behind the end of
      the list there is nothing to go on with and it completes. */
  ghost predicate GoesOnAt(w: World, p: Point, t: nat, next: Point, clock: nat) {
    && p.idx < |p.groups|
    && var x := ExecuteGroups(w, p, t);
       var rest := ExecuteGroups(w, next, clock);
       && x == Execution(rest.end, [Place(p.path, p.idx)] + rest.trace, rest.clock)
       && (next.idx < |next.groups| ==> |x.trace| > 1 && x.trace[1] == Place(next.path, next.idx))
       && (next.idx >= |next.groups| ==> x == Execution(Completed, [Place(p.path, p.idx)], clock))
  }

  lemma OnwardGoesOn(w: World, p: Point, t: nat, next: Point, clock: nat)
    requires p.idx < |p.groups|
    requires Advance(w, p, t) == if next.idx < |next.groups| || next.path != p.path then Goto(next, clock) else Stop(Completed, clock)
    ensures GoesOnAt(w, p, t, next, clock)
  {
    RunEndsAtLastPlace(w, next, clock);
    assert [Place(p.path, p.idx)] + [] == [Place(p.path, p.idx)];
  }

  /** An output that is the first acted on and asks for approval ends the run there, whatever else it asks. */
  lemma ApprovalPauses(w: World, p: Point, t: nat, k: nat)
    requires p.idx < |p.groups|
    requires var r := GroupOrLoop(w, p.groups[p.idx], p.upstream, t).0;
             r.Outputs? && ActsFirst(p.groups, p.idx, r.outputs, k) && GetString(r.outputs[k], APPROVAL_KEY) != ""
    ensures var (r, t') := GroupOrLoop(w, p.groups[p.idx], p.upstream, t);
            ExecuteGroups(w, p, t) == Execution(Paused(p.idx, r.outputs[k]), [Place(p.path, p.idx)], t')
  {
    var os := GroupOrLoop(w, p.groups[p.idx], p.upstream, t).0.outputs;
    DecidesAtFirst(p.groups, p.idx, os, k);
    assert os[k..][0] == os[k];
  }

  /** The first output acted on asks for no approval but for a branch: the run goes on at the first group
      of that branch, with the group's own outputs. */
  lemma BranchIsEntered(w: World, p: Point, t: nat, k: nat)
    requires p.idx < |p.groups|
    requires var r := GroupOrLoop(w, p.groups[p.idx], p.upstream, t).0;
             && r.Outputs? && ActsFirst(p.groups, p.idx, r.outputs, k) && GetString(r.outputs[k], APPROVAL_KEY) == ""
             && BranchTarget(p.groups[p.idx].nodes, GetString(r.outputs[k], BRANCH_KEY)).Some?
    ensures var (r, t') := GroupOrLoop(w, p.groups[p.idx], p.upstream, t);
            var b := BranchTarget(p.groups[p.idx].nodes, GetString(r.outputs[k], BRANCH_KEY)).value;
            GoesOnAt(w, p, t, Point(p.path + [Hop(p.idx, b.name)], b.groups, 0, r.outputs), t')
  {
    var (r, t') := GroupOrLoop(w, p.groups[p.idx], p.upstream, t);
    var os := r.outputs;
    var b := BranchTarget(p.groups[p.idx].nodes, GetString(os[k], BRANCH_KEY)).value;
    DecidesAtFirst(p.groups, p.idx, os, k);
    assert os[k..][0] == os[k];
    assert |p.path + [Hop(p.idx, b.name)]| > |p.path|;
    OnwardGoesOn(w, p, t, Point(p.path + [Hop(p.idx, b.name)], b.groups, 0, os), t');
  }

  /** The number n of groups an output asks to skip; a fraction is cut off. */
  ghost predicate AsksToSkip(o: Output, n: nat) {
    && n > 0 && SKIP_GROUPS_KEY in o
    && (o[SKIP_GROUPS_KEY] == Int(n) || (o[SKIP_GROUPS_KEY].Float? && n as real <= o[SKIP_GROUPS_KEY].r < n as real + 1.0))
  }

  /** The first output acted on asks for neither approval nor a branch but to skip n groups: exactly the
      next n groups of the list are passed over, and the run goes on with the one behind them and the
      group's own outputs, or completes when there is none. */
  lemma SkipPassesOver(w: World, p: Point, t: nat, k: nat, n: nat)
    requires p.idx < |p.groups|
    requires var r := GroupOrLoop(w, p.groups[p.idx], p.upstream, t).0;
             && r.Outputs? && k < |r.outputs| && (forall j :: 0 <= j < k ==> !Acts(p.groups, p.idx, r.outputs[j]))
             && GetString(r.outputs[k], APPROVAL_KEY) == ""
             && BranchTarget(p.groups[p.idx].nodes, GetString(r.outputs[k], BRANCH_KEY)).None?
             && AsksToSkip(r.outputs[k], n)
    ensures var (r, t') := GroupOrLoop(w, p.groups[p.idx], p.upstream, t);
            GoesOnAt(w, p, t, Point(p.path, p.groups, p.idx + 1 + n, r.outputs), t')
    ensures var x := ExecuteGroups(w, p, t);
            if p.idx + 1 + n < |p.groups| then |x.trace| > 1 && x.trace[1] == Place(p.path, p.idx + 1 + n)
            else x.end == Completed && x.trace == [Place(p.path, p.idx)]
  {
    var (r, t') := GroupOrLoop(w, p.groups[p.idx], p.upstream, t);
    var os := r.outputs;
    DecidesAtFirst(p.groups, p.idx, os, k);
    assert os[k..][0] == os[k];
    assert GetSkipGroups(os[k]) == n;
    OnwardGoesOn(w, p, t, Point(p.path, p.groups, p.idx + 1 + n, os), t');
  }

  /** No output is acted on: the run goes on with the next group of the list, and the group's outputs
      join the ones it was given. */
  lemma PlainGroupGoesOn(w: World, p: Point, t: nat)
    requires p.idx < |p.groups|
    requires var r := GroupOrLoop(w, p.groups[p.idx], p.upstream, t).0;
             r.Outputs? && forall j :: 0 <= j < |r.outputs| ==> !Acts(p.groups, p.idx, r.outputs[j])
    ensures var (r, t') := GroupOrLoop(w, p.groups[p.idx], p.upstream, t);
            GoesOnAt(w, p, t, Point(p.path, p.groups, p.idx + 1, p.upstream + r.outputs), t')
  {
    var (r, t') := GroupOrLoop(w, p.groups[p.idx], p.upstream, t);
    DecidesAtFirst(p.groups, p.idx, r.outputs, |r.outputs|);
    OnwardGoesOn(w, p, t, Point(p.path, p.groups, p.idx + 1, p.upstream + r.outputs), t');
  }

  /** A group that fails ends the run at once. */
  lemma FailureEndsRun(w: World, p: Point, t: nat)
    requires p.idx < |p.groups| && GroupOrLoop(w, p.groups[p.idx], p.upstream, t).0.GroupFailed?
    ensures var (r, t') := GroupOrLoop(w, p.groups[p.idx], p.upstream, t);
            ExecuteGroups(w, p, t) == Execution(Failed(p.idx, r.message), [Place(p.path, p.idx)], t')
  {
  }

  /** A loop group hands its upstream outputs on as its own. So a request that was already followed once,
      such as the skip that led to the loop group, is followed again, whatever the loop body answers; only
      when no upstream output is acted on do the body's answers decide. */
  lemma LoopActsOnUpstreamAgain(w: World, p: Point, t: nat) returns (body: seq<Output>)
    requires p.idx < |p.groups| && LoopOf(p.groups[p.idx].nodes).LoopDef?
    requires GroupOrLoop(w, p.groups[p.idx], p.upstream, t).0.Outputs?
    ensures GroupOrLoop(w, p.groups[p.idx], p.upstream, t).0.outputs == p.upstream + body
    ensures Decide(p.groups, p.idx, p.upstream + body)
         == Decide(p.groups, p.idx, if exists o :: o in p.upstream && Acts(p.groups, p.idx, o) then p.upstream else body)
  {
    var os := GroupOrLoop(w, p.groups[p.idx], p.upstream, t).0.outputs;
    body := os[|p.upstream|..];
    assert os == p.upstream + body;
    FirstActingOutputsDecide(p.groups, p.idx, p.upstream, body);
  }

  // ---------------------------------------------------------------- approval

  /** What ApproveWorkflow does with a pause: go on with a main group, complete, or schedule nothing. */
  datatype Approval = Resume(group: nat, upstream: seq<Output>) | Complete | Nothing

  function Clean(o: Output): Output {
    map k | k in o && k != SKIP_GROUPS_KEY && k != BRANCH_KEY && k != APPROVAL_KEY :: o[k]
  }

  /** The stored index is read against the main groups, wherever the pause was. */
  function Approve(main: seq<Group>, pausedGroup: nat, pausedOutput: Output): Approval {
    if pausedGroup < |main| - 1 then Resume(pausedGroup + 1, [Clean(pausedOutput)])
    else if pausedGroup == |main| - 1 then Complete
    else Nothing
  }

  /** The main group a place belongs to. */
  ghost function MainGroup(q: Place): nat {
    if q.path == [] then q.group else q.path[0].group
  }

  ghost predicate AllBelow(trace: seq<Place>, n: nat) {
    forall q :: q in trace ==> MainGroup(q) < n
  }

  /** Execution from main group idx on. */
  function FromMain(w: World, main: seq<Group>, upstream: seq<Output>, idx: nat, t: nat): Execution {
    ExecuteGroups(w, Point([], main, idx, upstream), t)
  }

  /** What approving a pause schedules: it resumes behind every main group the paused run has reached
      exactly when the stored index is below the last main group and not below the main group that
      branched; it completes the workflow exactly at the last main index; and it schedules nothing,
      leaving the workflow running, exactly for an index beyond the main groups. */
  lemma ApprovalMovesForwardIff(w: World, main: seq<Group>, upstream: seq<Output>, idx: nat, t: nat)
    requires FromMain(w, main, upstream, idx, t).end.Paused?
    ensures var x := FromMain(w, main, upstream, idx, t);
            x.trace != [] &&
            var last := x.trace[|x.trace| - 1];
            var a := Approve(main, x.end.group, x.end.output);
            && (a.Resume? && AllBelow(x.trace, a.group)
                <==> x.end.group < |main| - 1 && (last.path == [] || x.end.group >= last.path[0].group))
            && (a.Complete? <==> x.end.group == |main| - 1)
            && (a.Nothing? <==> x.end.group >= |main|)
  {
    var p := Point([], main, idx, upstream);
    var trace := ExecuteGroups(w, p, t).trace;
    assert InOrder(trace) by {
      RunVisitsTreeInOrder(w, p, t);
    }
    RunEndsAtLastPlace(w, p, t);
    LastIsFurthest(trace);
  }

  /** Where a workflow ought to go on after a pause: with the next group of the list that paused, or,
      when that was its last group, nowhere, since no branch is ever left again. */
  datatype Continuation = GoOn(place: Place) | AllDone

  ghost function Due(list: seq<Group>, last: Place): Continuation {
    if last.group + 1 < |list| then GoOn(Place(last.path, last.group + 1)) else AllDone
  }

  /** The approval does what is due. */
  ghost predicate Follows(a: Approval, c: Continuation) {
    match a
    case Resume(n, _) => c == GoOn(Place([], n))
    case Complete => c == AllDone
    case Nothing => false
  }

  /** Approval continues a paused workflow where it paused, or completes it when nothing is left, if and
      only if the pause was in a main group, or in the last group of a branch that is as long as the list
      of main groups. Every other branch pause is continued wrongly. */
  lemma ApprovalContinuesIff(w: World, main: seq<Group>, upstream: seq<Output>, idx: nat, t: nat, list: seq<Group>)
    requires FromMain(w, main, upstream, idx, t).end.Paused?
    requires var x := FromMain(w, main, upstream, idx, t);
             x.trace != [] && InTree(main, x.trace[|x.trace| - 1].path, list)
    ensures var x := FromMain(w, main, upstream, idx, t);
            var last := x.trace[|x.trace| - 1];
            Follows(Approve(main, x.end.group, x.end.output), Due(list, last))
            <==> last.path == [] || last.group + 1 == |list| == |main|
  {
    var x := FromMain(w, main, upstream, idx, t);
    var last := x.trace[|x.trace| - 1];
    assert x.end.group == last.group by {
      RunEndsAtLastPlace(w, Point([], main, idx, upstream), t);
    }
    LastIsPlace(w, main, upstream, idx, t);
    var list' :| InTree(main, last.path, list') && last.group < |list'|;
    TreeIsAFunction(main, last.path, list, list');
    ContinuesIff(main, list, last, x.end.output);
  }

  lemma LastIsPlace(w: World, main: seq<Group>, upstream: seq<Output>, idx: nat, t: nat)
    requires FromMain(w, main, upstream, idx, t).trace != []
    ensures var trace := FromMain(w, main, upstream, idx, t).trace;
            IsPlace(main, trace[|trace| - 1].path, trace[|trace| - 1].group)
  {
    var trace := FromMain(w, main, upstream, idx, t).trace;
    RunVisitsTreeInOrder(w, Point([], main, idx, upstream), t);
    assert trace[|trace| - 1] in trace && trace[|trace| - 1].path[0..] == trace[|trace| - 1].path;
  }

  lemma ContinuesIff(main: seq<Group>, list: seq<Group>, last: Place, output: Output)
    requires InTree(main, last.path, list) && last.group < |list|
    ensures Follows(Approve(main, last.group, output), Due(list, last))
            <==> last.path == [] || last.group + 1 == |list| == |main|
  {
  }

  lemma {:induction false} TreeIsAFunction(groups: seq<Group>, hops: seq<Hop>, a: seq<Group>, b: seq<Group>)
    requires InTree(groups, hops, a) && InTree(groups, hops, b)
    ensures a == b
    decreases |hops|
  {
    if hops != [] {
      TreeIsAFunction(BranchOf(groups, hops[0]).value, hops[1..], a, b);
    }
  }

  lemma LastIsFurthest(trace: seq<Place>)
    requires InOrder(trace) && trace != []
    ensures trace[|trace| - 1] in trace
    ensures forall q :: q in trace ==> MainGroup(q) <= MainGroup(trace[|trace| - 1])
  {
    forall q | q in trace ensures MainGroup(q) <= MainGroup(trace[|trace| - 1]) {
      var k :| 0 <= k < |trace| && trace[k] == q;
      if k < |trace| - 1 {
        assert Later(q, trace[|trace| - 1]);
      }
    }
  }

  /** The run has paused, and in a main group. */
  ghost predicate PausedInMain(x: Execution) {
    x.end.Paused? && x.trace != [] && x.trace[|x.trace| - 1].path == []
  }

  lemma MainPauseIsInMain(w: World, main: seq<Group>, upstream: seq<Output>, idx: nat, t: nat)
    requires PausedInMain(FromMain(w, main, upstream, idx, t))
    ensures idx <= FromMain(w, main, upstream, idx, t).end.group < |main|
  {
    var p := Point([], main, idx, upstream);
    RunVisitsTreeInOrder(w, p, t);
    RunEndsAtLastPlace(w, p, t);
    var trace := ExecuteGroups(w, p, t).trace;
    assert trace[|trace| - 1] in trace;
  }

  lemma MainPauseIsLast(w: World, main: seq<Group>, upstream: seq<Output>, idx: nat, t: nat)
    requires PausedInMain(FromMain(w, main, upstream, idx, t))
    ensures AllBelow(FromMain(w, main, upstream, idx, t).trace, FromMain(w, main, upstream, idx, t).end.group + 1)
  {
    var p := Point([], main, idx, upstream);
    var x := ExecuteGroups(w, p, t);
    assert InOrder(x.trace) by {
      RunVisitsTreeInOrder(w, p, t);
    }
    assert x.end.group == MainGroup(x.trace[|x.trace| - 1]) by {
      RunEndsAtLastPlace(w, p, t);
    }
    LastIsFurthest(x.trace);
  }

  /** A pause in main group i is resumed at exactly group i + 1, or completes the workflow when i is the
      last group; the output handed on has lost the three control keys and nothing else. */
  lemma MainPauseResumesAtNextGroup(w: World, main: seq<Group>, upstream: seq<Output>, idx: nat, t: nat)
    requires PausedInMain(FromMain(w, main, upstream, idx, t))
    ensures var x := FromMain(w, main, upstream, idx, t);
            var i := x.trace[|x.trace| - 1].group;
            var cleaned := Clean(x.end.output);
            && i < |main|
            && Approve(main, x.end.group, x.end.output)
               == (if i + 1 == |main| then Complete else Resume(i + 1, [cleaned]))
            && cleaned.Keys == x.end.output.Keys - {SKIP_GROUPS_KEY, BRANCH_KEY, APPROVAL_KEY}
            && (forall k :: k in cleaned ==> cleaned[k] == x.end.output[k])
  {
    MainPauseIsInMain(w, main, upstream, idx, t);
    RunEndsAtLastPlace(w, Point([], main, idx, upstream), t);
  }

  /** The whole life of a workflow whose every main-group pause is approved. It stops for good when it
      completes or fails, or when it pauses inside a branch. */
  ghost function Lifetime(w: World, main: seq<Group>, upstream: seq<Output>, idx: nat, t: nat): Execution
    decreases |main| - idx
  {
    var x := FromMain(w, main, upstream, idx, t);
    if PausedInMain(x) then
      MainPauseIsInMain(w, main, upstream, idx, t);
      match Approve(main, x.end.group, x.end.output)
      case Resume(n, up) =>
        var rest := Lifetime(w, main, up, n, x.clock);
        rest.(trace := x.trace + rest.trace)
      case _ => x.(end := Completed)
    else x
  }

  /** The places lie in the tree, at or after main group idx, without repetition and within its size. */
  ghost predicate Visits(main: seq<Group>, idx: nat, trace: seq<Place>) {
    && NoRepeat(trace)
    && (forall q :: q in trace ==> idx <= MainGroup(q) && IsPlace(main, q.path, q.group))
    && |trace| <= Measure(main, idx)
  }

  lemma JoinVisits(main: seq<Group>, idx: nat, n: nat, a: seq<Place>, b: seq<Place>)
    requires Visits(main, idx, a) && Visits(main, n, b) && idx <= n
    requires AllBelow(a, n) && |a| + Measure(main, n) <= Measure(main, idx)
    ensures Visits(main, idx, a + b)
  {
    forall i, j | 0 <= i < j < |a + b| ensures (a + b)[i] != (a + b)[j] {
      if i < |a| <= j {
        assert a[i] in a && b[j - |a|] in b;
      }
    }
  }

  /** One round, in the terms of the main groups. */
  lemma RoundVisits(w: World, main: seq<Group>, upstream: seq<Output>, idx: nat, t: nat)
    ensures Visits(main, idx, FromMain(w, main, upstream, idx, t).trace)
  {
    var p := Point([], main, idx, upstream);
    RunVisitsTreeInOrder(w, p, t);
    NoGroupRunsTwice(w, p, t);
    var trace := ExecuteGroups(w, p, t).trace;
    forall q | q in trace ensures idx <= MainGroup(q) && IsPlace(main, q.path, q.group) {
      assert q.path[0..] == q.path;
    }
  }

  /** Across any number of approved pauses no group of the tree runs twice, every group lies in the tree,
      at most as many groups run as the tree holds, and the life ends completed, failed, or in a branch. */
  lemma {:induction false} LifetimeVisitsTreeOnce(w: World, main: seq<Group>, upstream: seq<Output>, idx: nat, t: nat)
    ensures var x := Lifetime(w, main, upstream, idx, t);
            && Visits(main, idx, x.trace)
            && (x.trace == [] <==> idx >= |main|)
            && !PausedInMain(x)
    decreases |main| - idx
  {
    var x := FromMain(w, main, upstream, idx, t);
    RunEndsAtLastPlace(w, Point([], main, idx, upstream), t);
    RoundVisits(w, main, upstream, idx, t);
    if PausedInMain(x) {
      MainPauseIsInMain(w, main, upstream, idx, t);
      var a := Approve(main, x.end.group, x.end.output);
      if a.Resume? {
        var rest := Lifetime(w, main, a.upstream, a.group, x.clock);
        LifetimeVisitsTreeOnce(w, main, a.upstream, a.group, x.clock);
        assert Visits(main, idx, x.trace + rest.trace) by {
          MainPauseIsLast(w, main, upstream, idx, t);
          RunFitsBefore(w, Point([], main, idx, upstream), t, a.group);
          JoinVisits(main, idx, a.group, x.trace, rest.trace);
        }
      }
    }
  }

  /** A run of main groups that stays below main group n executes at most what the tree holds before n. */
  lemma {:induction false} RunFitsBefore(w: World, p: Point, t: nat, n: nat)
    requires p.path == [] && p.idx <= n <= |p.groups|
    requires AllBelow(ExecuteGroups(w, p, t).trace, n)
    ensures |ExecuteGroups(w, p, t).trace| + Measure(p.groups, n) <= Measure(p.groups, p.idx)
    decreases Measure(p.groups, p.idx)
  {
    if p.idx < |p.groups| {
      RunEndsAtLastPlace(w, p, t);
      var trace := ExecuteGroups(w, p, t).trace;
      assert trace[0] in trace;
      SuffixIsLighter(p.groups, p.idx + 1, n);
      SuffixIsLighter(p.groups, p.idx, p.idx + 1);
      var m := Advance(w, p, t);
      if m.Goto? {
        AdvanceMoves(w, p, t);
        var rest := ExecuteGroups(w, m.next, m.clock).trace;
        RestIsBelow(Place(p.path, p.idx), rest, n);
        if MovesAhead(p, m.next) {
          RunEndsAtLastPlace(w, m.next, m.clock);
          assert rest[0] in rest;
          RunFitsBefore(w, m.next, m.clock, n);
          SuffixIsLighter(p.groups, p.idx, m.next.idx);
        } else {
          RunVisitsTreeInOrder(w, m.next, m.clock);
        }
      }
    }
  }

  lemma RestIsBelow(here: Place, rest: seq<Place>, n: nat)
    requires AllBelow([here] + rest, n)
    ensures AllBelow(rest, n)
  {
    forall q | q in rest ensures MainGroup(q) < n {
      assert q in [here] + rest;
    }
  }

  // ---------------------------------------------------------------- a pause inside a branch can repeat for ever

  /** The second of two main groups branches, and the branch asks for approval. */
  function Looping(): seq<Group> {
    var asks := TaskNode("ask", NoBranches, "", NoLoop);
    var forks := TaskNode("fork", BranchDef([Branch("b", [Group([asks])])]), "", NoLoop);
    [Group([TaskNode("first", NoBranches, "", NoLoop)]), Group([forks])]
  }

  const QUESTION: Output := map[APPROVAL_KEY := Str("?")]

  /** Odd answers choose the branch, even ones ask for approval. */
  function Questions(): World {
    (t: nat) => if t % 2 == 1 then [Done(map[BRANCH_KEY := Str("b")])] else [Done(QUESTION)]
  }

  lemma OneAnswer(o: Output)
    ensures Collected([Done(o)]) == Outputs([o])
  {
    assert [Done(o)][..0] == [] && [] + [o] == [o];
  }

  /** The n-th round of a workflow whose pauses are all approved, wherever they are; it stays what it is
      once an approval schedules nothing more. */
  ghost function Round(w: World, main: seq<Group>, upstream: seq<Output>, idx: nat, t: nat, n: nat): Execution {
    if n == 0 then FromMain(w, main, upstream, idx, t)
    else
      var x := Round(w, main, upstream, idx, t, n - 1);
      if x.end.Paused? && Approve(main, x.end.group, x.end.output).Resume? then
        var a := Approve(main, x.end.group, x.end.output);
        FromMain(w, main, a.upstream, a.group, x.clock)
      else x
  }

  /** The round that runs the main group that branches and the first group of the branch, and asks. */
  ghost function Asking(clock: nat): Execution {
    Execution(Paused(0, QUESTION), [Place([], 1), Place([Hop(1, "b")], 0)], clock)
  }

  /** Resumed at main group 1 on an odd clock, the workflow asks once more. */
  ghost predicate AsksAgain(w: World, main: seq<Group>) {
    forall upstream, t: nat :: t % 2 == 1 ==> FromMain(w, main, upstream, 1, t) == Asking(t + 2)
  }

  lemma {:induction false} RoundsAsk(w: World, main: seq<Group>, upstream: seq<Output>, t: nat, n: nat)
    requires AsksAgain(w, main) && |main| == 2 && t % 2 == 1
    ensures Round(w, main, upstream, 1, t, n) == Asking(t + 2 * n + 2)
  {
    if n == 0 {
      AskedFirst(w, main, upstream, t);
    } else {
      RoundsAsk(w, main, upstream, t, n - 1);
      AskedAgain(w, main, upstream, t, n, t + 2 * n);
    }
  }

  lemma AskedFirst(w: World, main: seq<Group>, upstream: seq<Output>, t: nat)
    requires AsksAgain(w, main) && t % 2 == 1
    ensures Round(w, main, upstream, 1, t, 0) == Asking(t + 2)
  {
    assert FromMain(w, main, upstream, 1, t) == Asking(t + 2);
  }

  lemma AskedAgain(w: World, main: seq<Group>, upstream: seq<Output>, t: nat, n: nat, clock: nat)
    requires AsksAgain(w, main) && |main| == 2 && clock % 2 == 1 && n > 0
    requires Round(w, main, upstream, 1, t, n - 1) == Asking(clock)
    ensures Round(w, main, upstream, 1, t, n) == Asking(clock + 2)
  {
    var a := Approve(main, 0, QUESTION);
    assert a.Resume? && a.group == 1;
    assert FromMain(w, main, a.upstream, 1, clock) == Asking(clock + 2);
  }

  /** No number of approvals ends this workflow: every round runs the main group that branched and the
      first group of the branch, and pauses there again. */
  lemma BranchPauseRepeats(upstream: seq<Output>, t: nat, n: nat)
    requires t % 2 == 1
    ensures var x := Round(Questions(), Looping(), upstream, 1, t, n);
            && x == Asking(t + 2 * n + 2)
            && Approve(Looping(), x.end.group, x.end.output) == Resume(1, [Clean(QUESTION)])
  {
    forall up, u: nat | u % 2 == 1 ensures FromMain(Questions(), Looping(), up, 1, u) == Asking(u + 2) {
      OneLap(up, u);
    }
    RoundsAsk(Questions(), Looping(), upstream, t, n);
  }

  lemma OneLap(upstream: seq<Output>, t: nat)
    requires t % 2 == 1
    ensures var x := FromMain(Questions(), Looping(), upstream, 1, t);
            && x == Asking(t + 2)
            && Approve(Looping(), x.end.group, x.end.output) == Resume(1, [Clean(QUESTION)])
  {
    var w := Questions();
    var main := Looping();
    var chosen: Output := map[BRANCH_KEY := Str("b")];
    OneAnswer(chosen);
    OneAnswer(QUESTION);
    assert RunGroup(w, main[1], t) == Outputs([chosen]);
    var branch := main[1].nodes[0].branches.list[0].groups;
    assert Decide(main, 1, [chosen]) == Enter("b", branch);
    var inside := Point([] + [Hop(1, "b")], branch, 0, [chosen]);
    assert Advance(w, Point([], main, 1, upstream), t) == Goto(inside, t + 1);
    assert RunGroup(w, branch[0], t + 1) == Outputs([QUESTION]);
    assert Decide(branch, 0, [QUESTION]) == Pause(QUESTION);
    assert Advance(w, inside, t + 1) == Stop(Paused(0, QUESTION), t + 2);
    assert [] + [Hop(1, "b")] == [Hop(1, "b")];
    assert ExecuteGroups(w, inside, t + 1) == Execution(Paused(0, QUESTION), [Place([Hop(1, "b")], 0)], t + 2);
    assert [Place([], 1)] + [Place([Hop(1, "b")], 0)] == [Place([], 1), Place([Hop(1, "b")], 0)];
  }

  // ---------------------------------------------------------------- a pause inside a branch can strand a workflow

  /** A single main group that branches into two groups, the second of which asks for approval. */
  function Stranding(): seq<Group> {
    var step := TaskNode("step", NoBranches, "", NoLoop);
    var forks := TaskNode("fork", BranchDef([Branch("b", [Group([step]), Group([step])])]), "", NoLoop);
    [Group([forks])]
  }

  /** The branch is chosen, its first group answers nothing special, its second asks for approval. */
  function Answers(): World {
    (t: nat) => if t == 0 then [Done(map[BRANCH_KEY := Str("b")])]
                else if t == 1 then [Done(map[])]
                else [Done(QUESTION)]
  }

  /** The pause is further on than any main group, and yet its approval schedules nothing. */
  lemma BranchPauseStrands(upstream: seq<Output>)
    ensures var x := FromMain(Answers(), Stranding(), upstream, 0, 0);
            && x.end == Paused(1, QUESTION)
            && x.trace == [Place([], 0), Place([Hop(0, "b")], 0), Place([Hop(0, "b")], 1)]
            && Approve(Stranding(), x.end.group, x.end.output) == Nothing
  {
    var w, main := Answers(), Stranding();
    var chosen: Output := map[BRANCH_KEY := Str("b")];
    var plain: Output := map[];
    OneAnswer(chosen);
    OneAnswer(plain);
    OneAnswer(QUESTION);
    var branch := main[0].nodes[0].branches.list[0].groups;
    assert [] + [Hop(0, "b")] == [Hop(0, "b")];
    var first := Point([Hop(0, "b")], branch, 0, [chosen]);
    var second := Point([Hop(0, "b")], branch, 1, [chosen] + [plain]);
    assert Decide(main, 0, [chosen]) == Enter("b", branch);
    assert Advance(w, Point([], main, 0, upstream), 0) == Goto(first, 1);
    assert RunGroup(w, branch[0], 1) == Outputs([plain]);
    assert Decide(branch, 0, [plain]) == Decide(branch, 0, []) == Next;
    assert Advance(w, first, 1) == Goto(second, 2);
    assert RunGroup(w, branch[1], 2) == Outputs([QUESTION]);
    assert Decide(branch, 1, [QUESTION]) == Pause(QUESTION);
    assert Advance(w, second, 2) == Stop(Paused(1, QUESTION), 3);
    var places := [Place([Hop(0, "b")], 0)] + [Place([Hop(0, "b")], 1)];
    assert ExecuteGroups(w, first, 1) == Execution(Paused(1, QUESTION), places, 3);
    assert [Place([], 0)] + places == [Place([], 0), Place([Hop(0, "b")], 0), Place([Hop(0, "b")], 1)];
  }
}
