/** The entry of a running workflow: where executions, pauses and approvals leave its state. */
module WorkflowEntry {
  import opened Execution
  import opened Sequences

  datatype Status = StatusRunning | StatusPaused | StatusCompleted | StatusFailed

  datatype Reply = NotPaused | Approved(next: Approval)

  function FirstName(g: Group): string {
    if g.nodes == [] then "" else g.nodes[0].name
  }

  function TaskNameOf(main: seq<Group>, idx: nat): string {
    if idx >= |main| then "" else FirstName(main[idx])
  }

  class Entry {
    const main: seq<Group>
    var status: Status
    var pausedTaskName: string
    var pausedGroupIdx: nat
    var pausedTaskOutput: Output
    var error: string
    ghost var last: Execution

    /** The state tells how the last execution ended, until it is approved. */
    ghost predicate Valid()
      reads this
    {
      && (status == StatusPaused ==>
            last.end == Paused(pausedGroupIdx, pausedTaskOutput) && pausedTaskName == TaskNameOf(main, pausedGroupIdx))
      && (status == StatusFailed ==> last.end.Failed?)
    }

    constructor (main: seq<Group>)
      ensures Valid() && this.main == main && status == StatusRunning
    {
      this.main, status := main, StatusRunning;
      pausedTaskName, pausedGroupIdx, pausedTaskOutput, error := "", 0, map[], "";
      last := Execution(Completed, [], 0);
    }

    method FinishWorkflow()
      modifies `status
      ensures status == StatusCompleted
    {
      status := StatusCompleted;
    }

    /** pauseForApproval: the task name is looked up in the main groups, whichever list paused. */
    method PauseForApproval(groupIdx: nat, output: Output)
      modifies `status, `pausedTaskName, `pausedTaskOutput, `pausedGroupIdx
      ensures status == StatusPaused && pausedGroupIdx == groupIdx && pausedTaskOutput == output
      ensures pausedTaskName == TaskNameOf(main, groupIdx)
      ensures pausedTaskName == if groupIdx < |main| && main[groupIdx].nodes != [] then main[groupIdx].nodes[0].name else ""
    {
      status := StatusPaused;
      if groupIdx >= |main| {
        pausedTaskName := "";
      } else if |main[groupIdx].nodes| > 0 {
        pausedTaskName := main[groupIdx].nodes[0].name;
      } else {
        pausedTaskName := "";
      }
      pausedTaskOutput := output;
      pausedGroupIdx := groupIdx;
    }

    method FailWorkflow(message: string)
      modifies `status, `error
      ensures status == StatusFailed && error == message
    {
      status := StatusFailed;
      error := message;
    }

    /** An execution from a main group on ends in exactly one of completed, paused and failed, after
        finitely many groups of the tree, none of them twice. */
    method Execute(w: World, upstream: seq<Output>, start: nat, t: nat) returns (clock: nat)
      requires Valid() && status == StatusRunning
      modifies this
      ensures Valid() && last == FromMain(w, main, upstream, start, t) && clock == last.clock
      ensures status == match last.end
                        case Completed => StatusCompleted
                        case Paused(_, _) => StatusPaused
                        case Failed(_, _) => StatusFailed
      ensures last.end.Failed? ==> error == last.end.message
      ensures NoRepeat(last.trace) && |last.trace| <= Measure(main, start)
    {
      var x := FromMain(w, main, upstream, start, t);
      last := x;
      NoGroupRunsTwice(w, Point([], main, start, upstream), t);
      RunVisitsTreeInOrder(w, Point([], main, start, upstream), t);
      clock := x.clock;
      match x.end {
        case Completed => FinishWorkflow();
        case Paused(g, o) => PauseForApproval(g, o);
        case Failed(_, m) => FailWorkflow(m);
      }
    }

    /** ApproveWorkflow: refused unless paused; otherwise the entry runs again, or is completed when the
        pause was at the last index. With an index beyond the main groups, which a branch can leave
        behind, the entry counts as running and nothing is scheduled. */
    method ApproveWorkflow() returns (r: Reply)
      requires Valid()
      modifies `status
      ensures Valid() && (r.NotPaused? <==> old(status) != StatusPaused)
      ensures r.NotPaused? ==> status == old(status)
      ensures r.Approved? ==>
                && r.next == Approve(main, pausedGroupIdx, pausedTaskOutput)
                && last.end.Paused? && r.next == Approve(main, last.end.group, last.end.output)
                && status == (if r.next == Complete then StatusCompleted else StatusRunning)
                && (r.next == Nothing <==> pausedGroupIdx >= |main|)
    {
      if status != StatusPaused {
        return NotPaused;
      }
      status := StatusRunning;
      if pausedGroupIdx < |main| - 1 {
        var cleanOutput := map k | k in pausedTaskOutput && k != SKIP_GROUPS_KEY && k != BRANCH_KEY && k != APPROVAL_KEY
                             :: pausedTaskOutput[k];
        return Approved(Resume(pausedGroupIdx + 1, [cleanOutput]));
      } else if pausedGroupIdx == |main| - 1 {
        status := StatusCompleted;
        return Approved(Complete);
      }
      return Approved(Nothing);
    }
  }
}
