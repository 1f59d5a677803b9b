/** executeWithCAS as the worker runs it: the claim loop, the status report and the fallback, calling a
    store that other attempts use in between. Every call refines the step machine of CasClaim, so what
    is proved there about all runs holds of this code under any interference. */
module CasWorker {
  import opened CasClaim
  import opened Options

  /** What the surroundings do at one store call: the others' steps before it, and whether it fails. */
  datatype Turn = Turn(others: seq<Step>, fails: bool)

  predicate By(step: Step, me: Attempt) {
    match step
    case Land(_) => false
    case Delete => false
    case OtherKeyWritten => false
    case _ => step.a == me
  }

  ghost predicate Foreign(steps: seq<Step>, me: Attempt) {
    forall k :: 0 <= k < |steps| ==> !By(steps[k], me)
  }

  ghost predicate ForeignTurns(schedule: nat -> Turn, me: Attempt) {
    forall k :: Foreign(schedule(k).others, me)
  }

  lemma {:induction false} ContinuesTransitively(a: Run, b: Run, c: Run)
    requires Continues(a, b) && Continues(b, c)
    ensures Continues(a, c)
  {
    if b != c {
      ContinuesTransitively(a, b, c.before);
    }
  }

  /** Why a claim was not made; moments are runs at whose end the reason was seen. */
  datatype Refusal =
    | ReadFailed(k: nat)
    | NotPending(k: nat, moment: Run)
    | PutFailed(k: nat)
    | Conflicted(moments: seq<Run>)
    | Cancelled(k: nat, moment: Run)

  /** At this moment the attempt's k-th compare-and-put met a key that had moved on. */
  ghost predicate ConflictAt(born: nat, r: Run, me: Attempt, k: nat) {
    var s := End(born, r);
    me in s.attempts && s.attempts[me].Claiming? && s.attempts[me].tries == k && !Matches(s, s.attempts[me].rev)
  }

  /** One conflict for each of the first rounds. */
  ghost predicate Conflicts(born: nat, run: Run, me: Attempt, ms: seq<Run>) {
    forall k :: 0 <= k < |ms| ==> Continues(ms[k], run) && ConflictAt(born, ms[k], me, k)
  }

  lemma ConflictsStay(born: nat, me: Attempt, ms: seq<Run>, a: Run, b: Run)
    requires Continues(a, b) && Conflicts(born, a, me, ms)
    ensures Conflicts(born, b, me, ms)
  {
    forall k | 0 <= k < |ms| ensures Continues(ms[k], b) {
      ContinuesTransitively(ms[k], a, b);
    }
  }

  /** A store call that nothing precedes and that succeeds. */
  predicate Quiet(turn: Turn) {
    turn.others == [] && !turn.fails
  }

  /** Every refusal has its cause: a call that failed, a key seen not PENDING, as many conflicts as there
      are rounds, or a context that ended after a conflict. */
  ghost predicate Justified(born: nat, run: Run, me: Attempt, why: Refusal,
                            schedule: nat -> Turn, cancelled: nat -> bool)
  {
    match why
    case ReadFailed(k) => k < 3 && schedule(2 * k).fails
    case NotPending(k, m) => k < 3 && Continues(m, run) && !IsPending(End(born, m))
    case PutFailed(k) => k < 3 && schedule(2 * k + 1).fails
    case Conflicted(ms) => |ms| == 3 && Conflicts(born, run, me, ms)
    case Cancelled(k, m) => k < 2 && cancelled(k) && Continues(m, run) && ConflictAt(born, m, me, k)
  }

  /** The k-th put of the fallback is made: those before it failed and the deadline passed at none of them. */
  ghost predicate PutReached(schedule: nat -> Turn, late: nat -> bool, lateWaiting: nat -> bool, k: nat) {
    !late(k) && forall j: nat :: j < k ==> !late(j) && schedule(j).fails && !lateWaiting(j)
  }

  /** The first n puts were made in time and failed, and the deadline passed in none of their back-offs. */
  ghost predicate NonePut(schedule: nat -> Turn, late: nat -> bool, lateWaiting: nat -> bool, n: nat) {
    forall j: nat :: j < n ==> !late(j) && schedule(j).fails && (j < 2 ==> !lateWaiting(j))
  }

  class Cluster {
    const born: nat
    var s: State
    ghost var run: Run

    ghost predicate Valid()
      reads this
    {
      0 < born && s == End(born, run)
    }

    constructor (born: nat)
      requires 0 < born
      ensures Valid() && this.born == born && run == Start
    {
      this.born := born;
      s := State(born, Some(Cell(Pending, born)), {}, map[], 0);
      run := Start;
    }

    method Take(step: Step)
      requires Valid() && Enabled(s, step)
      modifies this
      ensures Valid() && s == Apply(old(s), step) && Continues(old(run), run)
    {
      s := Apply(s, step);
      run := Then(run, step);
    }

    method Interfere(others: seq<Step>, me: Attempt)
      requires Valid() && Foreign(others, me) && me in s.attempts
      modifies this
      ensures Valid() && Continues(old(run), run)
      ensures me in s.attempts && s.attempts[me] == old(s.attempts[me])
      ensures others == [] ==> run == old(run)
    {
      for k := 0 to |others|
        invariant Valid() && Continues(old(run), run)
        invariant me in s.attempts && s.attempts[me] == old(s.attempts[me])
        invariant k == 0 ==> run == old(run)
      {
        if Enabled(s, others[k]) {
          ghost var before := run;
          Take(others[k]);
          ContinuesTransitively(old(run), before, run);
        }
      }
    }

    /** GetWithRevision: the value and its revision, or nothing when the key is absent. moment is when the
        read takes place; without interference that is at once. */
    method GetWithRevision(me: Attempt, turn: Turn) returns (failed: bool, seen: Option<Cell>, ghost moment: Run)
      requires Valid() && Foreign(turn.others, me)
      requires me in s.attempts && (s.attempts[me].Reading? || s.attempts[me].Rereading?)
      modifies this
      ensures Valid() && Continues(old(run), moment) && Continues(moment, run) && failed == turn.fails
      ensures turn.others == [] ==> moment == old(run)
      ensures me in s.attempts && s.cell == End(born, moment).cell
      ensures !failed ==> seen == s.cell
      ensures var pc := old(s.attempts[me]);
              s.attempts[me] == if pc.Reading? then (if failed then GaveUp else AfterRead(s, pc))
                                else (if failed then FallingBack(0, pc.outcome) else AfterReread(s, pc))
    {
      Interfere(turn.others, me);
      moment := run;
      seen := s.cell;
      failed := turn.fails;
      var step := if s.attempts[me].Reading? then (if failed then ReadFails(me) else Read(me))
                  else (if failed then RereadFails(me) else Reread(me));
      Take(step);
    }

    /** CASPut: writes if the key still has the expected revision, and says so with the new revision. */
    method CASPut(me: Attempt, turn: Turn) returns (failed: bool, success: bool, newRevision: nat, ghost moment: Run)
      requires Valid() && Foreign(turn.others, me)
      requires me in s.attempts && (s.attempts[me].Claiming? || s.attempts[me].Reporting?)
      modifies this
      ensures Valid() && Continues(old(run), moment) && Continues(moment, run) && failed == turn.fails
      ensures turn.others == [] ==> moment == old(run)
      ensures me in End(born, moment).attempts && End(born, moment).attempts[me] == old(s.attempts[me])
      ensures success <==> !failed && Matches(End(born, moment), old(s.attempts[me].rev))
      ensures var pc := old(s.attempts[me]);
              success ==> s.cell == Some(Cell(if pc.Claiming? then Running else Terminal(pc.outcome), newRevision))
      ensures !success ==> s.cell == End(born, moment).cell
      ensures me in s.attempts
      ensures var pc := old(s.attempts[me]);
              s.attempts[me] == if pc.Claiming? then (if failed then GaveUp else if success then Won(newRevision) else AfterConflict(pc))
                                else (if failed then FallingBack(0, pc.outcome) else if success then Finished(pc.outcome) else Rereading(pc.outcome))
    {
      Interfere(turn.others, me);
      moment := run;
      var pc := s.attempts[me];
      failed := turn.fails;
      success := !failed && Matches(s, pc.rev);
      newRevision := s.revision + 1;
      var step := if pc.Claiming? then (if failed then ClaimFails(me) else Claim(me))
                  else (if failed then ReportFails(me) else Report(me));
      Take(step);
    }

    /** The context ends during a back-off: the attempt goes the way of a failed read. */
    method GiveUp(me: Attempt)
      requires Valid() && me in s.attempts && s.attempts[me].Reading?
      modifies this
      ensures Valid() && Continues(old(run), run)
      ensures me in s.attempts && s.attempts[me] == GaveUp
    {
      Take(ReadFails(me));
    }

    /** One round of tryAcquire: read, check for PENDING, compare-and-put, and the back-off behind a
        conflict. It is done when the task is acquired or refused for a cause. */
    method Round(me: Attempt, attempt: nat, schedule: nat -> Turn, cancelled: nat -> bool)
      returns (done: bool, acquired: bool, rev: nat, ghost why: Refusal, ghost conflict: Run)
      requires Valid() && ForeignTurns(schedule, me) && attempt < CLAIM_RETRIES
      requires me in s.attempts && s.attempts[me] == Reading(attempt)
      modifies this
      ensures Valid() && Continues(old(run), run) && me in s.attempts
      ensures acquired ==> done && s.attempts[me] == Won(rev) && s.cell == Some(Cell(Running, rev))
      ensures done && !acquired ==> s.attempts[me] == GaveUp && Justified(born, run, me, why, schedule, cancelled)
      ensures !done ==>
                && s.attempts[me] == (if attempt + 1 < CLAIM_RETRIES then Reading(attempt + 1) else GaveUp)
                && Continues(conflict, run) && ConflictAt(born, conflict, me, attempt)
      ensures Quiet(schedule(2 * attempt)) && Quiet(schedule(2 * attempt + 1)) && IsPending(old(s)) ==> acquired
    {
      assert Foreign(schedule(2 * attempt).others, me) && Foreign(schedule(2 * attempt + 1).others, me);
      var failed, seen, readAt := GetWithRevision(me, schedule(2 * attempt));
      ghost var r1 := run;
      ContinuesTransitively(old(run), readAt, r1);
      conflict := r1;
      if failed {
        return true, false, 0, ReadFailed(attempt), conflict;
      }
      if seen.None? || seen.value.value != Pending {
        return true, false, 0, NotPending(attempt, readAt), conflict;
      }
      var putFailed, success, newRevision, putAt := CASPut(me, schedule(2 * attempt + 1));
      ghost var r2 := run;
      conflict := putAt;
      ContinuesTransitively(r1, putAt, r2);
      ContinuesTransitively(old(run), r1, r2);
      if putFailed {
        return true, false, 0, PutFailed(attempt), conflict;
      }
      if success {
        return true, true, newRevision, PutFailed(attempt), conflict;
      }
      if attempt < CLAIM_RETRIES - 1 && cancelled(attempt) {
        GiveUp(me);
        ContinuesTransitively(old(run), r2, run);
        ContinuesTransitively(putAt, r2, run);
        return true, false, 0, Cancelled(attempt, putAt), conflict;
      }
      return false, false, 0, PutFailed(attempt), conflict;
    }

    /** tryAcquire: at most three rounds, the context ending only behind a conflict that is not the last.
        It is refused only for a cause, and an undisturbed claim of a pending key is never refused. */
    method TryAcquire(me: Attempt, schedule: nat -> Turn, cancelled: nat -> bool)
      returns (acquired: bool, rev: nat, ghost why: Refusal)
      requires Valid() && ForeignTurns(schedule, me)
      requires me in s.attempts && s.attempts[me] == Reading(0)
      modifies this
      ensures Valid() && Continues(old(run), run)
      ensures me in s.attempts && s.attempts[me] == if acquired then Won(rev) else GaveUp
      ensures acquired ==> s.cell == Some(Cell(Running, rev))
      ensures !acquired ==> Justified(born, run, me, why, schedule, cancelled)
      ensures Quiet(schedule(0)) && Quiet(schedule(1)) && IsPending(old(s)) ==> acquired
    {
      var attempt := 0;
      acquired, rev, why := false, 0, Conflicted([]);
      ghost var conflicts: seq<Run> := [];
      ghost var smooth := Quiet(schedule(0)) && Quiet(schedule(1)) && IsPending(s);
      while attempt < CLAIM_RETRIES
        invariant attempt <= CLAIM_RETRIES && |conflicts| == attempt
        invariant Valid() && Continues(old(run), run) && me in s.attempts
        invariant smooth ==> attempt == 0 && s == old(s)
        invariant s.attempts[me] == if attempt < CLAIM_RETRIES then Reading(attempt) else GaveUp
        invariant Conflicts(born, run, me, conflicts)
      {
        ghost var before := run;
        var done, got, newRevision, cause, conflict := Round(me, attempt, schedule, cancelled);
        ContinuesTransitively(old(run), before, run);
        if done {
          return got, newRevision, cause;
        }
        ConflictsStay(born, me, conflicts, before, run);
        conflicts := conflicts + [conflict];
        attempt := attempt + 1;
      }
      why := Conflicted(conflicts);
    }

    /** A terminal value in the store is that of the attempt that finished. */
    lemma TerminalIsOwn(me: Attempt, o: Outcome)
      requires Valid() && me in s.attempts && s.attempts[me] == Finished(o)
      requires s.cell.Some? && s.cell.value.value.Terminal?
      ensures s.cell.value.value == Terminal(o)
    {
      EveryRunKeepsInv(born, run);
      var x := s.cell.value.value.outcome;
      assert Carries(s, x);
      var a :| DecidedBy(s, a, x);
      assert Holds(s, me) && Holds(s, a);
    }

    /** updateStatus: compare-and-put the outcome; on a conflict look again, and count the report as
        made if the key already holds a terminal value. A report made is in the store; one not made failed,
        or met a key that had moved on and could not be read or was not terminal. */
    method UpdateStatus(me: Attempt, schedule: nat -> Turn) returns (reported: bool, ghost moment: Run)
      requires Valid() && ForeignTurns(schedule, me)
      requires me in s.attempts && s.attempts[me].Reporting?
      modifies this
      ensures Valid() && Continues(old(run), run)
      ensures var o := old(s.attempts[me].outcome);
              && me in s.attempts && s.attempts[me] == (if reported then Finished(o) else FallingBack(0, o))
              && (reported ==> s.cell.Some? && s.cell.value.value == Terminal(o))
      ensures !reported ==>
                || schedule(0).fails
                || (Continues(old(run), moment) && Continues(moment, run)
                    && !Matches(End(born, moment), old(s.attempts[me].rev))
                    && (schedule(1).fails || s.cell.None? || !s.cell.value.value.Terminal?))
      ensures Quiet(schedule(0)) && Matches(old(s), old(s.attempts[me].rev)) ==> reported
    {
      assert Foreign(schedule(0).others, me) && Foreign(schedule(1).others, me);
      ghost var o := s.attempts[me].outcome;
      var failed, success, _, putAt := CASPut(me, schedule(0));
      moment := putAt;
      ghost var r1 := run;
      ContinuesTransitively(old(run), putAt, r1);
      if failed {
        return false, moment;
      }
      if success {
        return true, moment;
      }
      var readFailed, latest, readAt := GetWithRevision(me, schedule(1));
      ContinuesTransitively(r1, readAt, run);
      ContinuesTransitively(old(run), r1, run);
      ContinuesTransitively(putAt, r1, run);
      if readFailed || latest.None? {
        return false, moment;
      }
      if latest.value.value.Terminal? {
        TerminalIsOwn(me, o);
        return true, moment;
      }
      return false, moment;
    }

    /** One turn of the reporter's loop: a put, and the back-off behind a failed one. It is done when the put
        went through or the deadline has passed. */
    method PutOnce(me: Attempt, turn: Turn, late: bool, lateWaiting: bool) returns (done: bool, stored: bool)
      requires Valid() && Foreign(turn.others, me)
      requires me in s.attempts && s.attempts[me].FallingBack? && s.attempts[me].puts < REPORT_RETRIES
      modifies this
      ensures Valid() && Continues(old(run), run) && me in s.attempts
      ensures var pc := old(s.attempts[me]);
              && s.attempts[me] == (if !done && pc.puts + 1 < REPORT_RETRIES then FallingBack(pc.puts + 1, pc.outcome)
                                    else Finished(pc.outcome))
              && (stored ==> s.cell == Some(Cell(Terminal(pc.outcome), s.revision)))
              && (stored <==> !late && !turn.fails)
              && (done <==> stored || late || (pc.puts + 1 < REPORT_RETRIES && lateWaiting))
    {
      if late {
        Take(FallbackRefused(me));
        return true, false;
      }
      ghost var o := s.attempts[me].outcome;
      var last := s.attempts[me].puts + 1 >= REPORT_RETRIES;
      Interfere(turn.others, me);
      ghost var r1 := run;
      if !turn.fails {
        Take(FallbackPut(me));
        ContinuesTransitively(old(run), r1, run);
        return true, true;
      }
      Take(FallbackFails(me));
      ghost var r2 := run;
      ContinuesTransitively(old(run), r1, r2);
      if !last && lateWaiting {
        Take(FallbackRefused(me));
        ContinuesTransitively(old(run), r2, run);
        return true, false;
      }
      return false, false;
    }

    /** The reporter's unconditional put, tried three times, unless the breaker refuses it or the deadline
        passes before a put or during the back-off behind a failed one. It says whether a put went through,
        which is whenever one is reached in time and does not fail. */
    method FallBack(me: Attempt, refused: bool, schedule: nat -> Turn, late: nat -> bool, lateWaiting: nat -> bool)
      returns (stored: bool)
      requires Valid() && ForeignTurns(schedule, me)
      requires me in s.attempts && s.attempts[me].FallingBack? && s.attempts[me].puts == 0
      modifies this
      ensures Valid() && Continues(old(run), run)
      ensures var o := old(s.attempts[me].outcome);
              && me in s.attempts && s.attempts[me] == Finished(o)
              && (stored ==> s.cell == Some(Cell(Terminal(o), s.revision)))
      ensures stored <==> !refused
                          && exists k: nat :: k < 3 && PutReached(schedule, late, lateWaiting, k) && !schedule(k).fails
    {
      stored := false;
      if refused {
        Take(FallbackRefused(me));
        return;
      }
      var o := s.attempts[me].outcome;
      var attempt := 0;
      while attempt < REPORT_RETRIES
        invariant attempt <= REPORT_RETRIES && !stored
        invariant Valid() && Continues(old(run), run) && me in s.attempts
        invariant s.attempts[me] == if attempt < REPORT_RETRIES then FallingBack(attempt, o) else Finished(o)
        invariant NonePut(schedule, late, lateWaiting, attempt)
      {
        ghost var before := run;
        assert Foreign(schedule(attempt).others, me);
        var done, put := PutOnce(me, schedule(attempt), late(attempt), lateWaiting(attempt));
        ContinuesTransitively(old(run), before, run);
        if done {
          assert put ==> PutReached(schedule, late, lateWaiting, attempt);
          return put;
        }
        attempt := attempt + 1;
      }
    }

    /** executeWithCAS: claim, run, report, fall back. It ends having given up for a cause or having
        finished with the outcome of its own execution, and it executes the task exactly if it acquired it.
        Undisturbed it executes a pending task and leaves its outcome in the store; and whatever happens to
        an executed task's report, its outcome is stored if the fallback's first put goes through. */
    method ExecuteWithCas(me: Attempt, result: Outcome, refused: bool,
                          claims: nat -> Turn, reports: nat -> Turn, fallbacks: nat -> Turn,
                          cancelled: nat -> bool, late: nat -> bool, lateWaiting: nat -> bool)
      returns (executed: bool, ghost why: Refusal)
      requires Valid() && me !in s.attempts
      requires ForeignTurns(claims, me) && ForeignTurns(reports, me) && ForeignTurns(fallbacks, me)
      modifies this
      ensures Valid() && Continues(old(run), run)
      ensures me in s.attempts && s.attempts[me] == if executed then Finished(result) else GaveUp
      ensures executed ==> s.executions == 1 && forall a :: Holds(s, a) ==> a == me
      ensures !executed ==> Justified(born, run, me, why, claims, cancelled)
      ensures Quiet(claims(0)) && Quiet(claims(1)) && IsPending(old(s)) ==> executed
      ensures executed && (Quiet(reports(0)) || (!refused && !late(0) && !fallbacks(0).fails)) ==>
                s.cell.Some? && s.cell.value.value == Terminal(result)
    {
      Take(Begin(me));
      ghost var r0 := run;
      var acquired, rev, reason := TryAcquire(me, claims, cancelled);
      why := reason;
      ghost var r1 := run;
      ContinuesTransitively(old(run), r0, r1);
      if !acquired {
        return false, why;
      }
      Take(Execute(me, result));
      assert Matches(s, rev);
      ghost var r2 := run;
      ContinuesTransitively(old(run), r1, r2);
      var reported, _ := UpdateStatus(me, reports);
      ghost var r3 := run;
      ContinuesTransitively(old(run), r2, r3);
      if !reported {
        assert !late(0) ==> PutReached(fallbacks, late, lateWaiting, 0);
        var _ := FallBack(me, refused, fallbacks, late, lateWaiting);
        ContinuesTransitively(old(run), r3, run);
      }
      EveryRunKeepsInv(born, run);
      assert Holds(s, me);
      return true, why;
    }
  }
}
