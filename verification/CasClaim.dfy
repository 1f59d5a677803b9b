/** Claiming and reporting one task key in CAS mode: any number of execution attempts against one
    revisioned store, interleaved step by step. A store call that reports an error may still take
    effect, at once or at any later time, or never: its request stays in flight for ever after. */
module CasClaim {
  import opened Options

  type Attempt = nat

  datatype Outcome = Completed(output: string) | Failed(message: string)

  datatype Value = Pending | Running | Terminal(outcome: Outcome)

  datatype Cell = Cell(value: Value, rev: nat)

  /** A write on its way to the store: compare-and-put against a revision, or an unconditional put. */
  datatype Request = CasPut(value: Value, expected: nat) | Put(value: Value)

  const CLAIM_RETRIES := 3
  const REPORT_RETRIES := 3

  /** The states of one executeWithCAS call. */
  datatype Pc =
    | Reading(tries: nat)
    | Claiming(tries: nat, rev: nat)
    | GaveUp
    | Won(rev: nat)
    | Reporting(rev: nat, outcome: Outcome)
    | Rereading(outcome: Outcome)
    | FallingBack(puts: nat, outcome: Outcome)
    | Finished(outcome: Outcome)
  {
    /** tryAcquire returned true for this attempt. */
    predicate Acquired() {
      Won? || Reporting? || Rereading? || FallingBack? || Finished?
    }
  }

  datatype State = State(
    revision: nat,
    cell: Option<Cell>,
    inFlight: set<Request>,
    attempts: map<Attempt, Pc>,
    executions: nat)

  datatype Step =
    | Begin(a: Attempt)
    | Read(a: Attempt)
    | ReadFails(a: Attempt)
    | Claim(a: Attempt)
    | ClaimFails(a: Attempt)
    | Execute(a: Attempt, result: Outcome)
    | Report(a: Attempt)
    | ReportFails(a: Attempt)
    | Reread(a: Attempt)
    | RereadFails(a: Attempt)
    | FallbackPut(a: Attempt)
    | FallbackFails(a: Attempt)
    | FallbackRefused(a: Attempt)  // open circuit breaker or expired deadline
    | Land(request: Request)       // a request in flight reaches the store
    | Delete                       // clean-up by the master, or expiry
    | OtherKeyWritten              // the revision is global to the store

  // ---------------------------------------------------------------- the store

  /** Whether a compare on the key's revision succeeds; an absent key has revision 0. */
  predicate Matches(s: State, expected: nat) {
    (if s.cell.Some? then s.cell.value.rev else 0) == expected
  }

  function Written(s: State, value: Value): State {
    s.(revision := s.revision + 1, cell := Some(Cell(value, s.revision + 1)))
  }

  function Landed(s: State, r: Request): State {
    match r
    case CasPut(value, expected) => if Matches(s, expected) then Written(s, value) else s
    case Put(value) => Written(s, value)
  }

  // ---------------------------------------------------------------- the attempts

  function Goto(s: State, a: Attempt, pc: Pc): State {
    s.(attempts := s.attempts[a := pc])
  }

  /** The attempt has acquired the task. */
  ghost predicate Holds(s: State, a: Attempt) {
    a in s.attempts && s.attempts[a].Acquired()
  }

  predicate Enabled(s: State, step: Step) {
    match step
    case Begin(a) => a !in s.attempts
    case Read(a) => a in s.attempts && s.attempts[a].Reading?
    case ReadFails(a) => a in s.attempts && s.attempts[a].Reading?
    case Claim(a) => a in s.attempts && s.attempts[a].Claiming?
    case ClaimFails(a) => a in s.attempts && s.attempts[a].Claiming?
    case Execute(a, _) => a in s.attempts && s.attempts[a].Won?
    case Report(a) => a in s.attempts && s.attempts[a].Reporting?
    case ReportFails(a) => a in s.attempts && s.attempts[a].Reporting?
    case Reread(a) => a in s.attempts && s.attempts[a].Rereading?
    case RereadFails(a) => a in s.attempts && s.attempts[a].Rereading?
    case FallbackPut(a) => a in s.attempts && s.attempts[a].FallingBack?
    case FallbackFails(a) => a in s.attempts && s.attempts[a].FallingBack?
    case FallbackRefused(a) => a in s.attempts && s.attempts[a].FallingBack?
    case Land(request) => request in s.inFlight
    case Delete => true
    case OtherKeyWritten => true
  }

  function AfterRead(s: State, pc: Pc): Pc
    requires pc.Reading?
  {
    if s.cell.Some? && s.cell.value.value == Pending then Claiming(pc.tries, s.cell.value.rev) else GaveUp
  }

  function AfterConflict(pc: Pc): Pc
    requires pc.Claiming?
  {
    if pc.tries + 1 < CLAIM_RETRIES then Reading(pc.tries + 1) else GaveUp
  }

  function AfterReread(s: State, pc: Pc): Pc
    requires pc.Rereading?
  {
    if s.cell.Some? && s.cell.value.value.Terminal? then Finished(pc.outcome) else FallingBack(0, pc.outcome)
  }

  function AfterFailedPut(pc: Pc): Pc
    requires pc.FallingBack?
  {
    if pc.puts + 1 < REPORT_RETRIES then FallingBack(pc.puts + 1, pc.outcome) else Finished(pc.outcome)
  }

  function Apply(s: State, step: Step): State
    requires Enabled(s, step)
  {
    match step
    case Begin(a) => Goto(s, a, Reading(0))
    case Read(a) => Goto(s, a, AfterRead(s, s.attempts[a]))
    case ReadFails(a) => Goto(s, a, GaveUp)
    case Claim(a) =>
      if Matches(s, s.attempts[a].rev) then Goto(Written(s, Running), a, Won(s.revision + 1))
      else Goto(s, a, AfterConflict(s.attempts[a]))
    case ClaimFails(a) =>
      Goto(s, a, GaveUp).(inFlight := s.inFlight + {CasPut(Running, s.attempts[a].rev)})
    case Execute(a, result) =>
      Goto(s, a, Reporting(s.attempts[a].rev, result)).(executions := s.executions + 1)
    case Report(a) =>
      var pc := s.attempts[a];
      if Matches(s, pc.rev) then Goto(Written(s, Terminal(pc.outcome)), a, Finished(pc.outcome))
      else Goto(s, a, Rereading(pc.outcome))
    case ReportFails(a) =>
      var pc := s.attempts[a];
      Goto(s, a, FallingBack(0, pc.outcome)).(inFlight := s.inFlight + {CasPut(Terminal(pc.outcome), pc.rev)})
    case Reread(a) => Goto(s, a, AfterReread(s, s.attempts[a]))
    case RereadFails(a) => Goto(s, a, FallingBack(0, s.attempts[a].outcome))
    case FallbackPut(a) =>
      Goto(Written(s, Terminal(s.attempts[a].outcome)), a, Finished(s.attempts[a].outcome))
    case FallbackFails(a) =>
      Goto(s, a, AfterFailedPut(s.attempts[a])).(inFlight := s.inFlight + {Put(Terminal(s.attempts[a].outcome))})
    case FallbackRefused(a) => Goto(s, a, Finished(s.attempts[a].outcome))
    case Land(request) => Landed(s, request)
    case Delete => s.(revision := s.revision + 1, cell := None)
    case OtherKeyWritten => s.(revision := s.revision + 1)
  }

  // ---------------------------------------------------------------- runs

  /** A run is its steps in order; a step that is not enabled when its turn comes changes nothing. */
  datatype Run = Start | Then(before: Run, step: Step)

  /** The master has just written the task's fresh key, as PENDING, at this revision. */
  ghost function Init(born: nat): State {
    State(born, Some(Cell(Pending, born)), {}, map[], 0)
  }

  ghost function End(born: nat, r: Run): State {
    match r
    case Start => Init(born)
    case Then(before, step) =>
      var s := End(born, before);
      if Enabled(s, step) then Apply(s, step) else s
  }

  // ---------------------------------------------------------------- the invariant

  ghost predicate IsPending(s: State) {
    s.cell.Some? && s.cell.value.value == Pending
  }

  /** What an attempt may hold: only the birth revision while claiming, a later one after winning. */
  ghost predicate PcInv(born: nat, s: State, pc: Pc) {
    && (pc.Claiming? ==> pc.rev == born)
    && ((pc.Won? || pc.Reporting?) ==> born < pc.rev <= s.revision)
    && (pc.Acquired() ==> !IsPending(s))
    && (pc.Acquired() && !pc.Won? ==> s.executions == 1)
    && (pc.Won? ==> s.executions == 0)
  }

  ghost predicate RequestInv(born: nat, r: Request) {
    match r
    case CasPut(value, expected) =>
      (value == Running && expected == born) || (value.Terminal? && expected > born)
    case Put(value) => value.Terminal?
  }

  /** Every terminal value anywhere is the one that the acquiring attempt decided on. */
  ghost predicate Carries(s: State, o: Outcome) {
    || (s.cell.Some? && s.cell.value.value == Terminal(o))
    || (exists r :: r in s.inFlight && r.value == Terminal(o))
  }

  ghost predicate Inv(born: nat, s: State) {
    && 0 < born <= s.revision
    && (s.cell.Some? ==> s.cell.value.rev <= s.revision && (s.cell.value.rev == born <==> IsPending(s)) && born <= s.cell.value.rev)
    && (forall a :: a in s.attempts ==> PcInv(born, s, s.attempts[a]))
    && (forall r :: r in s.inFlight ==> RequestInv(born, r))
    && (forall a, b :: Holds(s, a) && Holds(s, b) ==> a == b)
    && (s.executions == 0 || s.executions == 1)
    && (s.executions == 1 ==> exists a, o :: DecidedBy(s, a, o))
    && (forall o :: Carries(s, o) ==> exists a :: DecidedBy(s, a, o))
  }

  ghost predicate DecidedBy(s: State, a: Attempt, o: Outcome) {
    Holds(s, a) && !s.attempts[a].Won? && s.attempts[a].outcome == o
  }

  /** No step takes back a decision. */
  lemma DecisionStays(born: nat, s: State, step: Step, a: Attempt, o: Outcome)
    requires Inv(born, s) && Enabled(s, step) && DecidedBy(s, a, o)
    ensures DecidedBy(Apply(s, step), a, o)
  {
  }

  /** Only a claim on the still pending key makes a new holder. */
  lemma HolderBefore(born: nat, s: State, step: Step, a: Attempt)
    requires Inv(born, s) && Enabled(s, step) && Holds(Apply(s, step), a)
    ensures Holds(s, a) || (step == Claim(a) && IsPending(s) && s.executions == 0)
  {
    if s.executions == 1 {
      var d, o :| DecidedBy(s, d, o);
    }
  }

  lemma StepKeepsUnique(born: nat, s: State, step: Step, a: Attempt, b: Attempt)
    requires Inv(born, s) && Enabled(s, step) && Holds(Apply(s, step), a) && Holds(Apply(s, step), b)
    ensures a == b
  {
    HolderBefore(born, s, step, a);
    HolderBefore(born, s, step, b);
  }

  lemma StepKeepsPcs(born: nat, s: State, step: Step)
    requires Inv(born, s) && Enabled(s, step)
    ensures var s' := Apply(s, step);
            forall a :: a in s'.attempts ==> PcInv(born, s', s'.attempts[a])
  {
    var s' := Apply(s, step);
    forall a | a in s'.attempts ensures PcInv(born, s', s'.attempts[a]) {
      if Holds(s', a) {
        HolderBefore(born, s, step, a);
        if step.Execute? {
          assert Holds(s, step.a);
        }
      }
    }
  }

  /** A step brings no terminal value into the world but that of the attempt that takes it. */
  lemma StepKeepsDecision(born: nat, s: State, step: Step, o: Outcome)
    requires Inv(born, s) && Enabled(s, step) && Carries(Apply(s, step), o)
    ensures exists a :: DecidedBy(Apply(s, step), a, o)
  {
    var s' := Apply(s, step);
    if Carries(s, o) {
      var a :| DecidedBy(s, a, o);
      DecisionStays(born, s, step, a, o);
    } else {
      match step
      case Report(a) => assert DecidedBy(s', a, o);
      case ReportFails(a) => assert DecidedBy(s', a, o);
      case FallbackPut(a) => assert DecidedBy(s', a, o);
      case FallbackFails(a) => assert DecidedBy(s', a, o);
      case _ =>
    }
  }

  lemma StepKeepsInv(born: nat, s: State, step: Step)
    requires Inv(born, s) && Enabled(s, step)
    ensures Inv(born, Apply(s, step))
  {
    var s' := Apply(s, step);
    StepKeepsPcs(born, s, step);
    forall a, b | Holds(s', a) && Holds(s', b) ensures a == b {
      StepKeepsUnique(born, s, step, a, b);
    }
    forall o | Carries(s', o) ensures exists a :: DecidedBy(s', a, o) {
      StepKeepsDecision(born, s, step, o);
    }
    if s.executions == 1 {
      var d, o :| DecidedBy(s, d, o);
      DecisionStays(born, s, step, d, o);
    } else if step.Execute? {
      assert DecidedBy(s', step.a, step.result);
    }
  }

  lemma {:induction false} EveryRunKeepsInv(born: nat, r: Run)
    requires 0 < born
    ensures Inv(born, End(born, r))
  {
    if r.Then? {
      EveryRunKeepsInv(born, r.before);
      if Enabled(End(born, r.before), r.step) {
        StepKeepsInv(born, End(born, r.before), r.step);
      }
    }
  }

  // ---------------------------------------------------------------- safety over every run

  /** In every run at most one attempt acquires the task, and its business logic runs at most once. */
  lemma AtMostOneWinner(born: nat, r: Run, a: Attempt, b: Attempt)
    requires 0 < born
    ensures var s := End(born, r);
            && s.executions <= 1
            && (Holds(s, a) && Holds(s, b) ==> a == b)
  {
    EveryRunKeepsInv(born, r);
  }

  /** later continues earlier. */
  ghost predicate Continues(earlier: Run, later: Run) {
    earlier == later || (later.Then? && Continues(earlier, later.before))
  }

  ghost function Rank(v: Value): nat {
    match v case Pending => 0 case Running => 1 case Terminal(_) => 2
  }

  /** How the key may change over time: forward only, a terminal value never to a different one; the
      key may vanish, and then only a terminal value can come back. */
  ghost predicate MovesForward(c: Option<Cell>, c': Option<Cell>) {
    && (c.Some? && c'.Some? ==>
          Rank(c.value.value) <= Rank(c'.value.value)
          && (c.value.value.Terminal? ==> c'.value.value == c.value.value))
    && (c.None? && c'.Some? ==> c'.value.value.Terminal?)
  }

  lemma StepMovesForward(born: nat, s: State, step: Step)
    requires Inv(born, s) && Enabled(s, step)
    ensures MovesForward(s.cell, Apply(s, step).cell)
  {
    var s' := Apply(s, step);
    if s.cell.Some? && s'.cell.Some? && s.cell.value.value.Terminal? && s'.cell.value.value.Terminal? {
      var o, o' := s.cell.value.value.outcome, s'.cell.value.value.outcome;
      assert Carries(s, o) && Carries(s', o');
      var a :| DecidedBy(s, a, o);
      DecisionStays(born, s, step, a, o);
      StepKeepsDecision(born, s, step, o');
      var b :| DecidedBy(s', b, o');
      StepKeepsInv(born, s, step);
    }
  }

  /** Between any two moments of any run the key's status only moves PENDING, RUNNING, terminal, and a
      terminal value is never replaced by a different one, even through the unconditional put. */
  lemma {:induction false} StatusMovesForward(born: nat, earlier: Run, later: Run)
    requires 0 < born && Continues(earlier, later)
    ensures var c, c' := End(born, earlier).cell, End(born, later).cell;
            && (c.Some? && c'.Some? ==> Rank(c.value.value) <= Rank(c'.value.value))
            && (c.None? && c'.Some? ==> c'.value.value.Terminal?)
    ensures forall o, o' :: Carries(End(born, earlier), o) && Carries(End(born, later), o') ==> o == o'
  {
    var s, s' := End(born, earlier), End(born, later);
    EveryRunKeepsInv(born, earlier);
    EveryRunKeepsInv(born, later);
    forall o, o' | Carries(s, o) && Carries(s', o') ensures o == o' {
      var a :| DecidedBy(s, a, o);
      DecisionStaysThrough(born, earlier, later, a, o);
      var b :| DecidedBy(s', b, o');
    }
    if earlier != later {
      var p := End(born, later.before);
      StatusMovesForward(born, earlier, later.before);
      EveryRunKeepsInv(born, later.before);
      if Enabled(p, later.step) {
        StepMovesForward(born, p, later.step);
        if p.cell.None? && s'.cell.Some? && s.cell.Some? {
          assert s'.cell.value.value.Terminal?;
        }
      }
    }
  }

  lemma {:induction false} DecisionStaysThrough(born: nat, earlier: Run, later: Run, a: Attempt, o: Outcome)
    requires 0 < born && Continues(earlier, later) && DecidedBy(End(born, earlier), a, o)
    ensures DecidedBy(End(born, later), a, o)
  {
    if earlier != later {
      DecisionStaysThrough(born, earlier, later.before, a, o);
      EveryRunKeepsInv(born, later.before);
      if Enabled(End(born, later.before), later.step) {
        DecisionStays(born, End(born, later.before), later.step, a, o);
      }
    }
  }

  /** The revision tells whether the key has changed: it never goes back, and between two moments with the
      same revision the key has not been touched. So a compare on it cannot mistake a new value for an old. */
  lemma {:induction false} RevisionTellsChange(born: nat, earlier: Run, later: Run)
    requires Continues(earlier, later)
    ensures var s, s' := End(born, earlier), End(born, later);
            && s.revision <= s'.revision
            && (s.revision == s'.revision ==> s.cell == s'.cell)
  {
    if earlier != later {
      RevisionTellsChange(born, earlier, later.before);
    }
  }

  // ---------------------------------------------------------------- writes whose reply was an error

  lemma {:induction false} InFlightStays(born: nat, earlier: Run, later: Run, q: Request)
    requires Continues(earlier, later) && q in End(born, earlier).inFlight
    ensures q in End(born, later).inFlight
  {
    if earlier != later {
      InFlightStays(born, earlier, later.before, q);
    }
  }

  /** A fallback's put that was reported as failed can land at any later moment, whatever the key holds by
      then, and even when it has been deleted. */
  lemma FailedPutStillLands(born: nat, r: Run, a: Attempt, later: Run)
    requires a in End(born, r).attempts && End(born, r).attempts[a].FallingBack?
    requires Continues(Then(r, FallbackFails(a)), later)
    ensures var put := Terminal(End(born, r).attempts[a].outcome);
            End(born, Then(later, Land(Put(put)))).cell == Some(Cell(put, End(born, later).revision + 1))
  {
    InFlightStays(born, Then(r, FallbackFails(a)), later, Put(Terminal(End(born, r).attempts[a].outcome)));
  }

  /** A report that failed can land at any later moment too, but takes effect if and only if the key still
      has the revision its claim was given. */
  lemma FailedReportStillLands(born: nat, r: Run, a: Attempt, later: Run)
    requires 0 < born && a in End(born, r).attempts && End(born, r).attempts[a].Reporting?
    requires Continues(Then(r, ReportFails(a)), later)
    ensures var pc := End(born, r).attempts[a];
            var cell := End(born, later).cell;
            End(born, Then(later, Land(CasPut(Terminal(pc.outcome), pc.rev)))).cell
            == if cell.Some? && cell.value.rev == pc.rev then Some(Cell(Terminal(pc.outcome), End(born, later).revision + 1)) else cell
  {
    var pc := End(born, r).attempts[a];
    EveryRunKeepsInv(born, r);
    InFlightStays(born, Then(r, ReportFails(a)), later, CasPut(Terminal(pc.outcome), pc.rev));
  }

  // ---------------------------------------------------------------- without errors and deletions

  /** No store error and no deletion; other attempts and other keys interleave freely. */
  ghost predicate Calm(r: Run) {
    r.Start? || (Calm(r.before) && !r.step.ReadFails? && !r.step.ClaimFails? && !r.step.ReportFails?
                 && !r.step.RereadFails? && !r.step.FallbackFails? && !r.step.FallbackRefused? && !r.step.Delete?)
  }

  /** Some attempt has issued its compare-and-put. */
  ghost predicate ClaimIssued(born: nat, r: Run) {
    r.Then? && (ClaimIssued(born, r.before) || (r.step.Claim? && Enabled(End(born, r.before), r.step)))
  }

  ghost predicate Someone(s: State) {
    exists a :: Holds(s, a)
  }

  /** What the key holds in a calm run follows from where the acquiring attempt stands. */
  ghost predicate CalmInv(born: nat, s: State, issued: bool) {
    && s.inFlight == {}
    && s.cell.Some?
    && (!issued ==> s.cell.value == Cell(Pending, born))
    && (issued ==> Someone(s))
    && (forall a :: a in s.attempts ==> CalmPc(s, s.attempts[a]))
  }

  ghost predicate CalmPc(s: State, pc: Pc) {
    s.cell.Some? &&
    match pc
    case Won(rev) => s.cell.value == Cell(Running, rev)
    case Reporting(rev, _) => s.cell.value == Cell(Running, rev)
    case Rereading(_) => false
    case FallingBack(_, _) => false
    case Finished(o) => s.cell.value.value == Terminal(o)
    case _ => true
  }

  lemma {:induction false} CalmRuns(born: nat, r: Run)
    requires 0 < born && Calm(r)
    ensures CalmInv(born, End(born, r), ClaimIssued(born, r))
  {
    if r.Then? {
      var p := End(born, r.before);
      CalmRuns(born, r.before);
      EveryRunKeepsInv(born, r.before);
      if Enabled(p, r.step) {
        CalmStep(born, p, r.step, ClaimIssued(born, r.before));
      }
    }
  }

  lemma CalmStep(born: nat, s: State, step: Step, issued: bool)
    requires Inv(born, s) && Enabled(s, step) && CalmInv(born, s, issued) && Calm(Then(Start, step))
    ensures CalmInv(born, Apply(s, step), issued || step.Claim?)
  {
    var s' := Apply(s, step);
    forall a | a in s'.attempts ensures CalmPc(s', s'.attempts[a]) {
      if Holds(s', a) {
        HolderBefore(born, s, step, a);
        if step.Report? {
          assert Holds(s, step.a);
        }
      }
    }
    if issued {
      var a :| Holds(s, a);
      assert Holds(s', a);
    } else if step.Claim? {
      assert Holds(s', step.a);
    }
  }

  /** Without errors and deletions exactly one attempt wins as soon as any issues its claim, and once
      that attempt has finished, the key holds the outcome of its execution. */
  lemma ExactlyOneWinner(born: nat, r: Run) returns (w: Attempt)
    requires 0 < born && Calm(r) && ClaimIssued(born, r)
    ensures var s := End(born, r);
            && Holds(s, w)
            && (forall a :: Holds(s, a) ==> a == w)
            && (s.attempts[w].Finished? ==> s.cell.Some? && s.cell.value.value == Terminal(s.attempts[w].outcome))
  {
    var s := End(born, r);
    CalmRuns(born, r);
    EveryRunKeepsInv(born, r);
    w :| Holds(s, w);
  }

  /** While the key was still pending, a request in flight reached it or the key was deleted. Only a
      claim reported as failed can be in flight then. */
  ghost predicate Lost(born: nat, r: Run) {
    r.Then? && (
      || Lost(born, r.before)
      || (IsPending(End(born, r.before)) && Enabled(End(born, r.before), r.step) && (r.step.Land? || r.step.Delete?)))
  }

  /** Nobody executes the task, now or later: the key is gone or RUNNING and no attempt has acquired it. */
  ghost predicate Stranded(s: State) {
    && (s.cell.None? || s.cell.value.value == Running)
    && s.executions == 0
    && !Someone(s)
  }

  /** Over every run the task is stranded if and only if a claim that was reported as failed still took
      effect, or the key was deleted, before any attempt acquired it; otherwise the key is still pending
      or somebody has the task. Failed reads, failed reports and claims that never land do no harm. */
  lemma {:induction false} StrandedIff(born: nat, r: Run)
    requires 0 < born
    ensures Lost(born, r) <==> !IsPending(End(born, r)) && !Someone(End(born, r))
    ensures Lost(born, r) ==> Stranded(End(born, r))
  {
    if r.Then? {
      var p := End(born, r.before);
      StrandedIff(born, r.before);
      EveryRunKeepsInv(born, r.before);
      if Enabled(p, r.step) {
        if Lost(born, r.before) {
          StrandedStep(born, p, r.step);
        } else if Someone(p) {
          SomeoneStays(born, p, r.step);
        } else {
          PendingStep(born, p, r.step);
        }
      }
    }
  }

  lemma SomeoneStays(born: nat, s: State, step: Step)
    requires Inv(born, s) && Enabled(s, step) && Someone(s)
    ensures Someone(Apply(s, step)) && !IsPending(s) && !IsPending(Apply(s, step))
  {
    var a :| Holds(s, a);
    assert Holds(Apply(s, step), a);
    StepKeepsInv(born, s, step);
  }

  /** From a pending key that nobody has acquired a step leads to another such, to a winner, or, by a
      request in flight or a deletion, to a stranded task. */
  lemma PendingStep(born: nat, s: State, step: Step)
    requires Inv(born, s) && Enabled(s, step) && IsPending(s) && !Someone(s)
    ensures var s' := Apply(s, step);
            if step.Land? || step.Delete? then Stranded(s')
            else if step.Claim? && !IsPending(s') then Someone(s')
            else IsPending(s') && !Someone(s')
  {
    var s' := Apply(s, step);
    NobodyTerminal(born, s);
    if step.Claim? {
      if !IsPending(s') {
        assert Holds(s', step.a);
      }
    }
    if !(step.Claim? && !IsPending(s')) {
      forall w ensures !Holds(s', w) {
        if Holds(s', w) {
          HolderBefore(born, s, step, w);
        }
      }
    }
  }

  /** While nobody has acquired the task there is no terminal value anywhere. */
  lemma NobodyTerminal(born: nat, s: State)
    requires Inv(born, s) && !Someone(s)
    ensures s.executions == 0
    ensures forall r :: r in s.inFlight ==> r == CasPut(Running, born)
    ensures forall w :: w in s.attempts ==> !s.attempts[w].Acquired()
  {
    forall a, o ensures !DecidedBy(s, a, o) {
      assert !Holds(s, a);
    }
    forall r | r in s.inFlight ensures r == CasPut(Running, born) {
      assert RequestInv(born, r);
      if r.value.Terminal? {
        assert Carries(s, r.value.outcome);
      }
    }
    forall w | w in s.attempts ensures !s.attempts[w].Acquired() {
      assert !Holds(s, w);
    }
  }

  lemma StrandedStep(born: nat, s: State, step: Step)
    requires Inv(born, s) && Enabled(s, step) && Stranded(s)
    ensures Stranded(Apply(s, step))
  {
    var s' := Apply(s, step);
    NobodyTerminal(born, s);
    forall w ensures !Holds(s', w) {
      if Holds(s', w) {
        HolderBefore(born, s, step, w);
      }
    }
  }

  ghost function StrandingRun(born: nat, a: Attempt): Run {
    Then(Then(Then(Then(Start, Begin(a)), Read(a)), ClaimFails(a)), Land(CasPut(Running, born)))
  }

  /** Such a run exists: a claim is applied but reported as failed, so the key is RUNNING and nobody, now
      or later, executes the task, whatever happens next. */
  lemma LostReplyStrandsTask(born: nat, a: Attempt, later: Run)
    requires 0 < born
    requires Continues(StrandingRun(born, a), later)
    ensures Stranded(End(born, later))
    ensures later == StrandingRun(born, a) ==> End(born, later).cell == Some(Cell(Running, born + 1))
  {
    StrandingRunIsLost(born, a);
    LostStays(born, StrandingRun(born, a), later);
    StrandedIff(born, later);
  }

  lemma {:induction false} LostStays(born: nat, earlier: Run, later: Run)
    requires Continues(earlier, later) && Lost(born, earlier)
    ensures Lost(born, later)
  {
    if earlier != later {
      LostStays(born, earlier, later.before);
    }
  }

  lemma StrandingRunIsLost(born: nat, a: Attempt)
    requires 0 < born
    ensures Lost(born, StrandingRun(born, a))
    ensures End(born, StrandingRun(born, a)).cell == Some(Cell(Running, born + 1))
  {
    var begun := Then(Start, Begin(a));
    assert End(born, begun) == Init(born).(attempts := map[a := Reading(0)]);
    var read := Then(begun, Read(a));
    assert map[a := Reading(0)][a := Claiming(0, born)] == map[a := Claiming(0, born)];
    assert End(born, read) == Init(born).(attempts := map[a := Claiming(0, born)]);
    assert map[a := Claiming(0, born)][a := GaveUp] == map[a := GaveUp];
    assert End(born, Then(read, ClaimFails(a)))
        == Init(born).(attempts := map[a := GaveUp], inFlight := {CasPut(Running, born)});
  }
}
