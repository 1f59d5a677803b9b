/** The circuit breaker: closed until enough failures in a row, then open, letting one probe through per
    cool-down. The clock's readings are inputs; a run is the log of all calls. */
module Breaker {

  datatype State = Closed | Open | HalfOpen

  datatype Status = Status(state: State, consecutiveFails: nat, lastStateChange: int)

  datatype Config = Config(maxFailures: int, cooldown: int, created: int)

  datatype Call = Allow(now: int) | Success(now: int) | Failure(now: int)

  datatype Run = Start | Then(before: Run, call: Call)

  predicate Admits(c: Config, s: Status, now: int) {
    s.state == Closed || (s.state == Open && now - s.lastStateChange >= c.cooldown)
  }

  function Step(c: Config, s: Status, call: Call): Status {
    match call
    case Allow(now) =>
      if s.state == Open && Admits(c, s, now) then s.(state := HalfOpen, lastStateChange := now) else s
    case Success(now) =>
      if s.state != Closed then Status(Closed, 0, now) else s.(consecutiveFails := 0)
    case Failure(now) =>
      var s' := s.(consecutiveFails := s.consecutiveFails + 1);
      if s.state == HalfOpen || (s.state == Closed && s.consecutiveFails + 1 >= c.maxFailures)
      then s'.(state := Open, lastStateChange := now) else s'
  }

  ghost function End(c: Config, r: Run): Status {
    match r
    case Start => Status(Closed, 0, c.created)
    case Then(before, call) => Step(c, End(c, before), call)
  }

  class CircuitBreaker {
    const maxFailures: int
    const cooldownInterval: int
    ghost const created: int
    var state: State
    var consecutiveFails: nat
    var lastStateChange: int
    ghost var run: Run

    ghost function Setting(): Config {
      Config(maxFailures, cooldownInterval, created)
    }

    ghost predicate Valid()
      reads this
    {
      Status(state, consecutiveFails, lastStateChange) == End(Setting(), run)
    }

    constructor (maxFailures: int, cooldown: int, now: int)
      ensures Valid() && run == Start
      ensures Setting() == Config(maxFailures, cooldown, now)
    {
      this.maxFailures, cooldownInterval, created := maxFailures, cooldown, now;
      state, consecutiveFails, lastStateChange := Closed, 0, now;
      run := Start;
    }

    method Allow(now: int) returns (ok: bool)
      requires Valid()
      modifies this
      ensures Valid() && run == Then(old(run), Call.Allow(now))
      ensures ok == Admits(Setting(), End(Setting(), old(run)), now)
    {
      run := Then(run, Call.Allow(now));
      match state {
        case Closed =>
          return true;
        case Open =>
          if now - lastStateChange >= cooldownInterval {
            state := HalfOpen;
            lastStateChange := now;
            return true;
          }
          return false;
        case HalfOpen =>
          return false;
      }
    }

    method Success(now: int)
      requires Valid()
      modifies this
      ensures Valid() && run == Then(old(run), Call.Success(now))
    {
      run := Then(run, Call.Success(now));
      consecutiveFails := 0;
      if state != Closed {
        state := Closed;
        lastStateChange := now;
      }
    }

    method Failure(now: int)
      requires Valid()
      modifies this
      ensures Valid() && run == Then(old(run), Call.Failure(now))
    {
      run := Then(run, Call.Failure(now));
      consecutiveFails := consecutiveFails + 1;
      if state == HalfOpen {
        state := Open;
        lastStateChange := now;
        return;
      }
      if state == Closed && consecutiveFails >= maxFailures {
        state := Open;
        lastStateChange := now;
      }
    }
  }

  // ---------------------------------------------------------------- when the breaker is closed

  ghost function FailuresSinceSuccess(r: Run): nat {
    match r
    case Start => 0
    case Then(before, call) =>
      match call
      case Allow(_) => FailuresSinceSuccess(before)
      case Success(_) => 0
      case Failure(_) => FailuresSinceSuccess(before) + 1
  }

  function Threshold(c: Config): nat {
    if c.maxFailures < 1 then 1 else c.maxFailures
  }

  /** After every log of calls the breaker is closed exactly when the failures since the last success
      number fewer than the configured maximum, and fewer than one if that is not positive. */
  lemma {:induction false} ClosedIff(c: Config, r: Run)
    ensures End(c, r).state == Closed <==> FailuresSinceSuccess(r) < Threshold(c)
    ensures End(c, r).consecutiveFails == FailuresSinceSuccess(r)
  {
    if r.Then? {
      ClosedIff(c, r.before);
    }
  }

  // ---------------------------------------------------------------- probes

  /** The log only asks, and reports nothing, after an earlier moment. */
  ghost predicate OnlyAsks(earlier: Run, later: Run) {
    earlier == later || (later.Then? && later.call.Allow? && OnlyAsks(earlier, later.before))
  }

  /** The log's last call asked while the breaker was not closed, and was let through. */
  ghost predicate Probes(c: Config, r: Run) {
    r.Then? && r.call.Allow? && End(c, r.before).state != Closed && Admits(c, End(c, r.before), r.call.now)
  }

  /** After a probe nothing is admitted, at any time, until a success or failure is reported. */
  lemma {:induction false} NothingAfterProbe(c: Config, probe: Run, later: Run, now: int)
    requires Probes(c, probe) && OnlyAsks(probe, later)
    ensures !Admits(c, End(c, later), now)
    ensures End(c, later).state == HalfOpen
  {
    if later != probe {
      NothingAfterProbe(c, probe, later.before, later.call.now);
    }
  }

  /** The log's last call is the failure that opened the breaker: the one that reached the maximum, or the
      first report behind a probe. */
  ghost predicate Opens(c: Config, r: Run) {
    && r.Then? && r.call.Failure?
    && (FailuresSinceSuccess(r) == Threshold(c) || exists probe :: Probes(c, probe) && OnlyAsks(probe, r.before))
  }

  /** Since it opened there were only further failures, and questions asked before the cool-down was over. */
  ghost predicate Cooling(c: Config, trip: Run, later: Run)
    requires trip.Then?
  {
    || later == trip
    || (later.Then? && Cooling(c, trip, later.before)
        && (later.call.Failure? || (later.call.Allow? && later.call.now - trip.call.now < c.cooldown)))
  }

  /** An open breaker admits a call, as a probe, if and only if the cool-down since it last opened is over.
      Late failures do not prolong it. */
  lemma {:induction false} CoolDownDecides(c: Config, trip: Run, later: Run, now: int)
    requires Opens(c, trip) && Cooling(c, trip, later)
    ensures Admits(c, End(c, later), now) <==> now - trip.call.now >= c.cooldown
    ensures Probes(c, Then(later, Allow(now))) <==> now - trip.call.now >= c.cooldown
    ensures End(c, later).state == Open && End(c, later).lastStateChange == trip.call.now
  {
    if later != trip {
      CoolDownDecides(c, trip, later.before, later.call.now);
    } else {
      ClosedIff(c, trip.before);
      if probe :| Probes(c, probe) && OnlyAsks(probe, trip.before) {
        NothingAfterProbe(c, probe, trip.before, now);
      }
    }
  }

  /** Below the threshold every call is admitted, and not as a probe. */
  lemma ClosedAdmits(c: Config, r: Run, now: int)
    requires FailuresSinceSuccess(r) < Threshold(c)
    ensures Admits(c, End(c, r), now) && !Probes(c, Then(r, Allow(now)))
  {
    ClosedIff(c, r);
  }

  ghost predicate ClockRuns(c: Config, r: Run) {
    r.Then? ==> ClockRuns(c, r.before) && Latest(c, r.before) <= r.call.now
  }

  ghost function Latest(c: Config, r: Run): int {
    if r.Start? then c.created else r.call.now
  }

  /** Since the last success: when the breaker opened, and when each probe was let through. */
  ghost function Opening(c: Config, r: Run): seq<int> {
    match r
    case Start => []
    case Then(before, call) =>
      var s := End(c, before);
      match call
      case Allow(now) => if Probes(c, r) then Opening(c, before) + [now] else Opening(c, before)
      case Success(_) => []
      case Failure(now) =>
        if s.state == Closed && End(c, r).state == Open then [now] else Opening(c, before)
  }

  ghost predicate Apart(times: seq<int>, cooldown: int) {
    forall i :: 0 <= i < |times| - 1 ==> times[i + 1] - times[i] >= cooldown
  }

  /** The opening and all probes since then are pairwise consecutive at least a cool-down apart. */
  lemma {:induction false} ProbesAreApart(c: Config, r: Run)
    requires ClockRuns(c, r)
    ensures var s, times := End(c, r), Opening(c, r);
            && Apart(times, c.cooldown)
            && (s.state == Closed <==> times == [])
            && s.lastStateChange <= Latest(c, r)
            && (times != [] ==> times[|times| - 1] <= s.lastStateChange)
  {
    if r.Then? {
      ProbesAreApart(c, r.before);
    }
  }

  lemma {:induction false} ApartAdds(times: seq<int>, cooldown: int, i: nat, j: nat)
    requires Apart(times, cooldown) && i <= j < |times|
    ensures times[j] - times[i] >= (j - i) * cooldown
    decreases j - i
  {
    if i < j {
      ApartAdds(times, cooldown, i, j - 1);
      assert times[(j - 1) + 1] - times[j - 1] >= cooldown;
      assert (j - i) * cooldown == (j - 1 - i) * cooldown + cooldown;
    }
  }

  /** Without a success in between, a window of time sees at most its length over the cool-down, plus
      one, of the opening and the probes: if it sees the i-th to the j-th, j - i cool-downs fit into it. */
  lemma ProbesInWindow(c: Config, r: Run, i: nat, j: nat, from: int, to: int)
    requires ClockRuns(c, r) && i <= j < |Opening(c, r)|
    requires from <= Opening(c, r)[i] && Opening(c, r)[j] <= to
    ensures (j - i) * c.cooldown <= to - from
  {
    ProbesAreApart(c, r);
    ApartAdds(Opening(c, r), c.cooldown, i, j);
  }
}
