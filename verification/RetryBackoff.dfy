/** Retrying a failed task under the default policy: how often it is attempted, and how long it waits.
    The wait is computed in 64-bit nanoseconds, which can wrap around. */
module RetryBackoff {

  const SECOND := 1_000_000_000
  const TWO_63 := 0x8000_0000_0000_0000
  const TWO_64 := 0x1_0000_0000_0000_0000

  function Pow2(n: nat): (p: nat)
    ensures p > 0
  {
    if n == 0 then 1 else 2 * Pow2(n - 1)
  }

  /** Two's complement of 64 bits. */
  function Wrap(x: int): int {
    (x + TWO_63) % TWO_64 - TWO_63
  }

  predicate Fits(x: int) {
    -TWO_63 <= x < TWO_63
  }

  /** The exponential wait before the given retry, in nanoseconds. */
  function BackoffNanos(base: int, retryCount: nat): int {
    Wrap(Wrap(base * SECOND) * Wrap(Pow2(retryCount)))
  }

  /** Whole seconds, towards zero. */
  function Seconds(nanos: int): int {
    if nanos >= 0 then nanos / SECOND else -((-nanos) / SECOND)
  }

  datatype Policy = Policy(maxRetries: int, baseBackoff: int)

  /** waited is the scheduled wait in total; after over nothing more happens to the task. */
  datatype Task = Task(retryCount: nat, attempts: nat, waited: int, over: bool)

  /** Each failure says whether it may be retried. A retry whose payload cannot be written fails the
      workflow instead. */
  datatype Event = Completes | Fails(noRetry: bool, retryWritten: bool)

  function Step(p: Policy, t: Task, e: Event): Task {
    if t.over then t
    else
      match e
      case Completes => t.(over := true)
      case Fails(noRetry, written) =>
        if noRetry || t.retryCount >= p.maxRetries then t.(over := true)
        else
          Task(t.retryCount + 1, if written then t.attempts + 1 else t.attempts,
               t.waited + Seconds(BackoffNanos(p.baseBackoff, t.retryCount)), !written)
  }

  datatype Run = Start | Then(before: Run, event: Event)

  ghost function End(p: Policy, r: Run): Task {
    match r
    case Start => Task(0, 1, 0, false)
    case Then(before, e) => Step(p, End(p, before), e)
  }

  class RetriedTask {
    const maxRetries: int
    const baseBackoff: int
    var retryCount: nat
    var over: bool
    ghost var attempts: nat
    ghost var waited: int

    ghost function Value(): Task
      reads this
    {
      Task(retryCount, attempts, waited, over)
    }

    constructor (maxRetries: int, baseBackoff: int)
      ensures Value() == Task(0, 1, 0, false)
      ensures this.maxRetries == maxRetries && this.baseBackoff == baseBackoff
    {
      this.maxRetries, this.baseBackoff := maxRetries, baseBackoff;
      retryCount, over, attempts, waited := 0, false, 1, 0;
    }

    /** The retry arm of handleTaskFailed, with the RetryTask it starts. */
    method HandleTaskFailed(noRetry: bool, retryWritten: bool) returns (backoffSec: int)
      modifies this
      ensures Value() == Step(Policy(maxRetries, baseBackoff), old(Value()), Fails(noRetry, retryWritten))
      ensures waited == old(waited) + backoffSec
      ensures retryCount == old(retryCount) + 1 <==> !old(over) && !noRetry && old(retryCount) < maxRetries
      ensures over <==> old(over) || noRetry || old(retryCount) >= maxRetries || !retryWritten
    {
      backoffSec := 0;
      if over {
        return;
      }
      if noRetry {
        over := true;
        return;
      }
      if retryCount < maxRetries {
        var backoff := Wrap(Wrap(baseBackoff * SECOND) * Wrap(Pow2(retryCount)));
        backoffSec := Seconds(backoff);
        waited := waited + backoffSec;
        retryCount := retryCount + 1;
        if retryWritten {
          attempts := attempts + 1;
        } else {
          over := true;
        }
      } else {
        over := true;
      }
    }
  }

  // ---------------------------------------------------------------- attempts

  /** Whatever happens, a task is attempted at most once more than its retries allow. */
  lemma {:induction false} AttemptsAreBounded(p: Policy, r: Run)
    ensures var t := End(p, r);
            && t.attempts <= t.retryCount + 1
            && t.retryCount <= (if p.maxRetries < 0 then 0 else p.maxRetries)
  {
    if r.Then? {
      AttemptsAreBounded(p, r.before);
    }
  }

  /** While a task is not over, an event starts one more attempt if and only if it is a failure that may be
      retried, with a retry left, whose payload is written; any other event ends the task. */
  lemma RetriedIff(p: Policy, r: Run, e: Event)
    requires !End(p, r).over
    ensures var t, t' := End(p, r), End(p, Then(r, e));
            && (t'.attempts == t.attempts + 1 <==> e.Fails? && !e.noRetry && e.retryWritten && t.retryCount < p.maxRetries)
            && (t'.over <==> t'.attempts == t.attempts)
            && (t'.attempts > t.attempts ==> t'.attempts == t.attempts + 1 && t'.retryCount == t.retryCount + 1)
  {
  }

  ghost predicate Continues(earlier: Run, later: Run) {
    earlier == later || (later.Then? && Continues(earlier, later.before))
  }

  /** A completion, or a failure that must not be retried, ends the task for good: whatever follows, it is
      not attempted again and no wait is added. */
  lemma {:induction false} EndIsFinal(p: Policy, r: Run, e: Event, later: Run)
    requires e.Completes? || e.noRetry
    requires Continues(Then(r, e), later)
    ensures var t, t' := End(p, r), End(p, later);
            t'.over && t'.attempts == t.attempts && t'.retryCount == t.retryCount && t'.waited == t.waited
  {
    if later != Then(r, e) {
      EndIsFinal(p, r, e, later.before);
    }
  }

  // ---------------------------------------------------------------- the wait

  lemma WrapFits(x: int)
    requires Fits(x)
    ensures Wrap(x) == x
  {
  }

  lemma {:induction false} Pow2Grows(m: nat, n: nat)
    requires m <= n
    ensures Pow2(m) <= Pow2(n)
  {
    if m < n {
      Pow2Grows(m, n - 1);
    }
  }

  lemma MulGrows(a: nat, m: nat, n: nat)
    requires m <= n
    ensures a * m <= a * n
  {
  }

  /** The term of the given retry, computed without bounds. */
  function Term(base: int, retryCount: nat): int {
    base * SECOND * Pow2(retryCount)
  }

  lemma TermsGrow(base: nat, m: nat, n: nat)
    requires m <= n
    ensures 0 <= Term(base, m) <= Term(base, n)
  {
    Pow2Grows(m, n);
    MulGrows(base * SECOND, Pow2(m), Pow2(n));
  }

  /** A term that fits in 63 bits is computed exactly, and is a whole number of seconds. */
  lemma ExactTerm(base: nat, k: nat)
    requires Fits(Term(base, k))
    ensures BackoffNanos(base, k) == Term(base, k)
    ensures Seconds(BackoffNanos(base, k)) == base * Pow2(k)
  {
    if base == 0 {
      assert Term(0, k) == 0;
      assert Wrap(0) == 0 && 0 * Wrap(Pow2(k)) == 0;
    } else {
      TermsGrow(base, 0, k);
      assert Term(base, 0) == base * SECOND;
      WrapFits(base * SECOND);
      assert Pow2(k) <= Term(base, k) by {
        assert 1 <= base * SECOND;
        FactorIsSmaller(Pow2(k), base * SECOND);
      }
      WrapFits(Pow2(k));
      WrapFits(Term(base, k));
    }
    assert Term(base, k) == (base * Pow2(k)) * SECOND by {
      Regroup(base, Pow2(k));
    }
  }

  lemma FactorIsSmaller(a: nat, b: int)
    requires 1 <= b
    ensures a <= b * a
  {
  }

  lemma Regroup(a: int, b: int)
    ensures a * SECOND * b == (a * b) * SECOND
  {
  }

  /** All waits are computed exactly if and only if the largest one fits in 63 bits. */
  lemma AllTermsExactIff(base: nat, maxRetries: nat)
    requires maxRetries > 0
    ensures (forall k :: 0 <= k < maxRetries ==> BackoffNanos(base, k) == Term(base, k)) <==> Fits(Term(base, maxRetries - 1))
  {
    if Fits(Term(base, maxRetries - 1)) {
      forall k | 0 <= k < maxRetries ensures BackoffNanos(base, k) == Term(base, k) {
        TermsGrow(base, k, maxRetries - 1);
        ExactTerm(base, k);
      }
    } else {
      assert Fits(BackoffNanos(base, maxRetries - 1));
    }
  }

  lemma TermSum(base: int, k: nat)
    ensures base * (Pow2(k) - 1) + base * Pow2(k) == base * (Pow2(k + 1) - 1)
  {
    assert Pow2(k + 1) == 2 * Pow2(k);
  }

  /** If the largest wait fits in 63 bits, a task that has been retried k times has waited exactly
      base * (2^k - 1) seconds, which is at most base * (2^maxRetries - 1). */
  lemma {:induction false} WaitIsExact(p: Policy, r: Run)
    requires 0 <= p.baseBackoff && 0 < p.maxRetries && Fits(Term(p.baseBackoff, p.maxRetries - 1))
    ensures var t := End(p, r);
            && t.retryCount <= p.maxRetries
            && t.waited == p.baseBackoff * (Pow2(t.retryCount) - 1)
            && t.waited <= p.baseBackoff * (Pow2(p.maxRetries) - 1)
  {
    match r
    case Start =>
      MulGrows(p.baseBackoff, 0, Pow2(p.maxRetries) - 1);
    case Then(before, e) =>
      WaitIsExact(p, before);
      var t := End(p, before);
      if t.retryCount < p.maxRetries {
        TermsGrow(p.baseBackoff, t.retryCount, p.maxRetries - 1);
        ExactTerm(p.baseBackoff, t.retryCount);
        TermSum(p.baseBackoff, t.retryCount);
        assert p.baseBackoff * (Pow2(t.retryCount + 1) - 1) <= p.baseBackoff * (Pow2(p.maxRetries) - 1) by {
          Pow2Grows(t.retryCount + 1, p.maxRetries);
          MulGrows(p.baseBackoff, Pow2(t.retryCount + 1) - 1, Pow2(p.maxRetries) - 1);
        }
      }
  }

  ghost function FailingTimes(n: nat): Run {
    if n == 0 then Start else Then(FailingTimes(n - 1), Fails(false, true))
  }

  /** A task that keeps failing uses all its retries: the bounds are reached. */
  lemma {:induction false} AllRetriesAreUsed(p: Policy, n: nat)
    requires n <= p.maxRetries
    ensures var t := End(p, FailingTimes(n));
            t.retryCount == n && t.attempts == n + 1 && !t.over
    ensures End(p, FailingTimes(n + 1)).over <==> n == p.maxRetries
  {
    if n > 0 {
      AllRetriesAreUsed(p, n - 1);
    }
  }

  /** Beyond 63 bits the wait is wrong: the thirty-fifth retry with a base of one second does not wait
      five centuries but is due at once, its computed wait being negative. */
  lemma LongWaitWraps()
    ensures !Fits(Term(1, 34)) && Seconds(BackoffNanos(1, 34)) < 0
  {
    ThirtyFourthPower();
    WrapFits(1 * SECOND);
    WrapFits(Pow2(34));
    assert Wrap(17_179_869_184_000_000_000) == -1_266_874_889_709_551_616;
  }

  lemma ThirtyFourthPower()
    ensures Pow2(34) == 17_179_869_184
  {
    assert Pow2(8) == 256;
    Pow2Adds(8, 8);
    Pow2Adds(16, 16);
    Pow2Adds(32, 2);
  }

  lemma {:induction false} Pow2Adds(m: nat, n: nat)
    ensures Pow2(m + n) == Pow2(m) * Pow2(n)
  {
    if n > 0 {
      Pow2Adds(m, n - 1);
      Double(Pow2(m), Pow2(n - 1));
    }
  }

  lemma Double(a: int, b: int)
    ensures a * (2 * b) == 2 * (a * b)
  {
  }
}
