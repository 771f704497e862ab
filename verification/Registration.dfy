/**
 What this address has spent on device registrations, and when it may spend again.

 `BudgetState` is the budget as a value, the form in which the identity store persists
 it; the class `RegistrationBudget` is the record the engine updates in place.
 */
module Registration {
  import opened Wrappers

  const U32_MAX: nat := 0xFFFF_FFFF

  /** The wait, in seconds, after the nth consecutive failed registration. */
  const BACKOFF_STEPS_SECS: seq<nat> := [30, 60, 120, 300, 600, 1800, 3600]

  datatype BudgetState = BudgetState(
    attempts: nat,
    lastAttemptAt: nat,
    nextAttemptAt: nat,
    lastReason: string)

  const CLEAN := BudgetState(0, 0, 0, "")

  /** The ladder's wait after `n` failures in a row; past the last step it stays there. */
  function LadderWait(n: nat): (wait: nat)
    requires n > 0
  {
    if n <= |BACKOFF_STEPS_SECS| then BACKOFF_STEPS_SECS[n - 1] else 3600
  }

  /** The seconds an address must have waited before its attempt number `n + 1`. */
  function LadderTotal(n: nat): nat {
    if n == 0 then 0 else LadderTotal(n - 1) + LadderWait(n)
  }

  predicate MayAttempt(b: BudgetState, now: nat) {
    b.nextAttemptAt <= now
  }

  /** How many failures in a row the next one makes, as the field counts them. */
  function NextAttempts(b: BudgetState): (n: nat)
    ensures n > 0
  {
    if b.attempts < U32_MAX then b.attempts + 1 else U32_MAX
  }

  function Failed(b: BudgetState, now: nat, reason: string, retryAfter: Option<nat>): BudgetState {
    var attempts := NextAttempts(b);
    var step := LadderWait(attempts);
    var wait := if retryAfter.Some? && retryAfter.value > step then retryAfter.value else step;
    BudgetState(attempts, now, now + wait, reason)
  }

  function Succeeded(now: nat): BudgetState {
    BudgetState(0, now, 0, "")
  }

  class RegistrationBudget {
    var attempts: nat
    var lastAttemptAt: nat
    var nextAttemptAt: nat
    var lastReason: string

    function State(): BudgetState
      reads this
    {
      BudgetState(attempts, lastAttemptAt, nextAttemptAt, lastReason)
    }

    constructor ()
      ensures State() == CLEAN
    {
      attempts, lastAttemptAt, nextAttemptAt, lastReason := 0, 0, 0, "";
    }

    /** Refuses while the wait lasts, saying exactly how much of it is left. */
    method TryAttempt(now: nat) returns (r: Result<(), nat>)
      ensures r.Ok? <==> MayAttempt(State(), now)
      ensures r.Err? ==> r.error > 0 && MayAttempt(State(), now + r.error)
      ensures r.Err? ==> forall t :: now <= t < now + r.error ==> !MayAttempt(State(), t)
    {
      if nextAttemptAt > now {
        return Err(nextAttemptAt - now);
      }
      return Ok(());
    }

    method RecordFailure(now: nat, reason: string, retryAfter: Option<nat>)
      modifies this
      ensures State() == Failed(old(State()), now, reason, retryAfter)
    {
      attempts := if attempts < U32_MAX then attempts + 1 else U32_MAX;
      lastAttemptAt := now;
      lastReason := reason;
      var index := if attempts - 1 < |BACKOFF_STEPS_SECS| - 1
                   then attempts - 1 else |BACKOFF_STEPS_SECS| - 1;
      var step := BACKOFF_STEPS_SECS[index];
      var asked := match retryAfter case Some(wait) => wait case None => step;
      nextAttemptAt := now + if asked > step then asked else step;
    }

    method RecordSuccess(now: nat)
      modifies this
      ensures State() == Succeeded(now)
    {
      attempts := 0;
      lastAttemptAt := now;
      nextAttemptAt := 0;
      lastReason := "";
    }
  }

  /** One failing registration: when it started, when its failure was recorded, what it was told. */
  datatype Attempt = Attempt(start: nat, failedAt: nat, reason: string, retryAfter: Option<nat>)

  /** The budget after the first `n` of `attempts` have failed, starting from a clean one. */
  function BudgetAfter(attempts: seq<Attempt>, n: nat): BudgetState
    requires n <= |attempts|
  {
    if n == 0 then CLEAN
    else
      var a := attempts[n - 1];
      Failed(BudgetAfter(attempts, n - 1), a.failedAt, a.reason, a.retryAfter)
  }

  /** Consecutive failures that each waited for the budget, under a clock that never runs back. */
  ghost predicate ObeysBudget(attempts: seq<Attempt>) {
    forall i :: 0 <= i < |attempts| ==> Waited(attempts, i)
  }

  ghost predicate Waited(attempts: seq<Attempt>, i: nat)
    requires i < |attempts|
  {
    && MayAttempt(BudgetAfter(attempts, i), attempts[i].start)
    && attempts[i].start <= attempts[i].failedAt
  }

  lemma {:induction false} AttemptsCounted(attempts: seq<Attempt>, n: nat)
    requires n <= |attempts|
    ensures BudgetAfter(attempts, n).attempts == if n <= U32_MAX then n else U32_MAX
  {
    if n > 0 {
      AttemptsCounted(attempts, n - 1);
    }
  }

  /** Every failure makes the next attempt wait at least the ladder's step. */
  lemma {:induction false} OneWait(attempts: seq<Attempt>, n: nat)
    requires ObeysBudget(attempts)
    requires 0 < n < |attempts|
    ensures attempts[n].start >= attempts[n - 1].start + LadderWait(n)
  {
    AttemptsCounted(attempts, n);
    assert Waited(attempts, n - 1) && Waited(attempts, n);
  }

  /** The k-th attempt starts no earlier than the first plus the ladder's waits in between. */
  lemma {:induction false} RateBound(attempts: seq<Attempt>, n: nat)
    requires ObeysBudget(attempts)
    requires n < |attempts|
    ensures attempts[n].start >= attempts[0].start + LadderTotal(n)
  {
    if n > 0 {
      RateBound(attempts, n - 1);
      OneWait(attempts, n);
    }
  }

  /** From the seventh attempt on, the bound in closed form. */
  lemma {:induction false} LadderClosedForm(n: nat)
    requires n >= 6
    ensures LadderTotal(n) == 2910 + 3600 * (n - 6)
  {
    if n > 6 {
      LadderClosedForm(n - 1);
    } else {
      assert LadderTotal(3) == 210;
      assert LadderTotal(5) == 1110;
    }
  }

  lemma LongRunRate(attempts: seq<Attempt>, k: nat)
    requires ObeysBudget(attempts)
    requires 7 <= k <= |attempts|
    ensures attempts[k - 1].start >= attempts[0].start + 2910 + 3600 * (k - 7)
  {
    RateBound(attempts, k - 1);
    LadderClosedForm(k - 1);
  }

  /**
   An answer from the registrar can lengthen the wait, never shorten it: it is what decides exactly when it is at
   least the ladder's own step, and is passed over when it is shorter.
   */
  lemma RetryAfterDecidesIff(b: BudgetState, now: nat, reason: string, retryAfter: nat)
    ensures var told, untold := Failed(b, now, reason, Some(retryAfter)), Failed(b, now, reason, None);
            && (told.nextAttemptAt == now + retryAfter <==> retryAfter >= LadderWait(NextAttempts(b)))
            && (told == untold <==> retryAfter <= LadderWait(NextAttempts(b)))
            && told.nextAttemptAt >= untold.nextAttemptAt
  {
  }

  /** A first failure answered with one second: the wait is the ladder's thirty, not what the registrar asked for. */
  lemma RetryAfterPassedOver(now: nat, reason: string)
    ensures Failed(CLEAN, now, reason, Some(1)).nextAttemptAt == now + 30
  {
    RetryAfterDecidesIff(CLEAN, now, reason, 1);
  }
}
