/**
 * Attempts under a wall-clock budget (src/ai/retryWithBackoff.ts). Times are milliseconds; what an
 * attempt answers, how long it takes, the jitter drawn and the lateness of a timer are the world's choice.
 */
module Retry {
  import opened Prelude

  datatype Budget = Budget(maxAttempts: int, perAttemptMs: real, totalMs: real, baseDelayMs: real, maxDelayMs: real)

  const DEFAULT_BUDGET := Budget(3, 8000.0, 20000.0, 250.0, 4000.0)

  /** Attempt `i` under a fuse of `t` ms answers `outcome(i, t)` after `took(i, t)`; sleep `i` ends `lag(i)` late. */
  datatype World<!T, !E> = World(
    outcome: (nat, real) -> Result<T, E>,
    took: (nat, real) -> real,
    jitter: nat -> real,
    lag: nat -> real)

  datatype Try<+T, +E> = Try(startedAt: real, fuse: real, outcome: Result<T, E>, endedAt: real)

  datatype Ending<+T, +E> =
    | Returned(value: T)
    | Threw(error: E)
    | ThrewItsOwn // an error this driver made up because it had none to pass on

  /** What the caller says of an error, and whether there is one at all: a rejection may carry `undefined` or `null`. */
  datatype Rules<!E> = Rules(retryable: E -> bool, missing: E -> bool)

  datatype Run<+T, +E> = Run(tries: seq<Try<T, E>>, ending: Ending<T, E>, finishedAt: real)

  function Min(a: real, b: real): real { if a <= b then a else b }

  function Max(a: real, b: real): real { if a <= b then b else a }

  function PowerOfTwo(i: nat): (p: real)
    ensures p >= 1.0
  {
    if i == 0 then 1.0 else 2.0 * PowerOfTwo(i - 1)
  }

  function Times(a: real, x: real): real { a * x }

  function Cap(b: Budget, i: nat): real { Min(b.maxDelayMs, Times(b.baseDelayMs, PowerOfTwo(i))) }

  /** Full jitter: a random share of a cap that doubles with each failure. */
  function Delay<T, E>(w: World<T, E>, b: Budget, i: nat): real { Times(w.jitter(i), Cap(b, i)) }

  /** An attempt ends when its signal fires, and no timer is more than `slack` ms late. */
  ghost predicate Punctual<T, E>(w: World<T, E>, slack: real) {
    && (forall i: nat, t: real :: 0.0 <= w.took(i, t) <= Max(t, 0.0) + slack)
    && (forall i: nat :: 0.0 <= w.lag(i) <= slack)
    && (forall i: nat :: 0.0 <= w.jitter(i) < 1.0)
  }

  function Attempted<T, E>(w: World<T, E>, b: Budget, i: nat, start: real, now: real): Try<T, E> {
    var fuse := Min(b.perAttemptMs, b.totalMs - (now - start));
    Try(now, fuse, w.outcome(i, fuse), now + w.took(i, fuse))
  }

  /** When attempt `i + 1` may begin, if `one` was attempt `i`; nothing when the failure ends the run. */
  function NextStart<T, E>(
      w: World<T, E>, b: Budget, rules: Rules<E>, i: nat, start: real, one: Try<T, E>): Option<real> {
    if one.outcome.Ok? || i == b.maxAttempts - 1 || !rules.retryable(one.outcome.error) then None
    else if Delay(w, b, i) >= b.totalMs - (one.endedAt - start) then None
    else Some(one.endedAt + Max(Delay(w, b, i), 0.0) + w.lag(i))
  }

  function EndingOf<T, E>(outcome: Result<T, E>): Ending<T, E> {
    match outcome
    case Ok(v) => Returned(v)
    case Err(e) => Threw(e)
  }

  /** The end of a run that may not start another attempt. */
  function Exhausted<T, E>(rules: Rules<E>, last: Option<E>): Ending<T, E> {
    if last.Some? && !rules.missing(last.value) then Threw(last.value) else ThrewItsOwn
  }

  function Then<T, E>(one: Try<T, E>, rest: Run<T, E>): Run<T, E> {
    rest.(tries := [one] + rest.tries)
  }

  /** The run from attempt `i` on, at time `now`, after the failure `last` if there was one. */
  function RunFrom<T, E>(
      w: World<T, E>, b: Budget, rules: Rules<E>, i: nat, start: real, now: real, last: Option<E>): Run<T, E>
    decreases b.maxAttempts - i
  {
    if i >= b.maxAttempts || b.totalMs - (now - start) <= 0.0 then
      Run([], Exhausted(rules, last), now)
    else
      var one := Attempted(w, b, i, start, now);
      match NextStart(w, b, rules, i, start, one)
      case None => Run([one], EndingOf(one.outcome), one.endedAt)
      case Some(wake) => Then(one, RunFrom(w, b, rules, i + 1, start, wake, Some(one.outcome.error)))
  }

  function WholeRun<T, E>(w: World<T, E>, b: Budget, rules: Rules<E>, start: real): Run<T, E> {
    RunFrom(w, b, rules, 0, start, start, None)
  }

  /** The loop of the source, its clock and its last error. */
  method RetryWithBackoff<T, E>(w: World<T, E>, b: Budget, rules: Rules<E>, start: real)
    returns (tries: seq<Try<T, E>>, ending: Ending<T, E>, finishedAt: real)
    ensures Run(tries, ending, finishedAt) == WholeRun(w, b, rules, start)
  {
    var now, last: Option<E>, i := start, None, 0;
    tries := [];
    ghost var whole := WholeRun(w, b, rules, start);
    while i < b.maxAttempts
      invariant 0 <= i
      invariant whole == Prefixed(tries, RunFrom(w, b, rules, i, start, now, last))
      decreases b.maxAttempts - i
    {
      var remaining := b.totalMs - (now - start);
      if remaining <= 0.0 { break; }
      var one := Attempted(w, b, i, start, now);
      OneStep(w, b, rules, i, start, now, last, tries);
      tries := tries + [one];
      now := one.endedAt;
      if one.outcome.Ok? { return tries, Returned(one.outcome.value), now; }
      last := Some(one.outcome.error);
      if i == b.maxAttempts - 1 || !rules.retryable(one.outcome.error) { return tries, Threw(one.outcome.error), now; }
      var delay := Delay(w, b, i);
      if delay >= b.totalMs - (now - start) { return tries, Threw(one.outcome.error), now; }
      now := now + Max(delay, 0.0) + w.lag(i);
      i := i + 1;
    }
    return tries, if last.Some? && !rules.missing(last.value) then Threw(last.value) else ThrewItsOwn, now;
  }

  ghost function Prefixed<T, E>(tries: seq<Try<T, E>>, rest: Run<T, E>): Run<T, E> {
    rest.(tries := tries + rest.tries)
  }

  lemma OneStep<T, E>(
      w: World<T, E>, b: Budget, rules: Rules<E>, i: nat, start: real, now: real, last: Option<E>,
      tries: seq<Try<T, E>>)
    requires i < b.maxAttempts && b.totalMs - (now - start) > 0.0
    ensures
      var one := Attempted(w, b, i, start, now);
      var wake := NextStart(w, b, rules, i, start, one);
      Prefixed(tries, RunFrom(w, b, rules, i, start, now, last)) ==
      (if wake.None? then Run(tries + [one], EndingOf(one.outcome), one.endedAt)
       else Prefixed(tries + [one], RunFrom(w, b, rules, i + 1, start, wake.value, Some(one.outcome.error))))
  {
    var one := Attempted(w, b, i, start, now);
    var wake := NextStart(w, b, rules, i, start, one);
    if wake.Some? {
      var rest := RunFrom(w, b, rules, i + 1, start, wake.value, Some(one.outcome.error));
      assert tries + ([one] + rest.tries) == (tries + [one]) + rest.tries;
    }
  }

  /** The wait drawn lies between nothing and the doubling cap. */
  lemma DelayIsWithinItsCap<T, E>(w: World<T, E>, b: Budget, i: nat)
    requires 0.0 <= w.jitter(i) < 1.0 && b.baseDelayMs >= 0.0 && b.maxDelayMs >= 0.0
    ensures 0.0 <= Delay(w, b, i) <= Cap(b, i)
  {
    AtLeastNothing(b.baseDelayMs, PowerOfTwo(i));
    AShareOf(w.jitter(i), Cap(b, i));
  }

  lemma AtLeastNothing(a: real, x: real)
    requires a >= 0.0 && x >= 0.0
    ensures Times(a, x) >= 0.0
  {
  }

  lemma AShareOf(share: real, cap: real)
    requires 0.0 <= share < 1.0 && cap >= 0.0
    ensures 0.0 <= Times(share, cap) <= cap
  {
    var rest := 1.0 - share;
    AtLeastNothing(share, cap);
    AtLeastNothing(rest, cap);
    assert (share + rest) * cap == share * cap + rest * cap;
  }

  /** Never more attempts than the cap, whatever the world does. */
  lemma {:induction false} AttemptsAreCapped<T, E>(
      w: World<T, E>, b: Budget, rules: Rules<E>, i: nat, start: real, now: real, last: Option<E>)
    ensures |RunFrom(w, b, rules, i, start, now, last).tries| <= if i <= b.maxAttempts then b.maxAttempts - i else 0
    decreases b.maxAttempts - i
  {
    if i < b.maxAttempts && b.totalMs - (now - start) > 0.0 {
      var one := Attempted(w, b, i, start, now);
      var wake := NextStart(w, b, rules, i, start, one);
      if wake.Some? {
        AttemptsAreCapped(w, b, rules, i + 1, start, wake.value, Some(one.outcome.error));
      }
    }
  }

  lemma {:induction false} RunFromEndsInTime<T, E>(
      w: World<T, E>, b: Budget, rules: Rules<E>, i: nat, start: real, now: real, last: Option<E>, slack: real)
    requires Punctual(w, slack) && b.baseDelayMs >= 0.0 && b.maxDelayMs >= 0.0
    requires now - start <= Max(b.totalMs, 0.0) + slack
    ensures RunFrom(w, b, rules, i, start, now, last).finishedAt - start <= Max(b.totalMs, 0.0) + slack
    decreases b.maxAttempts - i
  {
    if i < b.maxAttempts && b.totalMs - (now - start) > 0.0 {
      var one := Attempted(w, b, i, start, now);
      var wake := NextStart(w, b, rules, i, start, one);
      if wake.Some? {
        DelayIsWithinItsCap(w, b, i);
        RunFromEndsInTime(w, b, rules, i + 1, start, wake.value, Some(one.outcome.error), slack);
      }
    }
  }

  /**
   * The whole run is over within the budget, plus the lateness of ONE timer however many attempts ran:
   * every late timer before the last eats into the time that is left.
   */
  lemma WithinTheBudget<T, E>(w: World<T, E>, b: Budget, rules: Rules<E>, start: real, slack: real)
    requires slack >= 0.0 && Punctual(w, slack) && b.baseDelayMs >= 0.0 && b.maxDelayMs >= 0.0
    ensures WholeRun(w, b, rules, start).finishedAt - start <= Max(b.totalMs, 0.0) + slack
  {
    RunFromEndsInTime(w, b, rules, 0, start, start, None, slack);
  }

  /** The driver slept after failure `k`, and woke with no budget left to try again. */
  ghost predicate OversleptAfter<T, E>(
      w: World<T, E>, b: Budget, rules: Rules<E>, k: nat, start: real, one: Try<T, E>) {
    var wake := NextStart(w, b, rules, k, start, one);
    wake.Some? && b.totalMs - (wake.value - start) <= 0.0
  }

  /** Every try but the last failed in a way worth repeating, and the last one is what the caller sees. */
  ghost predicate LastTryDecides<T, E>(run: Run<T, E>, rules: Rules<E>) {
    && run.tries != []
    && (var last := run.tries[|run.tries| - 1].outcome;
        run.ending == EndingOf(last) || (run.ending.ThrewItsOwn? && last.Err? && rules.missing(last.error)))
    && (forall k :: 0 <= k < |run.tries| - 1 ==>
          run.tries[k].outcome.Err? && rules.retryable(run.tries[k].outcome.error))
  }

  /** The last error is replaced exactly when it was nothing at all and the driver had slept on it too long. */
  ghost predicate OwnErrorIsDue<T, E>(w: World<T, E>, b: Budget, rules: Rules<E>, i: nat, start: real, run: Run<T, E>)
    requires run.tries != []
  {
    var k := |run.tries| - 1;
    && run.tries[k].outcome.Err? && rules.missing(run.tries[k].outcome.error)
    && OversleptAfter(w, b, rules, i + k, start, run.tries[k])
  }

  lemma {:induction false} LastTryDecidesFrom<T, E>(
      w: World<T, E>, b: Budget, rules: Rules<E>, i: nat, start: real, now: real, last: Option<E>)
    ensures
      var run := RunFrom(w, b, rules, i, start, now, last);
      if i < b.maxAttempts && b.totalMs - (now - start) > 0.0
      then LastTryDecides(run, rules) && (run.ending.ThrewItsOwn? <==> OwnErrorIsDue(w, b, rules, i, start, run))
      else run.tries == [] && run.ending == Exhausted(rules, last)
    decreases b.maxAttempts - i
  {
    if i < b.maxAttempts && b.totalMs - (now - start) > 0.0 {
      var one := Attempted(w, b, i, start, now);
      var wake := NextStart(w, b, rules, i, start, one);
      if wake.Some? {
        var rest := RunFrom(w, b, rules, i + 1, start, wake.value, Some(one.outcome.error));
        LastTryDecidesFrom(w, b, rules, i + 1, start, wake.value, Some(one.outcome.error));
        OneTryMore(w, b, rules, i, start, one, rest);
      }
    }
  }

  lemma OneTryMore<T, E>(
      w: World<T, E>, b: Budget, rules: Rules<E>, i: nat, start: real, one: Try<T, E>, rest: Run<T, E>)
    requires one.outcome.Err? && rules.retryable(one.outcome.error)
    requires NextStart(w, b, rules, i, start, one).Some?
    requires
      if rest.tries == []
      then OversleptAfter(w, b, rules, i, start, one) && rest.ending == Exhausted(rules, Some(one.outcome.error))
      else LastTryDecides(rest, rules) && (rest.ending.ThrewItsOwn? <==> OwnErrorIsDue(w, b, rules, i + 1, start, rest))
    ensures
      var run := Then(one, rest);
      LastTryDecides(run, rules) && (run.ending.ThrewItsOwn? <==> OwnErrorIsDue(w, b, rules, i, start, run))
  {
    var run := Then(one, rest);
    if rest.tries != [] {
      assert run.tries[|rest.tries|] == rest.tries[|rest.tries| - 1];
      assert i + |rest.tries| == (i + 1) + (|rest.tries| - 1);
    }
    assert forall k :: 1 <= k < |run.tries| ==> run.tries[k] == rest.tries[k - 1];
  }

  /**
   * What the caller gets is what its last attempt gave, its own error included, and that attempt is the only one that
   * may have failed for good. The driver throws an error of its own, which its documentation says it never makes,
   * exactly when the budget admits no attempt at all, or the last one rejected with nothing, was worth repeating, and
   * the sleep after it used the budget up.
   */
  lemma TheLastAttemptSpeaks<T, E>(w: World<T, E>, b: Budget, rules: Rules<E>, start: real)
    ensures
      var run := WholeRun(w, b, rules, start);
      && (run.tries == [] <==> b.maxAttempts <= 0 || b.totalMs <= 0.0)
      && (run.ending.ThrewItsOwn? <==> run.tries == [] || OwnErrorIsDue(w, b, rules, 0, start, run))
      && (run.tries != [] ==> LastTryDecides(run, rules))
  {
    LastTryDecidesFrom(w, b, rules, 0, start, start, None);
  }

  /** Attempts follow one another in time, and no attempt has a longer fuse than the one before it. */
  ghost predicate InOrder<T, E>(tries: seq<Try<T, E>>) {
    forall k :: 0 < k < |tries| ==> tries[k - 1].endedAt <= tries[k].startedAt && tries[k].fuse <= tries[k - 1].fuse
  }

  /** No fuse outlasts the single timeout or what is left of the budget when it is lit. */
  ghost predicate FusesFit<T, E>(tries: seq<Try<T, E>>, b: Budget, start: real) {
    forall k :: 0 <= k < |tries| ==>
      tries[k].fuse <= b.perAttemptMs && tries[k].startedAt + tries[k].fuse <= start + b.totalMs
        && tries[k].startedAt < start + b.totalMs
  }

  lemma {:induction false} FusesShorten<T, E>(
      w: World<T, E>, b: Budget, rules: Rules<E>, i: nat, start: real, now: real, last: Option<E>, slack: real)
    requires Punctual(w, slack)
    ensures
      var tries := RunFrom(w, b, rules, i, start, now, last).tries;
      && InOrder(tries) && FusesFit(tries, b, start)
      && (tries != [] ==> tries[0].startedAt == now && tries[0].fuse == Min(b.perAttemptMs, b.totalMs - (now - start)))
    decreases b.maxAttempts - i
  {
    if i < b.maxAttempts && b.totalMs - (now - start) > 0.0 {
      var one := Attempted(w, b, i, start, now);
      var wake := NextStart(w, b, rules, i, start, one);
      if wake.Some? {
        var rest := RunFrom(w, b, rules, i + 1, start, wake.value, Some(one.outcome.error)).tries;
        FusesShorten(w, b, rules, i + 1, start, wake.value, Some(one.outcome.error), slack);
        OneMoreInFront(one, rest, b, start);
      }
    }
  }

  lemma OneMoreInFront<T, E>(one: Try<T, E>, rest: seq<Try<T, E>>, b: Budget, start: real)
    requires InOrder(rest) && FusesFit(rest, b, start) && FusesFit([one], b, start)
    requires rest != [] ==> one.endedAt <= rest[0].startedAt && rest[0].fuse <= one.fuse
    ensures InOrder([one] + rest) && FusesFit([one] + rest, b, start)
  {
    var all := [one] + rest;
    assert [one][0] == one;
    assert forall k :: 0 < k < |all| ==> all[k] == rest[k - 1];
  }

  /** The run may stop after failure `k` only because of the failure's kind, the cap, or the clock. */
  ghost predicate MayStopAfter<T, E>(w: World<T, E>, b: Budget, rules: Rules<E>, k: nat, start: real, one: Try<T, E>) {
    || one.outcome.Ok?
    || !rules.retryable(one.outcome.error)
    || k + 1 >= b.maxAttempts
    || one.endedAt + Max(Delay(w, b, k), 0.0) + w.lag(k) >= start + b.totalMs
  }

  /** It never gives up while another attempt is allowed and fits. */
  lemma {:induction false} GivesUpOnlyWhenItMust<T, E>(
      w: World<T, E>, b: Budget, rules: Rules<E>, i: nat, start: real, now: real, last: Option<E>, slack: real)
    requires Punctual(w, slack)
    ensures
      var tries := RunFrom(w, b, rules, i, start, now, last).tries;
      tries != [] ==> MayStopAfter(w, b, rules, i + |tries| - 1, start, tries[|tries| - 1])
    decreases b.maxAttempts - i
  {
    if i < b.maxAttempts && b.totalMs - (now - start) > 0.0 {
      var one := Attempted(w, b, i, start, now);
      var wake := NextStart(w, b, rules, i, start, one);
      if wake.Some? {
        var rest := RunFrom(w, b, rules, i + 1, start, wake.value, Some(one.outcome.error));
        GivesUpOnlyWhenItMust(w, b, rules, i + 1, start, wake.value, Some(one.outcome.error), slack);
        assert rest.tries != [] ==> Then(one, rest).tries[|rest.tries|] == rest.tries[|rest.tries| - 1];
      }
    }
  }

  /** Try `k` is what the world answers to it, under the fuse the budget leaves. */
  ghost predicate IsTheWorlds<T, E>(w: World<T, E>, b: Budget, k: nat, start: real, one: Try<T, E>) {
    && one.fuse == Min(b.perAttemptMs, start + b.totalMs - one.startedAt)
    && one.outcome == w.outcome(k, one.fuse) && one.endedAt == one.startedAt + w.took(k, one.fuse)
  }

  /** The pause after failure `k`: a random share of a time that doubles with each failure, up to a most. */
  ghost predicate Paused<T, E>(w: World<T, E>, b: Budget, k: nat, endedAt: real, startedAt: real) {
    var pause := Times(w.jitter(k), Min(b.maxDelayMs, Times(b.baseDelayMs, PowerOfTwo(k))));
    startedAt == endedAt + Max(pause, 0.0) + w.lag(k)
  }

  /** Every try is the world's answer to it, and between two tries lies exactly the pause that was drawn. */
  lemma {:induction false} TriesFollowTheWorld<T, E>(
      w: World<T, E>, b: Budget, rules: Rules<E>, i: nat, start: real, now: real, last: Option<E>)
    ensures
      var tries := RunFrom(w, b, rules, i, start, now, last).tries;
      && (tries != [] ==> tries[0].startedAt == now)
      && (forall k :: 0 <= k < |tries| ==> IsTheWorlds(w, b, i + k, start, tries[k]))
      && (forall k :: 0 <= k < |tries| - 1 ==> Paused(w, b, i + k, tries[k].endedAt, tries[k + 1].startedAt))
    decreases b.maxAttempts - i
  {
    if i < b.maxAttempts && b.totalMs - (now - start) > 0.0 {
      var one := Attempted(w, b, i, start, now);
      var wake := NextStart(w, b, rules, i, start, one);
      if wake.Some? {
        var rest := RunFrom(w, b, rules, i + 1, start, wake.value, Some(one.outcome.error)).tries;
        TriesFollowTheWorld(w, b, rules, i + 1, start, wake.value, Some(one.outcome.error));
        var tries := [one] + rest;
        assert Paused(w, b, i, one.endedAt, wake.value);
        forall k | 0 < k < |tries|
          ensures IsTheWorlds(w, b, i + k, start, tries[k])
          ensures k + 1 < |tries| ==> Paused(w, b, i + k, tries[k].endedAt, tries[k + 1].startedAt)
        {
          assert tries[k] == rest[k - 1] && i + 1 + (k - 1) == i + k;
        }
      }
    }
  }
}
