/** What every run of one admin session keeps, its requests, late writes and marks interleaved in any order. */
module SessionRuns {
  import opened Prelude
  import opened AdminSessions

  /**
   * One session; whether its owner needs a second factor, which is never taken back; the requests let in and not yet
   * answered, with the touches they wait for; and what has happened: requests accepted, confirmations made.
   */
  datatype State = State(
    row: Session,
    required: bool,
    handling: set<nat>,
    touches: map<nat, Time>,
    accepted: seq<Time>,
    confirmed: set<Time>)

  datatype Event =
    | Request(k: nat, now: Time) // read and judged
    | Land(k: nat)               // the touch of a request is written; only then does the request go on
    | MarkMfa(k: nat, at: Time)
    | MarkReauth(k: nat, at: Time)
    | Respond(k: nat)
    | Revoke(at: Time)
    | Require

  /** A sign-in with nothing more to prove counts as confirmed. */
  function Begin(admin: Person, policy: Policy, required: bool, now: Time): State {
    State(Created(admin, policy, !required, now), required, {}, map[], [], if required then {} else {now})
  }

  /** A request past its touch, in the hands of its route. */
  predicate IsInRoute(s: State, k: nat) { k in s.handling && k !in s.touches }

  function LetIn(s: State, k: nat, now: Time): State {
    s.(accepted := s.accepted + [now],
       handling := s.handling + {k},
       touches := if TouchDue(s.row, now) then s.touches[k := now] else s.touches)
  }

  function Next(s: State, policy: Policy, e: Event): State {
    match e
    case Request(k, now) =>
      if k in s.handling || Judge(s.row, policy, s.required, now).Refused? then s else LetIn(s, k, now)
    case Land(k) =>
      if k in s.touches then s.(row := Touched(s.row, s.touches[k]), touches := s.touches - {k}) else s
    case MarkMfa(k, at) =>
      if IsInRoute(s, k)
      then s.(row := s.row.(mfaVerifiedAt := Some(at), reauthAt := Some(at)), confirmed := s.confirmed + {at}) else s
    case MarkReauth(k, at) =>
      if IsInRoute(s, k) then s.(row := s.row.(reauthAt := Some(at)), confirmed := s.confirmed + {at}) else s
    case Respond(k) => if IsInRoute(s, k) then s.(handling := s.handling - {k}) else s
    case Revoke(at) => s.(row := Ended(s.row, at))
    case Require => s.(required := true)
  }

  function After(s: State, policy: Policy, run: seq<Event>): State
    decreases |run|
  {
    if run == [] then s else After(Next(s, policy, run[0]), policy, run[1..])
  }

  lemma AfterOne(s: State, policy: Policy, a: Event)
    ensures After(s, policy, [a]) == Next(s, policy, a)
  {
    assert [a][1..] == [];
  }

  lemma AfterTwo(s: State, policy: Policy, a: Event, b: Event)
    ensures After(s, policy, [a, b]) == Next(Next(s, policy, a), policy, b)
  {
    assert [a, b][1..] == [b];
    AfterOne(Next(s, policy, a), policy, b);
  }

  /** Requests are read in the order of their times, none before `from`. */
  predicate Timely(run: seq<Event>, from: Time) {
    run == [] ||
      (if run[0].Request? then from <= run[0].now && Timely(run[1..], run[0].now) else Timely(run[1..], from))
  }

  function LastUse(s: State): Time { if s.accepted == [] then s.row.createdAt else s.accepted[|s.accepted| - 1] }

  // ---- What is written is what happened ------------------------------------------------------------------

  predicate WasUsed(s: State, t: Time) { t == s.row.createdAt || t in s.accepted }

  ghost predicate Honest(s: State, policy: Policy) {
    && WasUsed(s, s.row.lastSeenAt)
    && (forall k :: k in s.touches ==> k in s.handling && WasUsed(s, s.touches[k]))
    && s.row.absoluteExpiresAt == s.row.createdAt + policy.absoluteMs
    && (s.row.reauthAt.Some? ==> s.row.reauthAt.value in s.confirmed)
    && (s.row.mfaVerifiedAt.Some? ==> s.row.mfaVerifiedAt.value in s.confirmed)
    && (forall t :: t in s.accepted ==> t < s.row.absoluteExpiresAt)
  }

  lemma NextKeepsHonest(s: State, policy: Policy, e: Event)
    requires Honest(s, policy)
    ensures Honest(Next(s, policy, e), policy) && Next(s, policy, e).row.createdAt == s.row.createdAt
    ensures s.confirmed <= Next(s, policy, e).confirmed
  {
  }

  lemma {:induction false} AfterKeepsHonest(s: State, policy: Policy, run: seq<Event>)
    requires Honest(s, policy)
    ensures Honest(After(s, policy, run), policy) && After(s, policy, run).row.createdAt == s.row.createdAt
    decreases |run|
  {
    if run != [] {
      NextKeepsHonest(s, policy, run[0]);
      AfterKeepsHonest(Next(s, policy, run[0]), policy, run[1..]);
    }
  }

  /**
   * At every moment of every run: an accepted request lies within the idle time of an earlier use of the session and
   * before creation plus the absolute lifetime, and a confirmation counts as fresh only if one was really made in time.
   */
  lemma AcceptedOnlyInUse(admin: Person, policy: Policy, required: bool, start: Time, run: seq<Event>, now: Time)
    ensures
      var s := After(Begin(admin, policy, required, start), policy, run);
      && (Judge(s.row, policy, s.required, now).Accepted? ==>
           (exists t :: WasUsed(s, t) && now - t <= policy.idleMs) && now < start + policy.absoluteMs)
      && (ReauthIsFresh(s.row, policy, now) ==> exists t :: t in s.confirmed && now - t <= policy.reauthMs)
      && (forall t :: t in s.accepted ==> t < start + policy.absoluteMs)
  {
    AfterKeepsHonest(Begin(admin, policy, required, start), policy, run);
  }

  // ---- A busy session is never idle ----------------------------------------------------------------------

  /**
   * Nothing older than `lag` is still to be written, and the request comes at most `gap` after the last accepted one.
   */
  predicate IsPrompt(s: State, now: Time, lag: int, gap: int) {
    LastUse(s) <= now <= LastUse(s) + gap && forall k :: k in s.touches ==> now - s.touches[k] <= lag
  }

  /** So it is for every request of the run; requests may overlap, and their touches may land in any order. */
  predicate Steady(s: State, policy: Policy, run: seq<Event>, lag: int, gap: int)
    decreases |run|
  {
    run == [] ||
      ((run[0].Request? ==> IsPrompt(s, run[0].now, lag, gap))
       && Steady(Next(s, policy, run[0]), policy, run[1..], lag, gap))
  }

  /** How far the note of the last use may lag behind when no touch is under way. */
  function Behind(lag: int): int { if lag > TOUCH_INTERVAL_MS - 1 then lag else TOUCH_INTERVAL_MS - 1 }

  /** The longest pause between two uses that never ends the session. */
  function Margin(policy: Policy, lag: int): int { policy.idleMs - lag - Behind(lag) }

  /** The note is at most so far behind the last use, or a touch is under way that was started in time. */
  ghost predicate Noted(s: State, lag: int, gap: int) {
    s.row.revokedAt.None? ==>
      && (forall k :: k in s.touches ==> k in s.handling && LastUse(s) - lag <= s.touches[k] <= LastUse(s))
      && (LastUse(s) - s.row.lastSeenAt <= Behind(lag)
          || exists k :: k in s.touches && s.touches[k] - s.row.lastSeenAt <= Behind(lag) + gap)
  }

  lemma RequestKeepsNoted(s: State, policy: Policy, k: nat, now: Time, lag: int, gap: int)
    requires Noted(s, lag, gap) && IsPrompt(s, now, lag, gap) && 0 <= lag
    ensures Noted(Next(s, policy, Request(k, now)), lag, gap)
  {
    var t := Next(s, policy, Request(k, now));
    if t != s && s.row.revokedAt.None? {
      if TouchDue(s.row, now) && LastUse(s) - s.row.lastSeenAt <= Behind(lag) {
        assert t.touches[k] == now;
      } else if TouchDue(s.row, now) {
        var j :| j in s.touches && s.touches[j] - s.row.lastSeenAt <= Behind(lag) + gap;
        assert j != k && t.touches[j] == s.touches[j];
      }
    }
  }

  lemma NextKeepsNoted(s: State, policy: Policy, e: Event, lag: int, gap: int)
    requires Noted(s, lag, gap) && 0 <= lag && (e.Request? ==> IsPrompt(s, e.now, lag, gap))
    ensures Noted(Next(s, policy, e), lag, gap)
  {
    match e
    case Request(k, now) => RequestKeepsNoted(s, policy, k, now, lag, gap);
    case _ =>
  }

  lemma {:induction false} SteadyIsNeverIdle(s: State, policy: Policy, run: seq<Event>, lag: int, gap: int, i: nat)
    requires Noted(s, lag, gap) && 0 <= lag && gap <= Margin(policy, lag) && Steady(s, policy, run, lag, gap)
    requires i < |run| && run[i].Request?
    ensures
      Judge(After(s, policy, run[..i]).row, policy, After(s, policy, run[..i]).required, run[i].now) != Refused(Idle)
    decreases i
  {
    if i == 0 {
      assert run[..0] == [];
    } else {
      NextKeepsNoted(s, policy, run[0], lag, gap);
      SteadyIsNeverIdle(Next(s, policy, run[0]), policy, run[1..], lag, gap, i - 1);
      assert run[..i][1..] == run[1..][..i - 1];
    }
  }

  /** Whether request `i` of a run finds the session idle. */
  predicate FindsIdle(s: State, policy: Policy, run: seq<Event>, i: nat)
    requires i < |run| && run[i].Request?
  {
    var seen := After(s, policy, run[..i]);
    Judge(seen.row, policy, seen.required, run[i].now) == Refused(Idle)
  }

  /**
   * Although the touch is throttled and late, a session used often enough is never refused as idle, overlapping
   * requests and touches out of order included: if every touch has landed before any request read more than `lag` after
   * it, a pause of `idleMs` less `lag` and less the larger of `lag` and 59,999 milliseconds is short enough.
   */
  lemma BusyIsNeverIdle(admin: Person, policy: Policy, required: bool, start: Time, run: seq<Event>, lag: int, i: nat)
    requires 0 <= lag && Steady(Begin(admin, policy, required, start), policy, run, lag, Margin(policy, lag))
    requires i < |run| && run[i].Request?
    ensures !FindsIdle(Begin(admin, policy, required, start), policy, run, i)
  {
    SteadyIsNeverIdle(Begin(admin, policy, required, start), policy, run, lag, Margin(policy, lag), i);
  }

  lemma {:induction false} SteadyWithMore(s: State, policy: Policy, run: seq<Event>, lag: int, gap: int, more: int)
    requires Steady(s, policy, run, lag, gap) && gap <= more
    ensures Steady(s, policy, run, lag, more)
    decreases |run|
  {
    if run != [] { SteadyWithMore(Next(s, policy, run[0]), policy, run[1..], lag, gap, more); }
  }

  /** Every steady run with pauses up to `gap` is safe from being idle. */
  ghost predicate NeverIdle(admin: Person, policy: Policy, start: Time, lag: int, gap: int) {
    forall run: seq<Event>, i ::
      (0 <= i < |run| && run[i].Request? && Steady(Begin(admin, policy, false, start), policy, run, lag, gap)) ==>
      !FindsIdle(Begin(admin, policy, false, start), policy, run, i)
  }

  /** The margin is exact for every lag: pauses one millisecond longer can end a session in use. */
  lemma NeverIdleExactlyWhen(admin: Person, policy: Policy, start: Time, lag: int, gap: int)
    requires 0 <= lag && policy.idleMs >= 3 * lag + 2 * TOUCH_INTERVAL_MS
    requires policy.absoluteMs > policy.idleMs + 2 * TOUCH_INTERVAL_MS
    ensures NeverIdle(admin, policy, start, lag, gap) <==> gap <= Margin(policy, lag)
  {
    var begin := Begin(admin, policy, false, start);
    if gap <= Margin(policy, lag) {
      forall run: seq<Event>, i | 0 <= i < |run| && run[i].Request? && Steady(begin, policy, run, lag, gap)
        ensures !FindsIdle(begin, policy, run, i)
      {
        SteadyIsNeverIdle(begin, policy, run, lag, gap, i);
      }
    } else {
      var run := TheMarginIsExact(admin, policy, start, lag);
      SteadyWithMore(begin, policy, run, lag, Margin(policy, lag) + 1, gap);
    }
  }

  lemma TheMarginIsExact(admin: Person, policy: Policy, start: Time, lag: int) returns (run: seq<Event>)
    requires 0 <= lag && policy.idleMs >= 3 * lag + 2 * TOUCH_INTERVAL_MS
    requires policy.absoluteMs > policy.idleMs + 2 * TOUCH_INTERVAL_MS
    ensures run != [] && run[|run| - 1].Request?
    ensures Steady(Begin(admin, policy, false, start), policy, run, lag, Margin(policy, lag) + 1)
    ensures FindsIdle(Begin(admin, policy, false, start), policy, run, |run| - 1)
  {
    if lag < TOUCH_INTERVAL_MS {
      run := ThrottledNote(admin, policy, start, lag);
    } else {
      run := NoteTurnedBack(admin, policy, start, lag);
    }
  }

  lemma SteadyStep(s: State, policy: Policy, e: Event, rest: seq<Event>, lag: int, gap: int)
    requires e.Request? ==> IsPrompt(s, e.now, lag, gap)
    requires Steady(Next(s, policy, e), policy, rest, lag, gap)
    ensures Steady(s, policy, [e] + rest, lag, gap)
  {
    assert ([e] + rest)[1..] == rest;
  }

  lemma FindsIdleLater(s: State, policy: Policy, e: Event, rest: seq<Event>, i: nat)
    requires i < |rest| && rest[i].Request? && FindsIdle(Next(s, policy, e), policy, rest, i)
    ensures FindsIdle(s, policy, [e] + rest, i + 1)
  {
    assert ([e] + rest)[..i + 1][1..] == rest[..i];
  }

  lemma OnlyRequest(s: State, policy: Policy, k: nat, now: Time, lag: int, gap: int)
    requires IsPrompt(s, now, lag, gap) && Judge(s.row, policy, s.required, now) == Refused(Idle)
    ensures Steady(s, policy, [Request(k, now)], lag, gap) && FindsIdle(s, policy, [Request(k, now)], 0)
  {
    assert [Request(k, now)][1..] == [] && [Request(k, now)][..0] == [];
  }

  lemma OneMore(s: State, policy: Policy, e: Event, rest: seq<Event>, lag: int, gap: int) returns (run: seq<Event>)
    requires e.Request? ==> IsPrompt(s, e.now, lag, gap)
    requires rest != [] && rest[|rest| - 1].Request?
    requires Steady(Next(s, policy, e), policy, rest, lag, gap)
      && FindsIdle(Next(s, policy, e), policy, rest, |rest| - 1)
    ensures run != [] && run[|run| - 1].Request?
    ensures Steady(s, policy, run, lag, gap) && FindsIdle(s, policy, run, |run| - 1)
  {
    run := [e] + rest;
    SteadyStep(s, policy, e, rest, lag, gap);
    FindsIdleLater(s, policy, e, rest, |rest| - 1);
  }

  /** A request too soon for a touch, one whose touch is under way, and one more just before it lands. */
  lemma ThrottledNote(admin: Person, policy: Policy, start: Time, lag: int) returns (run: seq<Event>)
    requires 0 <= lag < TOUCH_INTERVAL_MS && policy.idleMs >= 3 * lag + 2 * TOUCH_INTERVAL_MS
    requires policy.absoluteMs > policy.idleMs + 2 * TOUCH_INTERVAL_MS
    ensures run != [] && run[|run| - 1].Request?
    ensures Steady(Begin(admin, policy, false, start), policy, run, lag, Margin(policy, lag) + 1)
    ensures FindsIdle(Begin(admin, policy, false, start), policy, run, |run| - 1)
  {
    var gap := Margin(policy, lag) + 1;
    var a := start + TOUCH_INTERVAL_MS - 1;
    var s0 := Begin(admin, policy, false, start);
    var s1 := Next(s0, policy, Request(0, a));
    assert LastUse(s1) == a && s1.touches == map[] && s1.row == s0.row;
    var s2 := Next(s1, policy, Request(1, a + gap));
    assert s2.row == s0.row;
    assert lag == 0 ==> s2 == s1;
    assert lag > 0 ==> LastUse(s2) == a + gap && s2.touches == map[1 := a + gap];
    OnlyRequest(s2, policy, 2, a + gap + lag, lag, gap);
    run := OneMore(s1, policy, Request(1, a + gap), [Request(2, a + gap + lag)], lag, gap);
    run := OneMore(s0, policy, Request(0, a), run, lag, gap);
  }

  /** Two overlapping requests whose touches land in the wrong order, and two more. */
  lemma NoteTurnedBack(admin: Person, policy: Policy, start: Time, lag: int) returns (run: seq<Event>)
    requires TOUCH_INTERVAL_MS <= lag && policy.idleMs >= 3 * lag + 2 * TOUCH_INTERVAL_MS
    requires policy.absoluteMs > policy.idleMs + 2 * TOUCH_INTERVAL_MS
    ensures run != [] && run[|run| - 1].Request?
    ensures Steady(Begin(admin, policy, false, start), policy, run, lag, Margin(policy, lag) + 1)
    ensures FindsIdle(Begin(admin, policy, false, start), policy, run, |run| - 1)
  {
    var gap := Margin(policy, lag) + 1;
    var a := start + TOUCH_INTERVAL_MS;
    var b := a + lag;
    var s0 := Begin(admin, policy, false, start);
    var s1 := Next(s0, policy, Request(0, a));
    assert LastUse(s1) == a && s1.touches == map[0 := a];
    var s2 := Next(s1, policy, Request(1, b));
    assert LastUse(s2) == b && s2.touches == map[0 := a, 1 := b];
    var s3 := Next(s2, policy, Land(1));
    assert s3.touches == map[0 := a];
    var s4 := Next(s3, policy, Land(0));
    assert LastUse(s4) == b && s4.touches == map[] && s4.row == s0.row.(lastSeenAt := a);
    var s5 := Next(s4, policy, Request(2, b + gap));
    assert LastUse(s5) == b + gap && s5.touches == map[2 := b + gap] && s5.row == s4.row;
    OnlyRequest(s5, policy, 3, b + gap + lag, lag, gap);
    run := OneMore(s4, policy, Request(2, b + gap), [Request(3, b + gap + lag)], lag, gap);
    run := OneMore(s3, policy, Land(0), run, lag, gap);
    run := OneMore(s2, policy, Land(1), run, lag, gap);
    run := OneMore(s1, policy, Request(1, b), run, lag, gap);
    run := OneMore(s0, policy, Request(0, a), run, lag, gap);
  }

  /** A touch that lands after a later one turns the note back, and a session used a moment ago is refused as idle. */
  lemma LateTouchTurnsBack(admin: Person, policy: Policy, start: Time)
    requires policy.idleMs >= 2 * TOUCH_INTERVAL_MS && policy.absoluteMs > policy.idleMs + 2 * TOUCH_INTERVAL_MS
    ensures
      var a, b := start + 60_000, start + 120_000;
      var s := After(Begin(admin, policy, false, start), policy, [Request(0, a), Request(1, b)] + [Land(1), Land(0)]);
      && LastUse(s) == b && Judge(s.row, policy, s.required, b + policy.idleMs - 59_999) == Refused(Idle)
  {
    var a, b := start + 60_000, start + 120_000;
    var s0 := Begin(admin, policy, false, start);
    var s1 := Next(s0, policy, Request(0, a));
    var s2 := Next(s1, policy, Request(1, b));
    assert s2.touches == map[0 := a, 1 := b];
    var run := [Request(0, a), Request(1, b)] + [Land(1), Land(0)];
    assert run[1..] == [Request(1, b), Land(1), Land(0)];
    assert run[1..][1..] == [Land(1), Land(0)];
    AfterTwo(s2, policy, Land(1), Land(0));
  }

  // ---- Refused for ever? ---------------------------------------------------------------------------------

  predicate IsRecent(policy: Policy, used: Time, now: Time) { now - used <= policy.idleMs }

  /** A touch recent enough to revive the session is still to be written. */
  predicate TouchWillRevive(s: State, policy: Policy, now: Time) {
    exists k :: k in s.touches && IsRecent(policy, s.touches[k], now)
  }

  /** The second factor does not stand in the way, or a request let in earlier can still prove it. */
  predicate FactorMayPass(s: State, policy: Policy, now: Time) {
    || !s.required || s.row.mfaVerifiedAt.Some? || now - s.row.createdAt <= policy.preMfaMs
    || exists k :: k in s.handling && IsInRoute(s, k)
  }

  /**
   * Neither ended nor expired, and either a recent touch is on its way, or the note is recent and the factor may pass.
   */
  predicate CanComeBack(s: State, policy: Policy, now: Time) {
    && s.row.revokedAt.None?
    && now < s.row.absoluteExpiresAt
    && (TouchWillRevive(s, policy, now) || (IsRecent(policy, s.row.lastSeenAt, now) && FactorMayPass(s, policy, now)))
  }

  lemma DeadStep(s: State, policy: Policy, e: Event, now: Time)
    requires !CanComeBack(s, policy, now) && (e.Request? ==> now <= e.now)
    ensures !CanComeBack(Next(s, policy, e), policy, if e.Request? then e.now else now)
  {
    if e.Request? {
      assert Judge(s.row, policy, s.required, e.now).Refused?;
    }
  }

  lemma {:induction false} DeadStaysDead(s: State, policy: Policy, run: seq<Event>, now: Time, k: nat, later: Time)
    requires !CanComeBack(s, policy, now) && Timely(run + [Request(k, later)], now)
    ensures Judge(After(s, policy, run).row, policy, After(s, policy, run).required, later).Refused?
    decreases |run|
  {
    var whole := run + [Request(k, later)];
    if run == [] {
      assert whole[0] == Request(k, later);
    } else {
      assert whole[0] == run[0] && whole[1..] == run[1..] + [Request(k, later)];
      var from := if run[0].Request? then run[0].now else now;
      DeadStep(s, policy, run[0], now);
      DeadStaysDead(Next(s, policy, run[0]), policy, run[1..], from, k, later);
    }
  }

  /** Some continuation, its requests in the order of their times, ends with a request that would be let in. */
  ghost predicate ComesBack(s: State, policy: Policy, now: Time) {
    exists run, k, later :: Timely(run + [Request(k, later)], now) && WouldPass(After(s, policy, run), policy, later)
  }

  predicate WouldPass(s: State, policy: Policy, now: Time) { Judge(s.row, policy, s.required, now).Accepted? }

  /**
   * In every run: a session is refused for ever from some moment on exactly when it is revoked or expired, or no touch
   * recent enough is on its way and either its note is too old, or the time for the second factor is over and no
   * request let in before is left to prove it.
   */
  lemma RefusedForEverExactlyWhen(
      admin: Person, policy: Policy, required: bool, start: Time, past: seq<Event>, now: Time)
    ensures
      var s := After(Begin(admin, policy, required, start), policy, past);
      ComesBack(s, policy, now) <==> CanComeBack(s, policy, now)
  {
    var s := After(Begin(admin, policy, required, start), policy, past);
    AfterKeepsHonest(Begin(admin, policy, required, start), policy, past);
    if CanComeBack(s, policy, now) {
      var run := RevivingRun(s, policy, now);
      assert Timely(run + [Request(0, now)], now) && WouldPass(After(s, policy, run), policy, now);
    } else {
      forall run, k, later | Timely(run + [Request(k, later)], now)
        ensures !WouldPass(After(s, policy, run), policy, later)
      {
        DeadStaysDead(s, policy, run, now, k, later);
      }
    }
  }

  lemma RevivingRun(s: State, policy: Policy, now: Time) returns (run: seq<Event>)
    requires CanComeBack(s, policy, now) && Honest(s, policy)
    ensures Timely(run + [Request(0, now)], now) && WouldPass(After(s, policy, run), policy, now)
  {
    if TouchWillRevive(s, policy, now) {
      var k :| k in s.touches && IsRecent(policy, s.touches[k], now);
      run := [Land(k), MarkMfa(k, now)];
      AfterTwo(s, policy, Land(k), MarkMfa(k, now));
      OneThenRequest(MarkMfa(k, now), now);
      assert (run + [Request(0, now)])[1..] == [MarkMfa(k, now)] + [Request(0, now)];
    } else if k :| IsInRoute(s, k) {
      run := [MarkMfa(k, now)];
      AfterOne(s, policy, MarkMfa(k, now));
      OneThenRequest(MarkMfa(k, now), now);
    } else {
      run := [];
      assert run + [Request(0, now)] == [Request(0, now)] && [Request(0, now)][1..] == [];
    }
  }

  lemma OneThenRequest(e: Event, now: Time)
    requires !e.Request?
    ensures Timely([e] + [Request(0, now)], now)
  {
    var whole := [e] + [Request(0, now)];
    assert whole[1..] == [Request(0, now)] && whole[1..][1..] == [];
  }

  // ---------------------------------------------------------------- the verdict, told from the run alone

  /** Some request that was let in proved the second factor. */
  predicate Proved(s: State, policy: Policy, run: seq<Event>) {
    exists i :: 0 <= i < |run| && run[i].MarkMfa? && IsInRoute(After(s, policy, run[..i]), run[i].k)
  }

  lemma ProvedByFirst(s: State, policy: Policy, run: seq<Event>)
    requires run != []
    ensures Proved(s, policy, run) <==>
      (run[0].MarkMfa? && IsInRoute(s, run[0].k)) || Proved(Next(s, policy, run[0]), policy, run[1..])
  {
    var next := Next(s, policy, run[0]);
    forall i | 0 < i < |run| ensures After(s, policy, run[..i]) == After(next, policy, run[1..][..i - 1]) {
      assert run[..i][0] == run[0] && run[..i][1..] == run[1..][..i - 1];
    }
    assert run[..0] == [];
    if i :| 0 <= i < |run| && run[i].MarkMfa? && IsInRoute(After(s, policy, run[..i]), run[i].k) {
      if i > 0 { assert run[1..][i - 1] == run[i]; }
    }
    var rest := run[1..];
    if i :| 0 <= i < |rest| && rest[i].MarkMfa? && IsInRoute(After(next, policy, rest[..i]), rest[i].k) {
      assert run[i + 1] == rest[i] && After(s, policy, run[..i + 1]) == After(next, policy, rest[..i]);
    }
  }

  lemma {:induction false} RowTellsTheRun(s: State, policy: Policy, run: seq<Event>)
    ensures
      var t := After(s, policy, run);
      && t.row.admin == s.row.admin && t.row.createdAt == s.row.createdAt
      && t.row.absoluteExpiresAt == s.row.absoluteExpiresAt
      && (t.row.revokedAt == None <==> s.row.revokedAt == None && forall e :: e in run ==> !e.Revoke?)
      && (t.required <==> s.required || Require in run)
      && (t.row.mfaVerifiedAt == None <==> s.row.mfaVerifiedAt == None && !Proved(s, policy, run))
    decreases |run|
  {
    if run != [] {
      ProvedByFirst(s, policy, run);
      RowTellsTheRun(Next(s, policy, run[0]), policy, run[1..]);
    }
  }

  /**
   * In every run: a request is let in exactly if nothing in it revoked the session, its whole time is not over, it was
   * last noted recently enough, and where a second factor is needed it was proved or there is still time to.
   */
  lemma {:induction false} LetInExactlyWhen(
      admin: Person, policy: Policy, required: bool, start: Time, run: seq<Event>, now: Time)
    ensures
      var s := Begin(admin, policy, required, start); var t := After(s, policy, run);
      Judge(t.row, policy, t.required, now).Accepted? <==>
        && (forall e :: e in run ==> !e.Revoke?)
        && now < start + policy.absoluteMs && now <= t.row.lastSeenAt + policy.idleMs
        && (required && !Proved(s, policy, run) ==> now <= start + policy.preMfaMs)
  {
    RowTellsTheRun(Begin(admin, policy, required, start), policy, run);
  }

  /** Once revoked, a session refuses every request for that reason, whatever lands later. */
  lemma {:induction false} RevokedForGood(
      admin: Person, policy: Policy, required: bool, start: Time, run: seq<Event>, at: Time, now: Time)
    requires Revoke(at) in run
    ensures var t := After(Begin(admin, policy, required, start), policy, run);
      Judge(t.row, policy, t.required, now) == Refused(Revoked)
  {
    RowTellsTheRun(Begin(admin, policy, required, start), policy, run);
  }

  /** A confirmation counts from the moment it is made in a request that was let in, for its time; nothing else does. */
  lemma FreshExactlyAfterAConfirmation(s: State, policy: Policy, e: Event, now: Time)
    ensures ReauthIsFresh(Next(s, policy, e).row, policy, now) <==>
      if (e.MarkMfa? || e.MarkReauth?) && e.k in s.handling && e.k !in s.touches then now <= e.at + policy.reauthMs
      else s.row.reauthAt.Some? && now <= s.row.reauthAt.value + policy.reauthMs
  {
  }
}
