/** What one delivery to the primary provider comes to, and what a row of failures does to the breaker. */
module AiRoutingOutcomes {
  import opened AiRouting

  // ---------------------------------------------------------------- the breaker

  function AllFail(b: Breaker, settings: Settings, times: seq<Time>): Breaker {
    if times == [] then b else Failed(AllFail(b, settings, times[..|times| - 1]), settings, times[|times| - 1])
  }

  /**
   * A closed breaker opens exactly with the failure that makes up the threshold, counted from the last success, and
   * from then on refuses every attempt until its time to rest is over.
   */
  lemma {:induction false} OpensExactlyAtTheThreshold(b: Breaker, settings: Settings, times: seq<Time>)
    requires b.circuit == Closed && b.failures < settings.threshold
    ensures var t := AllFail(b, settings, times);
      && t.failures == b.failures + |times|
      && (t.circuit == Closed <==> b.failures + |times| < settings.threshold)
      && (t.circuit != Closed ==>
            var opening := settings.threshold - b.failures - 1;
            && t.circuit == Open && t.openedAt == times[opening]
            && forall at :: MayAttempt(t, settings, at) <==> at >= times[opening] + settings.resetMs)
  {
    if times != [] { OpensExactlyAtTheThreshold(b, settings, times[..|times| - 1]); }
  }

  // ---------------------------------------------------------------- one delivery

  /** The breaker lets the delivery through: closed, or rested, or half open with no probe on its way. */
  predicate LetThrough(b: Breaker, settings: Settings, at: Time) {
    match b.circuit
    case Closed => true
    case Open => at >= b.openedAt + settings.resetMs
    case HalfOpen => !b.probing
  }

  predicate IsBilled(ledger: seq<Row>, key: nat) { exists r :: r in ledger && r.key == key && r.phase == Commit }

  /** The breaker after an answer to a delivery that was let through, at its outset, as a probe or not. */
  function AfterAnswer(b: Breaker, settings: Settings, success: bool, at: Time): Breaker {
    if success then Breaker(Closed, 0, b.openedAt, false)
    else if b.circuit != Closed then Breaker(Open, b.failures, at, false)
    else Breaker(if b.failures + 1 >= settings.threshold then Open else Closed, b.failures + 1,
                 if b.failures + 1 >= settings.threshold then at else b.openedAt, false)
  }

  function Delivery(
      k: nat, key: nat, at: Time, modelKnown: bool, holdFails: bool, success: bool, answeredAt: Time, settleFails: bool)
      : seq<Step>
  {
    [Gate(k, key, at, modelKnown), Hold(k, holdFails), Answer(k, success, answeredAt), Settle(k, settleFails)]
  }

  lemma RunOfFour(s: State, settings: Settings, a: Step, b: Step, c: Step, d: Step)
    ensures
      var s1 := Next(s, settings, a).state;
      var s2 := Next(s1, settings, b).state;
      var s3 := Next(s2, settings, c).state;
      After(s, settings, [a, b, c, d]) == Next(s3, settings, d).state
  {
    var s1 := Next(s, settings, a).state;
    var s2 := Next(s1, settings, b).state;
    var s3 := Next(s2, settings, c).state;
    assert [a, b, c, d][1..] == [b, c, d] && [b, c, d][1..] == [c, d] && [c, d][1..] == [d] && [d][1..] == [];
    assert After(s3, settings, [d]) == Next(s3, settings, d).state;
    assert After(s2, settings, [c, d]) == After(s3, settings, [d]);
    assert After(s1, settings, [b, c, d]) == After(s2, settings, [c, d]);
  }

  /** Turned away at the breaker, for want of a model or of a reservation: nobody is asked and nothing is written. */
  lemma {:induction false} TurnedAway(
      s: State, settings: Settings, k: nat, key: nat, at: Time, modelKnown: bool, holdFails: bool, success: bool,
      answeredAt: Time, settleFails: bool)
    requires k !in s.calls
    requires !LetThrough(s.breaker, settings, at) || !modelKnown || holdFails || IsBilled(s.ledger, key)
    ensures
      var t := After(s, settings, Delivery(k, key, at, modelKnown, holdFails, success, answeredAt, settleFails));
      t == s.(breaker := if LetThrough(s.breaker, settings, at) && s.breaker.circuit != Closed
                         then s.breaker.(circuit := HalfOpen, probing := true) else s.breaker)
  {
    var gate := Gate(k, key, at, modelKnown);
    RunOfFour(s, settings, gate, Hold(k, holdFails), Answer(k, success, answeredAt), Settle(k, settleFails));
    var s1 := Next(s, settings, gate).state;
    var s2 := Next(s1, settings, Hold(k, holdFails)).state;
    assert IsBilled(s.ledger, key) ==> IsCommitted(s1.ledger, key);
    assert k !in s2.calls && s2.calls == s.calls;
    assert Next(s2, settings, Answer(k, success, answeredAt)).state == s2;
    assert Next(s2, settings, Settle(k, settleFails)).state == s2;
  }

  /**
   * A delivery that gets through asks the vendor once, holding the budget before and settling it after: billed if the
   * vendor served it, released if not. The breaker counts the answer.
   */
  lemma {:induction false} GotThrough(
      s: State, settings: Settings, k: nat, key: nat, at: Time, success: bool, answeredAt: Time, settleFails: bool)
    requires k !in s.calls && (forall r :: r in s.ledger ==> r.request < s.requests)
    requires LetThrough(s.breaker, settings, at) && !IsBilled(s.ledger, key)
    ensures
      var t := After(s, settings, Delivery(k, key, at, true, false, success, answeredAt, settleFails));
      var held := s.ledger + [Row(s.requests, key, Reserve)];
      t == State(
        AfterAnswer(s.breaker, settings, success, answeredAt),
        if settleFails then held else held + [Row(s.requests, key, if success then Commit else Release)],
        s.requests + 1, s.calls, s.asked + [key])
  {
    var gate, hold, answer, settle := Gate(k, key, at, true), Hold(k, false), Answer(k, success, answeredAt),
      Settle(k, settleFails);
    RunOfFour(s, settings, gate, hold, answer, settle);
    forall i | 0 <= i < |s.ledger| ensures s.ledger[i] in s.ledger { }
    assert !IsCommitted(s.ledger, key);
    var s1 := Next(s, settings, gate).state;
    var s2 := Next(s1, settings, hold).state;
    var held := s.ledger + [Row(s.requests, key, Reserve)];
    assert s2.ledger == held && s2.calls[k] == Asking(s.requests, key);
    HeldIsOpen(s.ledger, s.requests, key);
    var s3 := Next(s2, settings, answer).state;
    assert s3.calls[k] == Settling(s.requests, key, success) && s3.calls - {k} == s.calls;
  }

  lemma HeldIsOpen(ledger: seq<Row>, request: nat, key: nat)
    requires (forall r :: r in ledger ==> r.request < request) && !IsCommitted(ledger, key)
    ensures
      var held := ledger + [Row(request, key, Reserve)];
      !IsTerminal(held, request) && !IsCommitted(held, key)
  {
    var held := ledger + [Row(request, key, Reserve)];
    forall i | 0 <= i < |held| && held[i].phase != Reserve ensures held[i] in ledger && held[i] == ledger[i] { }
  }

  /** A delivery is served exactly when the vendor answered it, and falls back wherever it is stopped. */
  lemma RepliesExactlyWhen(s: State, settings: Settings, step: Step)
    requires Due(s, step)
    ensures
      var reply := Next(s, settings, step).reply;
      reply == match step
               case Gate(_, _, at, modelKnown) =>
                 if LetThrough(s.breaker, settings, at) && modelKnown then Continues else FallsBack
               case Hold(k, fails) => if fails || IsBilled(s.ledger, s.calls[k].key) then FallsBack else Continues
               case Answer(_, _, _) => Continues
               case Settle(k, _) => if s.calls[k].success then Served else FallsBack
  {
    forall i | 0 <= i < |s.ledger| ensures s.ledger[i] in s.ledger { }
  }
}
