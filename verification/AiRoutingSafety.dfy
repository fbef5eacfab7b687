/** Billing at most once per message, and when the breaker never lets anyone through again. */
module AiRoutingSafety {
  import opened AiRouting

  // ---------------------------------------------------------------- the ledger

  /** Requests in flight are reserved, not yet settled, and nobody else's. */
  predicate CallOk(s: State, call: Call) {
    call.Reserving? || (call.request < s.requests && IsReserved(s.ledger, call.request, call.key)
                        && !IsTerminal(s.ledger, call.request))
  }

  predicate OwnRequests(calls: map<nat, Call>) {
    forall j, k :: j in calls && k in calls && j != k && !calls[j].Reserving? && !calls[k].Reserving? ==>
      calls[j].request != calls[k].request
  }

  /** Each outcome follows its reservation; a request has one reservation and one outcome; a key is billed once. */
  predicate LedgerOk(ledger: seq<Row>, requests: nat) {
    && (forall i :: 0 <= i < |ledger| ==> ledger[i].request < requests)
    && (forall i :: 0 <= i < |ledger| && ledger[i].phase != Reserve ==>
          IsReserved(ledger[..i], ledger[i].request, ledger[i].key))
    && (forall i, j :: 0 <= i < j < |ledger| && ledger[i].request == ledger[j].request ==>
          ledger[i].phase == Reserve && ledger[j].phase != Reserve)
    && (forall i, j :: 0 <= i < j < |ledger| && ledger[i].phase == Commit && ledger[j].phase == Commit ==>
          ledger[i].key != ledger[j].key)
  }

  ghost predicate Inv(s: State) {
    && LedgerOk(s.ledger, s.requests)
    && OwnRequests(s.calls)
    && forall k :: k in s.calls ==> CallOk(s, s.calls[k])
  }

  lemma PrefixesStay(ledger: seq<Row>, row: Row)
    ensures forall i :: 0 <= i <= |ledger| ==> (ledger + [row])[..i] == ledger[..i]
  {
  }

  lemma {:induction false} HoldKeeps(s: State, k: nat, fails: bool)
    requires Inv(s) && k in s.calls && s.calls[k].Reserving?
    ensures Inv(HoldBudget(s, k, fails).state)
  {
    var t := HoldBudget(s, k, fails).state;
    if t.ledger != s.ledger {
      PrefixesStay(s.ledger, Row(s.requests, s.calls[k].key, Reserve));
      assert t.ledger[|s.ledger|] == Row(s.requests, s.calls[k].key, Reserve);
    }
    forall j | j in t.calls ensures CallOk(t, t.calls[j]) {
      if j != k { assert CallOk(s, s.calls[j]); }
    }
    forall i, j | i in t.calls && j in t.calls && i != j && !t.calls[i].Reserving? && !t.calls[j].Reserving?
      ensures t.calls[i].request != t.calls[j].request
    {
      assert i != k ==> CallOk(s, s.calls[i]);
      assert j != k ==> CallOk(s, s.calls[j]);
    }
  }

  lemma {:induction false} SettleKeeps(s: State, k: nat, fails: bool)
    requires Inv(s) && k in s.calls && s.calls[k].Settling?
    ensures Inv(SettleBudget(s, k, fails).state)
  {
    var t, call := SettleBudget(s, k, fails).state, s.calls[k];
    assert CallOk(s, call);
    if t.ledger != s.ledger {
      OutcomeKeeps(s.ledger, s.requests, Row(call.request, call.key, if call.success then Commit else Release));
    }
    forall j | j in t.calls ensures CallOk(t, t.calls[j]) {
      assert CallOk(s, s.calls[j]);
    }
  }

  lemma {:induction false} OutcomeKeeps(ledger: seq<Row>, requests: nat, row: Row)
    requires LedgerOk(ledger, requests) && row.request < requests && row.phase != Reserve
    requires IsReserved(ledger, row.request, row.key) && !IsTerminal(ledger, row.request)
    requires row.phase == Commit ==> !IsCommitted(ledger, row.key)
    ensures LedgerOk(ledger + [row], requests)
  {
    PrefixesStay(ledger, row);
    var next := ledger + [row];
    assert next[..|ledger|] == ledger;
    assert forall i :: 0 <= i < |ledger| ==> next[i] == ledger[i];
  }

  lemma {:induction false} AnswerKeeps(s: State, settings: Settings, k: nat, success: bool, at: Time)
    requires Inv(s) && k in s.calls && s.calls[k].Asking?
    ensures Inv(TakeAnswer(s, settings, k, success, at).state)
  {
    var t := TakeAnswer(s, settings, k, success, at).state;
    forall j | j in t.calls ensures CallOk(t, t.calls[j]) {
      assert CallOk(s, s.calls[j]);
    }
  }

  lemma {:induction false} StepKeepsInv(s: State, settings: Settings, step: Step)
    requires Inv(s)
    ensures Inv(Next(s, settings, step).state)
  {
    if Due(s, step) {
      match step
      case Gate(k, key, at, modelKnown) =>
        var t := Next(s, settings, step).state;
        forall j | j in t.calls ensures CallOk(t, t.calls[j]) {
          if j in s.calls { assert CallOk(s, s.calls[j]); }
        }
      case Hold(k, fails) => HoldKeeps(s, k, fails);
      case Answer(k, success, at) => AnswerKeeps(s, settings, k, success, at);
      case Settle(k, fails) => SettleKeeps(s, k, fails);
    }
  }

  lemma {:induction false} RunKeepsInv(s: State, settings: Settings, steps: seq<Step>)
    requires Inv(s)
    ensures Inv(After(s, settings, steps))
    decreases |steps|
  {
    if steps != [] {
      StepKeepsInv(s, settings, steps[0]);
      RunKeepsInv(Next(s, settings, steps[0]).state, settings, steps[1..]);
    }
  }

  /**
   * In every interleaving of deliveries, failures and redeliveries: no message is billed twice in the ledger, every
   * outcome follows the reservation of its own request, and no request has two outcomes.
   */
  lemma BilledOncePerMessage(settings: Settings, steps: seq<Step>, i: nat, j: nat)
    requires i < j < |After(INITIAL, settings, steps).ledger|
    ensures
      var ledger := After(INITIAL, settings, steps).ledger;
      && (ledger[i].phase == Commit && ledger[j].phase == Commit ==> ledger[i].key != ledger[j].key)
      && (ledger[j].phase != Reserve ==> Row(ledger[j].request, ledger[j].key, Reserve) in ledger[..j])
      && (ledger[i].phase != Reserve ==> ledger[j].request != ledger[i].request)
  {
    RunKeepsInv(INITIAL, settings, steps);
  }

  /** What the ledger bills once the vendor may be asked twice: two deliveries can both be past the reservation. */
  lemma TheVendorCanBeAskedTwice(settings: Settings, key: nat)
    ensures
      var s := After(INITIAL, settings, [Gate(0, key, 0, true), Gate(1, key, 0, true), Hold(0, false), Hold(1, false)]);
      s.asked == [key, key]
  {
    var a, b, c, d := Gate(0, key, 0, true), Gate(1, key, 0, true), Hold(0, false), Hold(1, false);
    var s1 := Next(INITIAL, settings, a).state;
    var s2 := Next(s1, settings, b).state;
    var s3 := Next(s2, settings, c).state;
    assert [a, b, c, d][1..] == [b, c, d] && [b, c, d][1..] == [c, d] && [c, d][1..] == [d] && [d][1..] == [];
    assert s3.ledger[0].phase == Reserve;
    assert After(s3, settings, [d]) == Next(s3, settings, d).state;
    assert After(s2, settings, [c, d]) == After(s3, settings, [d]);
  }

  // ---------------------------------------------------------------- a probe that is never reported

  /** A call that may still tell the breaker how it went. */
  predicate CanReport(s: State, call: Call) {
    call.Asking? || (call.Reserving? && !IsCommitted(s.ledger, call.key))
  }

  /** Half open, its one probe given away, and nobody left who would report it. */
  predicate Stuck(s: State) {
    s.breaker.circuit == HalfOpen && s.breaker.probing && forall k :: k in s.calls ==> !CanReport(s, s.calls[k])
  }

  lemma {:induction false} StuckStep(s: State, settings: Settings, step: Step)
    requires Stuck(s)
    ensures Stuck(Next(s, settings, step).state) && Next(s, settings, step).state.asked == s.asked
  {
    var t := Next(s, settings, step).state;
    if Due(s, step) {
      match step
      case Gate(k, key, at, modelKnown) =>
      case Hold(k, fails) => assert !CanReport(s, s.calls[k]);
      case Answer(k, success, at) =>
      case Settle(k, fails) =>
        forall j | j in t.calls ensures !CanReport(t, t.calls[j]) {
          assert !CanReport(s, s.calls[j]);
          if s.calls[j].Reserving? {
            var i :| 0 <= i < |s.ledger| && s.ledger[i].key == s.calls[j].key && s.ledger[i].phase == Commit;
            assert t.ledger[i] == s.ledger[i];
          }
        }
    }
  }

  lemma {:induction false} StuckForEver(s: State, settings: Settings, steps: seq<Step>)
    requires Stuck(s)
    ensures After(s, settings, steps).asked == s.asked
    decreases |steps|
  {
    if steps != [] {
      StuckStep(s, settings, steps[0]);
      StuckForEver(Next(s, settings, steps[0]).state, settings, steps[1..]);
    }
  }

  lemma {:induction false} FreshNumber(used: set<nat>) returns (n: nat)
    ensures forall m :: m in used ==> m < n
    decreases |used|
  {
    if used == {} {
      n := 0;
    } else {
      var m :| m in used;
      var rest := FreshNumber(used - {m});
      n := if rest > m then rest else m + 1;
      assert forall x :: x in used ==> x == m || x in used - {m};
    }
  }

  lemma AfterTwo(s: State, settings: Settings, a: Step, b: Step)
    ensures After(s, settings, [a, b]) == Next(Next(s, settings, a).state, settings, b).state
  {
    assert [a, b][1..] == [b] && [b][1..] == [];
    assert After(Next(s, settings, a).state, settings, [b]) == Next(Next(s, settings, a).state, settings, b).state;
  }

  predicate AskedSince(s: State, t: State, key: nat) {
    exists i :: |s.asked| <= i < |t.asked| && t.asked[i] == key
  }

  /** Whenever the breaker lets someone through, a message that is not billed gets its question asked. */
  lemma OpenGateAsks(s: State, settings: Settings, key: nat, at: Time) returns (a: Step, b: Step)
    requires MayAttempt(s.breaker, settings, at) && !IsCommitted(s.ledger, key)
    ensures After(s, settings, [a, b]).asked == s.asked + [key]
  {
    var k := FreshNumber(s.calls.Keys);
    a, b := Gate(k, key, at, true), Hold(k, false);
    assert k !in s.calls;
    AfterTwo(s, settings, a, b);
  }

  lemma ReportThenAsk(s: State, settings: Settings, k: nat, key: nat) returns (steps: seq<Step>)
    requires k in s.calls && s.calls[k].Asking? && s.breaker.circuit == HalfOpen && !IsCommitted(s.ledger, key)
    ensures After(s, settings, steps).asked == s.asked + [key]
  {
    var answer := Answer(k, true, 0);
    var t := Next(s, settings, answer).state;
    var a, b := OpenGateAsks(t, settings, key, 0);
    steps := [answer, a, b];
    assert steps[1..] == [a, b];
  }

  lemma HoldThenAsk(s: State, settings: Settings, k: nat, key: nat) returns (steps: seq<Step>)
    requires k in s.calls && s.calls[k].Reserving? && !IsCommitted(s.ledger, s.calls[k].key)
    requires s.breaker.circuit == HalfOpen && !IsCommitted(s.ledger, key)
    ensures After(s, settings, steps).asked == s.asked + [s.calls[k].key, key]
  {
    var t := Next(s, settings, Hold(k, false)).state;
    assert t.ledger == s.ledger + [Row(s.requests, s.calls[k].key, Reserve)];
    var rest := ReportThenAsk(t, settings, k, key);
    steps := [Hold(k, false)] + rest;
    assert steps[1..] == rest;
  }

  lemma AskingRun(s: State, settings: Settings, key: nat) returns (steps: seq<Step>)
    requires !Stuck(s) && !IsCommitted(s.ledger, key)
    ensures |After(s, settings, steps).asked| > |s.asked| && AskedSince(s, After(s, settings, steps), key)
  {
    var at := s.breaker.openedAt + settings.resetMs;
    if MayAttempt(s.breaker, settings, at) {
      var a, b := OpenGateAsks(s, settings, key, at);
      steps := [a, b];
    } else {
      var k :| k in s.calls && CanReport(s, s.calls[k]);
      if s.calls[k].Asking? {
        steps := ReportThenAsk(s, settings, k, key);
      } else {
        steps := HoldThenAsk(s, settings, k, key);
      }
    }
    assert After(s, settings, steps).asked[|After(s, settings, steps).asked| - 1] == key;
  }

  lemma FreshKey(ledger: seq<Row>) returns (key: nat)
    ensures !IsCommitted(ledger, key)
  {
    var keys := set i | 0 <= i < |ledger| :: ledger[i].key;
    key := FreshNumber(keys);
    assert forall i :: 0 <= i < |ledger| ==> ledger[i].key in keys;
  }

  /**
   * The vendor is never asked again, in any continuation, exactly when the breaker is half open, its probe is given
   * away, and no call is left that could report: a granted probe whose reservation fails or finds the message billed,
   * or whose model is unknown, returns without telling the breaker.
   */
  lemma NeverAskedAgainExactlyWhen(s: State, settings: Settings)
    ensures Stuck(s) <==> forall steps: seq<Step> :: |After(s, settings, steps).asked| <= |s.asked|
  {
    if Stuck(s) {
      forall steps: seq<Step> ensures |After(s, settings, steps).asked| <= |s.asked| {
        StuckForEver(s, settings, steps);
      }
    } else {
      var key := FreshKey(s.ledger);
      var steps := AskingRun(s, settings, key);
      assert |After(s, settings, steps).asked| > |s.asked|;
    }
  }

  lemma {:induction false} BilledIsNotAsked(s: State, settings: Settings, steps: seq<Step>, key: nat)
    requires IsCommitted(s.ledger, key)
    ensures s.asked <= After(s, settings, steps).asked && !AskedSince(s, After(s, settings, steps), key)
    decreases |steps|
  {
    if steps != [] {
      var t := Next(s, settings, steps[0]).state;
      assert s.ledger <= t.ledger && s.asked <= t.asked;
      assert IsCommitted(t.ledger, key) by {
        var i :| 0 <= i < |s.ledger| && s.ledger[i].key == key && s.ledger[i].phase == Commit;
        assert t.ledger[i] == s.ledger[i];
      }
      BilledIsNotAsked(t, settings, steps[1..], key);
    }
  }

  /** Some continuation asks the vendor about this message. */
  ghost predicate MayBeAsked(s: State, settings: Settings, key: nat) {
    exists steps :: AskedSince(s, After(s, settings, steps), key)
  }

  /**
   * The vendor can be asked about a message, once more if it was asked before, exactly as long as the message is not
   * billed in the ledger and the breaker is not stuck: a reservation keeps no one else out.
   */
  lemma AskedAgainExactlyWhen(s: State, settings: Settings, key: nat)
    ensures MayBeAsked(s, settings, key) <==> !IsCommitted(s.ledger, key) && !Stuck(s)
  {
    if IsCommitted(s.ledger, key) {
      forall steps ensures !AskedSince(s, After(s, settings, steps), key) { BilledIsNotAsked(s, settings, steps, key); }
    } else if Stuck(s) {
      forall steps ensures !AskedSince(s, After(s, settings, steps), key) { StuckForEver(s, settings, steps); }
    } else {
      var steps := AskingRun(s, settings, key);
    }
  }

  /** One reservation that cannot be written while the breaker probes is enough: from then on it is stuck. */
  lemma OneFailedReservationSticks(s: State, settings: Settings, k: nat, key: nat, at: Time)
    requires s.breaker.circuit == Open && at - s.breaker.openedAt >= settings.resetMs && s.calls == map[]
    ensures Stuck(After(s, settings, [Gate(k, key, at, true), Hold(k, true)]))
    ensures Stuck(After(s, settings, [Gate(k, key, at, false), Hold(k, true)]))
  {
    AfterTwo(s, settings, Gate(k, key, at, true), Hold(k, true));
    AfterTwo(s, settings, Gate(k, key, at, false), Hold(k, true));
  }
}
