/**
 * Asking the primary AI provider at most once per message (src/messageDispatcher.ts): a circuit breaker lets the call
 * through (src/monitoring/circuitBreaker.ts), a ledger row is written before it and one after it
 * (src/domain/aiUsageLedger.ts), and anything that goes wrong falls back to the other provider.
 */
module AiRouting {
  import opened Prelude

  type Time = int

  datatype Settings = Settings(threshold: nat, resetMs: int)

  datatype Circuit = Closed | Open | HalfOpen

  datatype Breaker = Breaker(circuit: Circuit, failures: nat, openedAt: Time, probing: bool)

  datatype Phase = Reserve | Commit | Release

  /** A ledger row: rows of one request belong together, and a message keeps its key however often it is delivered. */
  datatype Row = Row(request: nat, key: nat, phase: Phase)

  /** A delivery past the breaker, by what it does next. */
  datatype Call =
    | Reserving(key: nat)
    | Asking(request: nat, key: nat)
    | Settling(request: nat, key: nat, success: bool)

  datatype State = State(breaker: Breaker, ledger: seq<Row>, requests: nat, calls: map<nat, Call>, asked: seq<nat>)

  datatype Reply = Continues | Served | FallsBack

  datatype Turn = Turn(state: State, reply: Reply)

  datatype Step =
    | Gate(k: nat, key: nat, at: Time, modelKnown: bool)
    | Hold(k: nat, fails: bool)
    | Answer(k: nat, success: bool, at: Time)
    | Settle(k: nat, fails: bool)

  // ---------------------------------------------------------------- the breaker

  function Probed(b: Breaker): Breaker { b.(circuit := HalfOpen, probing := true) }

  predicate MayAttempt(b: Breaker, settings: Settings, at: Time) {
    match b.circuit
    case Closed => true
    case Open => at - b.openedAt >= settings.resetMs
    case HalfOpen => !b.probing
  }

  function Attempted(b: Breaker, settings: Settings, at: Time): Breaker {
    if MayAttempt(b, settings, at) && !b.circuit.Closed? then Probed(b) else b
  }

  function Succeeded(b: Breaker): Breaker {
    Breaker(if b.circuit.HalfOpen? then Closed else b.circuit, 0, b.openedAt, false)
  }

  function Failed(b: Breaker, settings: Settings, at: Time): Breaker {
    if b.circuit.HalfOpen? then Breaker(Open, b.failures, at, false)
    else if b.circuit.Closed? && b.failures + 1 >= settings.threshold then Breaker(Open, b.failures + 1, at, false)
    else b.(failures := b.failures + 1, probing := false)
  }

  // ---------------------------------------------------------------- the ledger

  predicate IsCommitted(ledger: seq<Row>, key: nat) {
    exists i :: 0 <= i < |ledger| && ledger[i].key == key && ledger[i].phase == Commit
  }

  predicate IsTerminal(ledger: seq<Row>, request: nat) {
    exists i :: 0 <= i < |ledger| && ledger[i].request == request && ledger[i].phase != Reserve
  }

  predicate IsReserved(ledger: seq<Row>, request: nat, key: nat) { Row(request, key, Reserve) in ledger }

  // ---------------------------------------------------------------- one delivery

  function PassGate(s: State, settings: Settings, k: nat, key: nat, at: Time, modelKnown: bool): Turn {
    if !MayAttempt(s.breaker, settings, at) then Turn(s, FallsBack)
    else
      var t := s.(breaker := Attempted(s.breaker, settings, at));
      if modelKnown then Turn(t.(calls := t.calls[k := Reserving(key)]), Continues) else Turn(t, FallsBack)
  }

  /** The reservation, under a lock on its key: refused if the message is already billed; it may also just fail. */
  function HoldBudget(s: State, k: nat, fails: bool): Turn
    requires k in s.calls && s.calls[k].Reserving?
  {
    var key := s.calls[k].key;
    if fails || IsCommitted(s.ledger, key) then Turn(s.(calls := s.calls - {k}), FallsBack)
    else
      Turn(s.(ledger := s.ledger + [Row(s.requests, key, Reserve)], requests := s.requests + 1,
              calls := s.calls[k := Asking(s.requests, key)], asked := s.asked + [key]), Continues)
  }

  function TakeAnswer(s: State, settings: Settings, k: nat, success: bool, at: Time): Turn
    requires k in s.calls && s.calls[k].Asking?
  {
    var call := s.calls[k];
    Turn(s.(breaker := if success then Succeeded(s.breaker) else Failed(s.breaker, settings, at),
            calls := s.calls[k := Settling(call.request, call.key, success)]), Continues)
  }

  /** The second row; whether it can be written decides nothing for the merchant. */
  function SettleBudget(s: State, k: nat, fails: bool): Turn
    requires k in s.calls && s.calls[k].Settling?
  {
    var call := s.calls[k];
    var reply := if call.success then Served else FallsBack;
    var t := s.(calls := s.calls - {k});
    if fails || IsTerminal(s.ledger, call.request) || (call.success && IsCommitted(s.ledger, call.key)) then
      Turn(t, reply)
    else Turn(t.(ledger := s.ledger + [Row(call.request, call.key, if call.success then Commit else Release)]), reply)
  }

  predicate Due(s: State, step: Step) {
    match step
    case Gate(k, _, _, _) => k !in s.calls
    case Hold(k, _) => k in s.calls && s.calls[k].Reserving?
    case Answer(k, _, _) => k in s.calls && s.calls[k].Asking?
    case Settle(k, _) => k in s.calls && s.calls[k].Settling?
  }

  function Next(s: State, settings: Settings, step: Step): Turn {
    if !Due(s, step) then Turn(s, Continues) else
    match step
    case Gate(k, key, at, modelKnown) => PassGate(s, settings, k, key, at, modelKnown)
    case Hold(k, fails) => HoldBudget(s, k, fails)
    case Answer(k, success, at) => TakeAnswer(s, settings, k, success, at)
    case Settle(k, fails) => SettleBudget(s, k, fails)
  }

  function After(s: State, settings: Settings, steps: seq<Step>): State
    decreases |steps|
  {
    if steps == [] then s else After(Next(s, settings, steps[0]).state, settings, steps[1..])
  }

  const INITIAL := State(Breaker(Closed, 0, 0, false), [], 0, map[], [])

  // ---------------------------------------------------------------- the objects of the source

  class CircuitBreaker {
    const settings: Settings
    var circuit: Circuit
    var failures: nat
    var openedAt: Time
    var probing: bool

    ghost function Now(): Breaker
      reads this
    {
      Breaker(circuit, failures, openedAt, probing)
    }

    constructor (settings: Settings)
      ensures this.settings == settings && Now() == INITIAL.breaker
    {
      this.settings := settings;
      circuit, failures, openedAt, probing := Closed, 0, 0, false;
    }

    method CanAttempt(at: Time) returns (may: bool)
      modifies this
      ensures may == MayAttempt(old(Now()), settings, at) && Now() == Attempted(old(Now()), settings, at)
    {
      if circuit == Closed { return true; }
      if circuit == Open {
        if at - openedAt < settings.resetMs { return false; }
        circuit := HalfOpen;
        probing := false;
      }
      if probing { return false; }
      probing := true;
      return true;
    }

    method RecordSuccess()
      modifies this
      ensures Now() == Succeeded(old(Now()))
    {
      probing := false;
      failures := 0;
      if circuit == HalfOpen { circuit := Closed; }
    }

    method RecordFailure(at: Time)
      modifies this
      ensures Now() == Failed(old(Now()), settings, at)
    {
      probing := false;
      if circuit == HalfOpen {
        circuit, openedAt := Open, at;
        return;
      }
      failures := failures + 1;
      if circuit == Closed && failures >= settings.threshold {
        circuit, openedAt := Open, at;
      }
    }
  }

  /** The append-only ledger: every write is a new row. */
  class UsageLedger {
    var rows: seq<Row>
    var requests: nat

    constructor ()
      ensures rows == [] && requests == 0
    {
      rows, requests := [], 0;
    }

    method ReserveUsage(key: nat) returns (request: Option<nat>)
      modifies this
      ensures request.Some? <==> !IsCommitted(old(rows), key)
      ensures request.Some? ==>
        request.value == old(requests) && requests == old(requests) + 1
          && rows == old(rows) + [Row(request.value, key, Reserve)]
      ensures request.None? ==> rows == old(rows) && requests == old(requests)
    {
      var i := 0;
      while i < |rows|
        invariant 0 <= i <= |rows| && rows == old(rows) && requests == old(requests)
        invariant forall j :: 0 <= j < i ==> !(rows[j].key == key && rows[j].phase == Commit)
      {
        if rows[i].key == key && rows[i].phase == Commit { return None; }
        i := i + 1;
      }
      rows := rows + [Row(requests, key, Reserve)];
      requests := requests + 1;
      return Some(requests - 1);
    }

    /** Writes the outcome of a request, unless it has one already or its message is billed under another request. */
    method SettleUsage(request: nat, key: nat, success: bool) returns (written: bool)
      modifies this`rows
      ensures written <==> !IsTerminal(old(rows), request) && !(success && IsCommitted(old(rows), key))
      ensures rows ==
        if written then old(rows) + [Row(request, key, if success then Commit else Release)] else old(rows)
    {
      var i := 0;
      while i < |rows|
        invariant 0 <= i <= |rows| && rows == old(rows)
        invariant forall j :: 0 <= j < i ==> !(rows[j].request == request && rows[j].phase != Reserve)
        invariant forall j :: 0 <= j < i ==> !(success && rows[j].key == key && rows[j].phase == Commit)
      {
        if rows[i].request == request && rows[i].phase != Reserve { return false; }
        if success && rows[i].key == key && rows[i].phase == Commit { return false; }
        i := i + 1;
      }
      rows := rows + [Row(request, key, if success then Commit else Release)];
      return true;
    }
  }
}
