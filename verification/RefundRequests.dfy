/**
 Two-person refunds (src/admin/refundRequests.ts) as a state machine. Every operation is cut at its database calls: a
 call reads a row, checks that snapshot, and only later does its guarded write, so calls may interleave in any way
 between.
 */
module RefundRequests {
  import opened Prelude
  import opened CanonicalJson
  import JsonReader

  type Person = nat
  type Time = int

  datatype Status = Pending | Approved | Rejected | Executed | Expired | Cancelled

  datatype Action = SubscriptionChargeRefund | HeldPaymentRefund

  datatype RefundError =
    | ReasonTooShort | NotFound | NotAllowed | NotRefundable | BadAmount | RefundLimit | NothingToRefund | RequestOpen
    | RequestExpired | NotPending | SelfApproval | PayloadChanged | RequesterInactive | NotYours | NotOpen
    | ExecutionDisabled | NotApproved | ActorNotAllowed | ProviderRefused

  const REQUEST_TTL_MS: Time := 48 * 3600000

  // ---------------------------------------------------------------- the frozen payload

  datatype Payload = Payload(
    action: Action, targetId: Text, amountMinor: Option<Text>, currency: Text, revokeEntitlement: bool,
    businessId: Text)

  function Units(s: string): Text {
    seq(|s|, i requires 0 <= i < |s| => if s[i] as int < 0x10000 then s[i] as int else 0)
  }

  function ActionName(a: Action): Text {
    Units(if a.SubscriptionChargeRefund? then "SUBSCRIPTION_CHARGE_REFUND" else "HELD_PAYMENT_REFUND")
  }

  function TargetType(a: Action): Text { Units(if a.SubscriptionChargeRefund? then "Invoice" else "BillingAttempt") }

  /** The payload object, its keys in the order the program writes them. */
  function ToJson(p: Payload): Json {
    Object([
      Field(Units("action"), String(ActionName(p.action))),
      Field(Units("targetType"), String(TargetType(p.action))),
      Field(Units("targetId"), String(p.targetId)),
      Field(Units("amountMinor"), if p.amountMinor.Some? then String(p.amountMinor.value) else Null),
      Field(Units("currency"), String(p.currency)),
      Field(Units("revokeEntitlement"), Bool(p.revokeEntitlement)),
      Field(Units("businessId"), String(p.businessId))
    ])
  }

  /**
   * The digest of a payload. A collision-free digest tells apart exactly the texts it is taken over, so the text
   * stands for it.
   */
  function HashPayload(payload: Json): Text { Print(payload) }

  // ---------------------------------------------------------------- rows and calls

  datatype Row = Row(
    action: Action, targetId: Text, requestedBy: Person, payload: Json, payloadHash: Text, createdAt: Time,
    expiresAt: Time, status: Status, approvedBy: Option<Person>, rejectedBy: Option<Person>, decidedAt: Option<Time>,
    executedAt: Option<Time>)

  datatype Staff = Staff(disabled: bool, roleVersion: nat, mayExecute: bool)

  /** The payment a request is about. */
  datatype Target = Target(isSubscription: bool, refundable: bool, remaining: int, currency: Text, businessId: Text)

  /** An operation in flight: what it has read and what it will do next. */
  datatype Call =
    | Expiring(id: nat)
    | Approving(id: nat, row: Row, who: Person, at: Time)
    | ApproveReady(id: nat, row: Row, who: Person, at: Time)
    | RejectReady(id: nat, row: Row, who: Person, at: Time)
    | CancelReady(id: nat, row: Row, who: Person, at: Time)
    | Loaded(id: nat, row: Row, who: Person, at: Time, roleVersion: Option<nat>)
    | Cleared(id: nat, row: Row, who: Person, at: Time)
    | Sent(id: nat, row: Row, who: Person, at: Time)

  /** The audit trail, with the calls to the refund executor among it. */
  datatype Event =
    | RequestedEvent(id: nat, who: Person, hash: Text)
    | ApprovedEvent(id: nat, who: Person, hash: Text, at: Time)
    | RejectedEvent(id: nat, who: Person)
    | CancelledEvent(id: nat, who: Person)
    | SentEvent(id: nat, who: Person, payload: Json)
    | ExecutedEvent(id: nat, who: Person)

  datatype State = State(rows: seq<Row>, calls: map<nat, Call>, log: seq<Event>, staff: map<Person, Staff>)

  /** What a step tells the caller: still running, finished, or refused. */
  datatype Reply = Continues | Done | Refused(error: RefundError)

  datatype Turn = Turn(state: State, reply: Reply)

  datatype Step =
    | Request(action: Action, targetId: Text, target: Option<Target>, amountMinor: Option<Text>, revoke: bool,
      reasonLength: nat,
              who: Person, stored: Json, at: Time)
    | StartApprove(c: nat, id: nat, who: Person, hash: Text, at: Time)
    | StartReject(c: nat, id: nat, who: Person, at: Time)
    | StartCancel(c: nat, id: nat, who: Person, at: Time)
    | StartExecute(c: nat, id: nat, who: Person, roleVersion: Option<nat>, enabled: bool, at: Time)
    | ReadRequester(c: nat)
    | Revalidate(c: nat)
    | Commit(c: nat)
    | Send(c: nat, accepted: bool)
    | Record(c: nat)
    | SetStaff(person: Person, account: Staff)
    | EditPayload(id: nat, payload: Json)

  /** An account changed: what its role allows only changes together with the version, which only rises. */
  predicate FollowsOn(before: Staff, after: Staff) {
    || before.roleVersion < after.roleVersion
    || (before.roleVersion == after.roleVersion && before.mayExecute == after.mayExecute)
  }

  predicate IsOpen(status: Status) { status == Pending || status == Approved }

  predicate AmountShape(t: Text) {
    1 <= |t| <= 16 && t[0] != ZERO && forall i :: 0 <= i < |t| ==> IsDigit(t[i])
  }

  function AmountValue(t: Text): nat { JsonReader.ReadDigits(t, 0).0 }

  lemma {:induction false} DigitsOnlyGrow(t: Text, n: nat)
    ensures JsonReader.ReadDigits(t, n).0 >= n
    decreases |t|
  {
    if t != [] && IsDigit(t[0]) { DigitsOnlyGrow(t[1..], n * 10 + (t[0] - ZERO)); }
  }

  /** A stated amount is a positive number of minor units. */
  lemma {:induction false} StatedAmountIsPositive(t: Text)
    requires AmountShape(t)
    ensures AmountValue(t) > 0
  {
    assert IsDigit(t[0]);
    DigitsOnlyGrow(t[1..], t[0] - ZERO);
  }

  lemma {:induction false} FewDigits(n: nat, k: nat)
    requires k > 0 && n < JsonReader.Power10(k)
    ensures |Digits(n)| <= k
    decreases k
  {
    if n >= 10 {
      assert JsonReader.Power10(k) == 10 * JsonReader.Power10(k - 1);
      FewDigits(n / 10, k - 1);
    }
  }

  lemma {:induction false} DigitsOfSome(t: Text) returns (n: nat)
    requires t != [] && t[0] != ZERO && forall i :: 0 <= i < |t| ==> IsDigit(t[i])
    ensures 0 < n < JsonReader.Power10(|t|) && Digits(n) == t
  {
    var last := |t| - 1;
    if last == 0 {
      n := t[0] - ZERO;
      assert JsonReader.Power10(1) == 10 * JsonReader.Power10(0);
    } else {
      var front := DigitsOfSome(t[..last]);
      n := 10 * front + (t[last] - ZERO);
      assert t == t[..last] + [t[last]];
    }
  }

  lemma SixteenPlaces()
    ensures JsonReader.Power10(16) == 10_000_000_000_000_000
  {
    FourMorePlaces(0);
    FourMorePlaces(4);
    FourMorePlaces(8);
    FourMorePlaces(12);
  }

  /** The amounts accepted are the decimal numbers from one up to sixteen places, and each is read as itself. */
  lemma NumberIsAmount(n: nat)
    requires 0 < n < 10_000_000_000_000_000
    ensures AmountShape(Digits(n)) && AmountValue(Digits(n)) == n
  {
    SixteenPlaces();
    FewDigits(n, 16);
    JsonReader.DigitsThen(Digits(n), n, 0, []);
    assert Digits(n) + [] == Digits(n);
  }

  lemma AmountIsNumber(t: Text)
    requires AmountShape(t)
    ensures 0 < AmountValue(t) < 10_000_000_000_000_000 && Digits(AmountValue(t)) == t
  {
    var n := DigitsOfSome(t);
    SixteenPlaces();
    FewerPlaces(|t|, 16);
    NumberIsAmount(n);
  }

  lemma FourMorePlaces(k: nat)
    ensures JsonReader.Power10(k + 4) == 10_000 * JsonReader.Power10(k)
  {
    assert JsonReader.Power10(k + 4) == 10 * JsonReader.Power10(k + 3);
    assert JsonReader.Power10(k + 2) == 10 * JsonReader.Power10(k + 1);
  }

  lemma {:induction false} FewerPlaces(k: nat, m: nat)
    requires k <= m
    ensures JsonReader.Power10(k) <= JsonReader.Power10(m)
  {
    if k < m { FewerPlaces(k, m - 1); }
  }

  function PayloadOf(step: Step): Payload
    requires step.Request? && step.target.Some?
  {
    Payload(step.action, step.targetId, step.amountMinor, step.target.value.currency,
            step.action.SubscriptionChargeRefund? && step.revoke, step.target.value.businessId)
  }

  predicate HasOpenRequest(rows: seq<Row>, action: Action, targetId: Text) {
    exists r :: r in rows && r.action == action && r.targetId == targetId && IsOpen(r.status)
  }

  /** Why a request is turned down, in the order the program looks. */
  function RequestProblem(rows: seq<Row>, step: Step): Option<RefundError>
    requires step.Request?
  {
    if step.reasonLength < 10 then Some(ReasonTooShort)
    else if step.target.None? then Some(NotFound)
    else if !step.target.value.isSubscription then Some(NotAllowed)
    else if !step.target.value.refundable then Some(NotRefundable)
    else if step.amountMinor.Some? && !AmountShape(step.amountMinor.value) then Some(BadAmount)
    else if step.amountMinor.Some? && AmountValue(step.amountMinor.value) > step.target.value.remaining then
      Some(RefundLimit)
    else if step.target.value.remaining <= 0 then Some(NothingToRefund)
    else if HasOpenRequest(rows, step.action, step.targetId) then Some(RequestOpen)
    else None
  }

  /** The first read of every decision: the row, unless it is missing or an open one past its time. */
  function LoadOpen(rows: seq<Row>, id: nat, at: Time): Result<Row, RefundError> {
    if id >= |rows| then Err(NotFound)
    else if IsOpen(rows[id].status) && rows[id].expiresAt <= at then Err(RequestExpired)
    else Ok(rows[id])
  }

  function ApproveProblem(row: Row, who: Person, hash: Text): Option<RefundError> {
    if row.status != Pending then Some(NotPending)
    else if row.requestedBy == who then Some(SelfApproval)
    else if hash != row.payloadHash || HashPayload(row.payload) != row.payloadHash then Some(PayloadChanged)
    else None
  }

  function RejectProblem(row: Row, who: Person): Option<RefundError> {
    if row.status != Pending then Some(NotPending) else if row.requestedBy == who then Some(SelfApproval) else None
  }

  predicate ActorAllowed(staff: map<Person, Staff>, who: Person, roleVersion: Option<nat>) {
    && who in staff && !staff[who].disabled
    && (roleVersion.Some? ==> staff[who].roleVersion == roleVersion.value)
    && staff[who].mayExecute
  }

  function Begin(s: State, c: nat, call: Call): Turn { Turn(s.(calls := s.calls[c := call]), Continues) }

  function Refuse(s: State, error: RefundError): Turn { Turn(s, Refused(error)) }

  function End(s: State, c: nat, reply: Reply): Turn { Turn(s.(calls := s.calls - {c}), reply) }

  /** Ends a call, replacing its row and adding one event. */
  function Decide(s: State, c: nat, id: nat, row: Row, event: Event): Turn
    requires id < |s.rows|
  {
    Turn(State(s.rows[id := row], s.calls - {c}, s.log + [event], s.staff), Done)
  }

  /** A read that found an open row past its time goes on to write EXPIRED; any other problem ends the call. */
  function LoadFailed(s: State, c: nat, id: nat, error: RefundError): Turn {
    if error == RequestExpired then Begin(s, c, Expiring(id)) else Refuse(s, error)
  }

  function CommitCall(s: State, c: nat): Turn
    requires c in s.calls && s.calls[c].id < |s.rows|
  {
    var call := s.calls[c];
    var row := s.rows[call.id];
    match call
    case Expiring(id) =>
      var rows := if IsOpen(row.status) then s.rows[id := row.(status := Status.Expired)] else s.rows;
      Turn(State(rows, s.calls - {c}, s.log, s.staff), Refused(RequestExpired))
    case ApproveReady(id, seen, who, at) =>
      if row.status != Pending then End(s, c, Refused(NotPending))
      else
        Decide(s, c, id, row.(status := Approved, approvedBy := Some(who), decidedAt := Some(at)),
          ApprovedEvent(id, who, seen.payloadHash, at))
    case RejectReady(id, _, who, at) =>
      if row.status != Pending then End(s, c, Refused(NotPending))
      else
        Decide(s, c, id, row.(status := Rejected, rejectedBy := Some(who), decidedAt := Some(at)),
          RejectedEvent(id, who))
    case CancelReady(id, _, who, _) =>
      if !IsOpen(row.status) then End(s, c, Refused(NotOpen))
      else Decide(s, c, id, row.(status := Status.Cancelled), CancelledEvent(id, who))
    case _ => Turn(s, Continues)
  }

  function MakeRequest(s: State, step: Step): Turn
    requires step.Request?
  {
    var problem := RequestProblem(s.rows, step);
    if problem.Some? then Refuse(s, problem.value)
    else
      var hash := HashPayload(ToJson(PayloadOf(step)));
      var row := Row(step.action, step.targetId, step.who, step.stored, hash, step.at, step.at + REQUEST_TTL_MS,
        Pending, None, None, None, None);
      Turn(State(s.rows + [row], s.calls, s.log + [RequestedEvent(|s.rows|, step.who, hash)], s.staff), Done)
  }

  function BeginApprove(s: State, c: nat, id: nat, who: Person, hash: Text, at: Time): Turn {
    var loaded := LoadOpen(s.rows, id, at);
    if loaded.Err? then LoadFailed(s, c, id, loaded.error)
    else if ApproveProblem(loaded.value, who, hash).Some? then Refuse(s, ApproveProblem(loaded.value, who, hash).value)
    else Begin(s, c, Approving(id, loaded.value, who, at))
  }

  function BeginReject(s: State, c: nat, id: nat, who: Person, at: Time): Turn {
    var loaded := LoadOpen(s.rows, id, at);
    if loaded.Err? then LoadFailed(s, c, id, loaded.error)
    else if RejectProblem(loaded.value, who).Some? then Refuse(s, RejectProblem(loaded.value, who).value)
    else Begin(s, c, RejectReady(id, loaded.value, who, at))
  }

  function BeginCancel(s: State, c: nat, id: nat, who: Person, at: Time): Turn {
    var loaded := LoadOpen(s.rows, id, at);
    if loaded.Err? then LoadFailed(s, c, id, loaded.error)
    else if loaded.value.requestedBy != who then Refuse(s, NotYours)
    else Begin(s, c, CancelReady(id, loaded.value, who, at))
  }

  function BeginExecute(
      s: State, c: nat, id: nat, who: Person, roleVersion: Option<nat>, enabled: bool, at: Time): Turn {
    if !enabled then Refuse(s, ExecutionDisabled) else
    var loaded := LoadOpen(s.rows, id, at);
    if loaded.Err? then LoadFailed(s, c, id, loaded.error)
    else if loaded.value.status != Approved then Refuse(s, NotApproved)
    else Begin(s, c, Loaded(id, loaded.value, who, at, roleVersion))
  }

  function CheckRequester(s: State, c: nat): Turn
    requires c in s.calls && s.calls[c].Approving?
  {
    var call := s.calls[c];
    if call.row.requestedBy !in s.staff || s.staff[call.row.requestedBy].disabled then
      End(s, c, Refused(RequesterInactive))
    else Begin(s, c, ApproveReady(call.id, call.row, call.who, call.at))
  }

  function CheckExecutor(s: State, c: nat): Turn
    requires c in s.calls && s.calls[c].Loaded?
  {
    var call := s.calls[c];
    if !ActorAllowed(s.staff, call.who, call.roleVersion) then End(s, c, Refused(ActorNotAllowed))
    else if HashPayload(call.row.payload) != call.row.payloadHash then End(s, c, Refused(PayloadChanged))
    else Begin(s, c, Cleared(call.id, call.row, call.who, call.at))
  }

  /** The call to the refund executor, which may refuse. */
  function CallExecutor(s: State, c: nat, accepted: bool): Turn
    requires c in s.calls && s.calls[c].Cleared?
  {
    var call := s.calls[c];
    var log := s.log + [SentEvent(call.id, call.who, call.row.payload)];
    if accepted then
      Turn(State(s.rows, s.calls[c := Sent(call.id, call.row, call.who, call.at)], log, s.staff), Continues)
    else Turn(State(s.rows, s.calls - {c}, log, s.staff), Refused(ProviderRefused))
  }

  function RecordExecuted(s: State, c: nat): Turn
    requires c in s.calls && s.calls[c].Sent? && s.calls[c].id < |s.rows|
  {
    var call := s.calls[c];
    var row := s.rows[call.id];
    if row.status != Approved then End(s, c, Done)
    else
      Decide(s, c, call.id, row.(status := Status.Executed, executedAt := Some(call.at)),
        ExecutedEvent(call.id, call.who))
  }

  /** Whether a step is due: a new call has a fresh name, a running one is at the matching point. */
  predicate Due(s: State, step: Step) {
    match step
    case StartApprove(c, _, _, _, _) => c !in s.calls
    case StartReject(c, _, _, _) => c !in s.calls
    case StartCancel(c, _, _, _) => c !in s.calls
    case StartExecute(c, _, _, _, _, _) => c !in s.calls
    case ReadRequester(c) => c in s.calls && s.calls[c].Approving?
    case Revalidate(c) => c in s.calls && s.calls[c].Loaded?
    case Commit(c) => c in s.calls && s.calls[c].id < |s.rows|
    case Send(c, _) => c in s.calls && s.calls[c].Cleared?
    case Record(c) => c in s.calls && s.calls[c].Sent? && s.calls[c].id < |s.rows|
    case SetStaff(person, account) => person in s.staff ==> FollowsOn(s.staff[person], account)
    case EditPayload(id, _) => id < |s.rows|
    case _ => true
  }

  /** The whole protocol, one database call at a time. A step that is not due leaves the state alone. */
  function Next(s: State, step: Step): Turn {
    if !Due(s, step) then Turn(s, Continues) else
    match step
    case Request(_, _, _, _, _, _, _, _, _) => MakeRequest(s, step)
    case StartApprove(c, id, who, hash, at) => BeginApprove(s, c, id, who, hash, at)
    case StartReject(c, id, who, at) => BeginReject(s, c, id, who, at)
    case StartCancel(c, id, who, at) => BeginCancel(s, c, id, who, at)
    case StartExecute(c, id, who, roleVersion, enabled, at) => BeginExecute(s, c, id, who, roleVersion, enabled, at)
    case ReadRequester(c) => CheckRequester(s, c)
    case Revalidate(c) => CheckExecutor(s, c)
    case Commit(c) => CommitCall(s, c)
    case Send(c, accepted) => CallExecutor(s, c, accepted)
    case Record(c) => RecordExecuted(s, c)
    case SetStaff(person, account) => Turn(s.(staff := s.staff[person := account]), Done)
    case EditPayload(id, payload) => Turn(s.(rows := s.rows[id := s.rows[id].(payload := payload)]), Done)
  }

  function After(s: State, steps: seq<Step>): State
    decreases |steps|
  {
    if steps == [] then s else After(Next(s, steps[0]).state, steps[1..])
  }

  function Initial(staff: map<Person, Staff>): State { State([], map[], [], staff) }
}
