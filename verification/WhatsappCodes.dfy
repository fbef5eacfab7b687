/**
 Sign-in codes by WhatsApp (src/admin/whatsappCodes.ts) as a state machine over single database statements, so that any
 number of verifications, code requests and "ADMIN CODE" messages interleave. Rows keep their place; a removed row
 stays as a tombstone.
 */
module WhatsappCodes {
  import opened Prelude

  type Person = nat
  type Session = nat
  type Phone = nat
  type Code = nat
  type Time = int

  datatype Purpose = Enrol | Signin | Reauth

  datatype Mode = Template | Message

  datatype CodeError = TooMany | BlockedNumber | BadCode

  const CODE_TTL_MS: Time := 5 * 60000
  const MAX_GUESSES: nat := 5
  const SENDS_PER_ACCOUNT_10_MIN: nat := 3
  const SENDS_PER_ACCOUNT_DAY: nat := 10
  const SENDS_PER_NUMBER_HOUR: nat := 3
  const MESSAGE_WAIT_MS: Time := 10 * 60000
  const TEN_MINUTES: Time := 10 * 60000
  const HOUR: Time := 60 * 60000
  const DAY: Time := 24 * 60 * 60000

  /** A challenge row. Only a keyed hash of its code is stored; a keyed hash without collisions stands for the code. */
  datatype Challenge = Challenge(
    admin: Person, session: Session, purpose: Purpose, code: Option<Code>, awaiting: bool, phone: Phone,
    attempts: nat, expiresAt: Time, consumedAt: Option<Time>, createdAt: Time, removed: bool)

  datatype Call =
    | Answering(id: nat, at: Time)
    | Counting(id: nat, row: Challenge, guess: Code, at: Time)
    | Comparing(id: nat, row: Challenge, guess: Code, at: Time)
    | Claiming(id: nat, row: Challenge, guess: Code, at: Time)
    | Retiring(id: nat, at: Time)

  /** A code accepted: the challenge and the guess that won it. */
  datatype Win = Win(id: nat, guess: Code)

  /** `compared` counts, beside the table, the guesses actually compared with each challenge. */
  datatype State = State(rows: seq<Challenge>, calls: map<nat, Call>, compared: seq<nat>, wins: seq<Win>)

  datatype Reply = Continues | Done | Refused(error: CodeError)

  datatype Turn = Turn(state: State, reply: Reply)

  datatype Step =
    | Issue(admin: Person, session: Session, purpose: Purpose, phone: Phone, mode: Mode, code: Code, blocked: bool,
      at: Time)
    | SendFailed(id: nat, at: Time)
    | ReadPending(k: nat, id: nat, phone: Phone, at: Time)
    | AnswerMessage(k: nat, code: Code)
    | ReadChallenge(k: nat, id: nat, admin: Person, session: Session, purposes: set<Purpose>, guess: Code, at: Time)
    | Count(k: nat)
    | Compare(k: nat)
    | Finish(k: nat)
    | Remove(admin: Person)

  // ---------------------------------------------------------------- issuing

  /** Whose codes a sending cap counts. */
  datatype Counted = Account(admin: Person) | Number(phone: Phone)

  predicate IsFor(c: Challenge, who: Counted) {
    match who
    case Account(admin) => c.admin == admin
    case Number(phone) => c.phone == phone && c.purpose == Enrol
  }

  /** Stored codes for an account or number created after a moment. */
  function CountSince(rows: seq<Challenge>, who: Counted, after: Time): nat {
    if rows == [] then 0
    else (if !rows[0].removed && IsFor(rows[0],
        who) && rows[0].createdAt > after then 1 else 0) + CountSince(rows[1..], who, after)
  }

  predicate OverCap(rows: seq<Challenge>, admin: Person, purpose: Purpose, phone: Phone, at: Time) {
    || CountSince(rows, Account(admin), at - TEN_MINUTES) >= SENDS_PER_ACCOUNT_10_MIN
    || CountSince(rows, Account(admin), at - DAY) >= SENDS_PER_ACCOUNT_DAY
    || (purpose == Enrol && CountSince(rows, Number(phone), at - HOUR) >= SENDS_PER_NUMBER_HOUR)
  }

  /** Only the newest request of a session works: older ones are retired. */
  function Retire(rows: seq<Challenge>, admin: Person, session: Session, at: Time): (r: seq<Challenge>)
    ensures |r| == |rows|
    ensures forall i :: 0 <= i < |r| ==>
      r[i] == rows[i] || (rows[i].consumedAt.None? && r[i] == rows[i].(consumedAt := Some(at)))
  {
    seq(|rows|, i requires 0 <= i < |rows| =>
      if !rows[i].removed && rows[i].admin == admin && rows[i].session == session && rows[i].consumedAt.None?
      then rows[i].(consumedAt := Some(at)) else rows[i])
  }

  function IssueCode(s: State, step: Step): Turn
    requires step.Issue?
  {
    if OverCap(s.rows, step.admin, step.purpose, step.phone, step.at) then Turn(s, Refused(TooMany))
    else if step.blocked then Turn(s, Refused(BlockedNumber))
    else
      var created := Challenge(step.admin, step.session, step.purpose,
        if step.mode == Message then None else Some(step.code),
        step.mode == Message, step.phone, 0,
        step.at + (if step.mode == Message then MESSAGE_WAIT_MS else CODE_TTL_MS), None, step.at, false);
      Turn(State(Retire(s.rows, step.admin, step.session, step.at) + [created], s.calls, s.compared + [0], s.wins),
        Done)
  }

  // ---------------------------------------------------------------- answering "ADMIN CODE"

  predicate IsPending(c: Challenge, phone: Phone, at: Time) {
    !c.removed && c.phone == phone && c.awaiting && c.consumedAt.None? && c.expiresAt > at
  }

  function AnswerWith(s: State, k: nat, code: Code): Turn
    requires k in s.calls && s.calls[k].Answering? && s.calls[k].id < |s.rows|
  {
    var call := s.calls[k];
    var row := s.rows[call.id];
    if row.removed || !row.awaiting || row.consumedAt.Some? then Turn(s.(calls := s.calls - {k}), Done)
    else
      var answered := row.(awaiting := false, code := Some(code), attempts := 0, expiresAt := call.at + CODE_TTL_MS);
      Turn(s.(rows := s.rows[call.id := answered], calls := s.calls - {k}), Done)
  }

  // ---------------------------------------------------------------- verifying

  predicate IsLive(c: Challenge, admin: Person, session: Session, purposes: set<Purpose>, at: Time) {
    && !c.removed && c.admin == admin && c.session == session && c.purpose in purposes
    && c.consumedAt.None? && !c.awaiting && c.expiresAt > at
  }

  /** Of the matching rows, one created last: the first of a descending order by creation. */
  predicate IsNewest(rows: seq<Challenge>, id: nat, matching: Challenge -> bool) {
    id < |rows| && matching(rows[id])
    && forall j :: 0 <= j < |rows| && matching(rows[j]) ==> rows[j].createdAt <= rows[id].createdAt
  }

  function CountGuess(s: State, k: nat): Turn
    requires k in s.calls && s.calls[k].Counting? && s.calls[k].id < |s.rows|
  {
    var call := s.calls[k];
    var row := s.rows[call.id];
    if row.removed || row.consumedAt.Some? || row.attempts >= MAX_GUESSES then
      Turn(s.(calls := s.calls - {k}), Refused(BadCode))
    else Turn(s.(rows := s.rows[call.id := row.(attempts := row.attempts + 1)],
                 calls := s.calls[k := Comparing(call.id, call.row, call.guess, call.at)]), Continues)
  }

  /** The comparison itself works on the row as it was read, and so does the test for the last guess. */
  function CompareGuess(s: State, k: nat): Turn
    requires k in s.calls && s.calls[k].Comparing? && s.calls[k].id < |s.compared|
  {
    var call := s.calls[k];
    var compared := s.compared[call.id := s.compared[call.id] + 1];
    if call.row.code == Some(call.guess) then
      Turn(s.(compared := compared, calls := s.calls[k := Claiming(call.id, call.row, call.guess, call.at)]), Continues)
    else if call.row.attempts + 1 >= MAX_GUESSES then
      Turn(s.(compared := compared, calls := s.calls[k := Retiring(call.id, call.at)]), Continues)
    else Turn(s.(compared := compared, calls := s.calls - {k}), Refused(BadCode))
  }

  function FinishGuess(s: State, k: nat): Turn
    requires k in s.calls && (s.calls[k].Claiming? || s.calls[k].Retiring?) && s.calls[k].id < |s.rows|
  {
    var call := s.calls[k];
    var row := s.rows[call.id];
    if row.removed || row.consumedAt.Some? then Turn(s.(calls := s.calls - {k}), Refused(BadCode))
    else
      var rows := s.rows[call.id := row.(consumedAt := Some(call.at))];
      if call.Claiming? then Turn(State(rows, s.calls - {k}, s.compared, s.wins + [Win(call.id, call.guess)]), Done)
      else Turn(State(rows, s.calls - {k}, s.compared, s.wins), Refused(BadCode))
  }

  function RemoveAll(rows: seq<Challenge>, admin: Person): (r: seq<Challenge>)
    ensures |r| == |rows|
    ensures forall i :: 0 <= i < |r| ==> r[i] == if rows[i].admin == admin then rows[i].(removed := true) else rows[i]
  {
    seq(|rows|, i requires 0 <= i < |rows| => if rows[i].admin == admin then rows[i].(removed := true) else rows[i])
  }

  // ---------------------------------------------------------------- runs

  predicate Due(s: State, step: Step) {
    match step
    case SendFailed(id, _) => id < |s.rows| && !s.rows[id].removed
    case ReadPending(k, id, phone, at) => k !in s.calls && IsNewest(s.rows, id, c => IsPending(c, phone, at))
    case AnswerMessage(k, _) => k in s.calls && s.calls[k].Answering? && s.calls[k].id < |s.rows|
    case ReadChallenge(k, id, admin, session, purposes, _, at) =>
      k !in s.calls && IsNewest(s.rows, id, c => IsLive(c, admin, session, purposes, at))
    case Count(k) => k in s.calls && s.calls[k].Counting? && s.calls[k].id < |s.rows|
    case Compare(k) => k in s.calls && s.calls[k].Comparing? && s.calls[k].id < |s.compared|
    case Finish(k) => k in s.calls && (s.calls[k].Claiming? || s.calls[k].Retiring?) && s.calls[k].id < |s.rows|
    case _ => true
  }

  function Next(s: State, step: Step): Turn {
    if !Due(s, step) then Turn(s, Continues) else
    match step
    case Issue(_, _, _, _, _, _, _, _) => IssueCode(s, step)
    case SendFailed(id, at) => Turn(s.(rows := s.rows[id := s.rows[id].(consumedAt := Some(at))]), Done)
    case ReadPending(k, id, _, at) => Turn(s.(calls := s.calls[k := Answering(id, at)]), Continues)
    case AnswerMessage(k, code) => AnswerWith(s, k, code)
    case ReadChallenge(k, id, _, _, _, guess, at) =>
      Turn(s.(calls := s.calls[k := Counting(id, s.rows[id], guess, at)]), Continues)
    case Count(k) => CountGuess(s, k)
    case Compare(k) => CompareGuess(s, k)
    case Finish(k) => FinishGuess(s, k)
    case Remove(admin) => Turn(s.(rows := RemoveAll(s.rows, admin)), Done)
  }

  function After(s: State, steps: seq<Step>): State
    decreases |steps|
  {
    if steps == [] then s else After(Next(s, steps[0]).state, steps[1..])
  }

  const INITIAL := State([], map[], [], [])
}
