/**
 * The authenticator app and its recovery codes (src/admin/mfa.ts). Each operation reads, works on what it read, and
 * writes under a guard; the reads and the writes of any number of calls interleave. Times are milliseconds.
 */
module Mfa {
  import opened Prelude
  import opened Text

  type Person = nat
  type Secret = nat
  type Time = int

  const STEP_MS := 30_000

  /** The one-time password of each time step of each secret; how it is computed is not modelled. */
  datatype World = World(otp: (Secret, int) -> string)

  datatype Factor = Factor(admin: Person, secret: Secret, confirmed: bool, counter: Option<int>, disabled: bool)

  /** A stored recovery code, known by the text its hash covers; a deleted row keeps its place. */
  datatype CodeRow = CodeRow(admin: Person, code: string, used: bool, deleted: bool)

  datatype Call =
    | Enrolling(admin: Person)
    | Confirming(id: nat, step: int, token: string, at: Time)
    | Moving(id: nat, step: int, token: string, at: Time)
    | Redeeming(admin: Person, unused: seq<nat>, code: string)

  /** A code that was let through. */
  datatype Pass = Pass(factor: nat, step: int, token: string, at: Time)

  datatype State = State(
      factors: seq<Factor>, codes: seq<CodeRow>, calls: map<nat, Call>, passes: seq<Pass>, redeemed: seq<nat>)

  datatype Error = NoFactor | AlreadyEnrolled | BadCode | Replay | Conflict

  datatype Reply = Continues | Done | Remaining(count: int) | Refused(error: Error)

  datatype Turn = Turn(state: State, reply: Reply)

  datatype Step =
    | ReadEnrol(k: nat, admin: Person)
    | WriteEnrol(k: nat, secret: Secret)
    | ReadConfirm(k: nat, id: nat, token: string, at: Time, answer: Option<int>)
    | WriteConfirm(k: nat, newCodes: seq<string>)
    | ReadVerify(k: nat, id: nat, token: string, at: Time, answer: Option<int>)
    | WriteVerify(k: nat)
    | ReadRedeem(k: nat, admin: Person, typed: string)
    | WriteRedeem(k: nat)
    | Regenerate(admin: Person, newCodes: seq<string>)
    | Reset(admin: Person)

  // ---------------------------------------------------------------- one-time passwords

  predicate InWindow(step: int, at: Time) { at / STEP_MS - 1 <= step <= at / STEP_MS + 1 }

  predicate Matches(w: World, secret: Secret, token: string, at: Time, after: Option<int>, step: int) {
    InWindow(step, at) && w.otp(secret, step) == token && (after.None? || step > after.value)
  }

  predicate SomeStepMatches(w: World, secret: Secret, token: string, at: Time, after: Option<int>) {
    var now := at / STEP_MS;
    || Matches(w, secret, token, at, after, now - 1)
    || Matches(w, secret, token, at, after, now)
    || Matches(w, secret, token, at, after, now + 1)
  }

  /** What the one-time-password library may answer: a matching step, or nothing when there is none. */
  predicate Answers(w: World, secret: Secret, token: string, at: Time, after: Option<int>, answer: Option<int>) {
    match answer
    case Some(step) => Matches(w, secret, token, at, after, step)
    case None => !SomeStepMatches(w, secret, token, at, after)
  }

  // ---------------------------------------------------------------- enrolment

  predicate IsConfirmed(f: Factor, admin: Person) { f.admin == admin && !f.disabled && f.confirmed }

  predicate IsPending(f: Factor, admin: Person) { f.admin == admin && !f.disabled && !f.confirmed }

  predicate HasConfirmed(factors: seq<Factor>,
      admin: Person) { exists i :: 0 <= i < |factors| && IsConfirmed(factors[i], admin) }

  function DisablePending(factors: seq<Factor>, admin: Person): (r: seq<Factor>)
    ensures |r| == |factors|
    ensures forall i :: 0 <= i < |r| ==>
      r[i] == if IsPending(factors[i], admin) then factors[i].(disabled := true) else factors[i]
  {
    seq(|factors|, i requires 0 <= i < |factors| =>
      if IsPending(factors[i], admin) then factors[i].(disabled := true) else factors[i])
  }

  /** One transaction; the database allows an account only one factor that is not disabled. */
  function Enrol(s: State, k: nat, secret: Secret): Turn
    requires k in s.calls && s.calls[k].Enrolling?
  {
    var admin := s.calls[k].admin;
    var t := s.(calls := s.calls - {k});
    if HasConfirmed(s.factors, admin) then Turn(t, Refused(Conflict))
    else Turn(t.(factors := DisablePending(s.factors, admin) + [Factor(admin, secret, false, None, false)]), Done)
  }

  function DeleteCodes(codes: seq<CodeRow>, admin: Person): (r: seq<CodeRow>)
    ensures |r| == |codes|
    ensures forall i :: 0 <= i < |r| ==>
      r[i] == if codes[i].admin == admin then codes[i].(deleted := true) else codes[i]
  {
    seq(|codes|, i requires 0 <= i < |codes| =>
      if codes[i].admin == admin then codes[i].(deleted := true) else codes[i])
  }

  function Batch(admin: Person, newCodes: seq<string>): (r: seq<CodeRow>)
    ensures |r| == |newCodes|
    ensures forall i :: 0 <= i < |r| ==> r[i] == CodeRow(admin, newCodes[i], false, false)
  {
    seq(|newCodes|, i requires 0 <= i < |newCodes| => CodeRow(admin, newCodes[i], false, false))
  }

  function Reissued(codes: seq<CodeRow>, admin: Person, newCodes: seq<string>): seq<CodeRow> {
    DeleteCodes(codes, admin) + Batch(admin, newCodes)
  }

  function Confirm(s: State, k: nat, newCodes: seq<string>): Turn
    requires k in s.calls && s.calls[k].Confirming? && s.calls[k].id < |s.factors|
  {
    var call := s.calls[k];
    var f := s.factors[call.id];
    var t := s.(calls := s.calls - {k});
    if f.confirmed || f.disabled then Turn(t, Refused(NoFactor))
    else
      Turn(t.(factors := s.factors[call.id := f.(confirmed := true, counter := Some(call.step))],
              codes := Reissued(s.codes, f.admin, newCodes),
              passes := s.passes + [Pass(call.id, call.step, call.token, call.at)]), Done)
  }

  // ---------------------------------------------------------------- signing in

  /** The replay guard moves forward in one guarded write, which does not look at `disabled` again. */
  function Verify(s: State, k: nat): Turn
    requires k in s.calls && s.calls[k].Moving? && s.calls[k].id < |s.factors|
  {
    var call := s.calls[k];
    var f := s.factors[call.id];
    var t := s.(calls := s.calls - {k});
    if f.counter.Some? && f.counter.value >= call.step then Turn(t, Refused(Replay))
    else
      Turn(t.(factors := s.factors[call.id := f.(counter := Some(call.step))],
              passes := s.passes + [Pass(call.id, call.step, call.token, call.at)]), Done)
  }

  // ---------------------------------------------------------------- recovery codes

  predicate IsUnused(row: CodeRow, admin: Person) { row.admin == admin && !row.used && !row.deleted }

  /** The unused codes of an account, in table order. */
  function UnusedIds(codes: seq<CodeRow>, admin: Person): (ids: seq<nat>)
    ensures forall id :: id in ids <==> 0 <= id < |codes| && IsUnused(codes[id], admin)
  {
    if codes == [] then []
    else
      var last := |codes| - 1;
      UnusedIds(codes[..last], admin) + if IsUnused(codes[last], admin) then [last] else []
  }

  /** Spaces and hyphens do not count, nor does case. */
  function Normalised(s: string): string {
    if s == "" then ""
    else if IsSpace(s[0]) || s[0] == '-' then Normalised(s[1..])
    else [if IsLowerLetter(s[0]) then s[0] - 32 as char else s[0]] + Normalised(s[1..])
  }

  predicate IsMatch(codes: seq<CodeRow>, id: nat,
      cleaned: string) { id < |codes| && |cleaned| == 10 && codes[id].code == cleaned }

  /** The first code of the list that was typed. */
  function FirstMatch(codes: seq<CodeRow>, ids: seq<nat>, cleaned: string): (r: Option<nat>)
    ensures r.Some? ==> r.value in ids && IsMatch(codes, r.value, cleaned)
    ensures r.None? ==> forall id :: id in ids ==> !IsMatch(codes, id, cleaned)
  {
    if ids == [] then None
    else if IsMatch(codes, ids[0], cleaned) then Some(ids[0])
    else FirstMatch(codes, ids[1..], cleaned)
  }

  function Redeem(s: State, k: nat): Turn
    requires k in s.calls && s.calls[k].Redeeming?
  {
    var call := s.calls[k];
    var t := s.(calls := s.calls - {k});
    match FirstMatch(s.codes, call.unused, call.code)
    case None => Turn(t, Refused(BadCode))
    case Some(id) =>
      if s.codes[id].used || s.codes[id].deleted then Turn(t, Refused(BadCode))
      else
        Turn(t.(codes := s.codes[id := s.codes[id].(used := true)], redeemed := s.redeemed + [id]),
          Remaining(|call.unused| - 1))
  }

  function DisableAll(factors: seq<Factor>, admin: Person): (r: seq<Factor>)
    ensures |r| == |factors|
    ensures forall i :: 0 <= i < |r| ==>
      r[i] == if factors[i].admin == admin then factors[i].(disabled := true) else factors[i]
  {
    seq(|factors|, i requires 0 <= i < |factors| =>
      if factors[i].admin == admin then factors[i].(disabled := true) else factors[i])
  }

  // ---------------------------------------------------------------- runs

  predicate Due(w: World, s: State, step: Step) {
    match step
    case ReadEnrol(k, _) => k !in s.calls
    case WriteEnrol(k, _) => k in s.calls && s.calls[k].Enrolling?
    case ReadConfirm(k, id, token, at, answer) =>
      && k !in s.calls && id < |s.factors| && IsPending(s.factors[id], s.factors[id].admin)
      && Answers(w, s.factors[id].secret, token, at, None, answer)
    case WriteConfirm(k, _) => k in s.calls && s.calls[k].Confirming? && s.calls[k].id < |s.factors|
    case ReadVerify(k, id, token, at, answer) =>
      && k !in s.calls && id < |s.factors| && IsConfirmed(s.factors[id], s.factors[id].admin)
      && Answers(w, s.factors[id].secret, token, at, s.factors[id].counter, answer)
    case WriteVerify(k) => k in s.calls && s.calls[k].Moving? && s.calls[k].id < |s.factors|
    case ReadRedeem(k, _, _) => k !in s.calls
    case WriteRedeem(k) => k in s.calls && s.calls[k].Redeeming?
    case Regenerate(_, _) => true
    case Reset(_) => true
  }

  function Next(w: World, s: State, step: Step): Turn {
    if !Due(w, s, step) then Turn(s, Continues) else
    match step
    case ReadEnrol(k, admin) =>
      if HasConfirmed(s.factors, admin) then Turn(s, Refused(AlreadyEnrolled))
      else Turn(s.(calls := s.calls[k := Enrolling(admin)]), Continues)
    case WriteEnrol(k, secret) => Enrol(s, k, secret)
    case ReadConfirm(k, id, token, at, answer) =>
      if answer.None? then Turn(s, Refused(BadCode))
      else Turn(s.(calls := s.calls[k := Confirming(id, answer.value, token, at)]), Continues)
    case WriteConfirm(k, newCodes) => Confirm(s, k, newCodes)
    case ReadVerify(k, id, token, at, answer) =>
      if answer.None? then
        Turn(s, Refused(if SomeStepMatches(w, s.factors[id].secret, token, at, None) then Replay else BadCode))
      else Turn(s.(calls := s.calls[k := Moving(id, answer.value, token, at)]), Continues)
    case WriteVerify(k) => Verify(s, k)
    case ReadRedeem(k, admin, typed) =>
      Turn(s.(calls := s.calls[k := Redeeming(admin, UnusedIds(s.codes, admin), Normalised(typed))]), Continues)
    case WriteRedeem(k) => Redeem(s, k)
    case Regenerate(admin, newCodes) => Turn(s.(codes := Reissued(s.codes, admin, newCodes)), Done)
    case Reset(admin) => Turn(s.(factors := DisableAll(s.factors, admin), codes := DeleteCodes(s.codes, admin)), Done)
  }

  function After(w: World, s: State, steps: seq<Step>): State
    decreases |steps|
  {
    if steps == [] then s else After(w, Next(w, s, steps[0]).state, steps[1..])
  }

  const INITIAL := State([], [], map[], [], [])
}
