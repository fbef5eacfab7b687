/**
 * Whose number a WhatsApp code proves (src/admin/whatsappCodes.ts). An account has one number; it is stored before the
 * sending caps are looked at, and confirmed later by whatever enrolment code of the account is entered, one database
 * statement at a time. The code machine runs inside, its requests guarded by the number on file.
 */
module WhatsappNumbers {
  import opened WhatsappCodes

  /** The number on file for an account. */
  datatype Factor = Factor(phone: Phone, confirmed: bool)

  datatype Request = Request(
      admin: Person, session: Session, phone: Phone, mode: Mode, code: Code, blocked: bool, at: Time)

  /** An operation between two statements: what it has found and will do next. */
  datatype Work =
    | Storing(request: Request)                  // no number was confirmed
    | Asking(request: Request, purpose: Purpose) // the number is stored, or was read
    | Proving(admin: Person, sentTo: Phone)      // an enrolment code sent to this number was entered

  datatype Event =
    | Stored(admin: Person, phone: Phone)
    | Confirmed(admin: Person, phone: Phone, sentTo: Phone)

  datatype System = System(codes: State, factors: map<Person, Factor>, work: map<nat, Work>, log: seq<Event>)

  datatype Answer = Goes | Finished | AlreadyEnrolled | NoFactor | Denied(error: CodeError)

  datatype Outcome = Outcome(system: System, answer: Answer)

  datatype Move =
    | StartEnrolment(w: nat, request: Request)
    | StoreNumber(w: nat)
    | StartSend(w: nat, request: Request, purpose: Purpose)
    | Ask(w: nat)
    | Take(w: nat, step: Step) // a step of the code machine other than a request or a removal
    | ConfirmNumber(w: nat)
    | RemoveNumber(admin: Person)

  predicate HasConfirmed(factors: map<Person, Factor>, admin: Person) { admin in factors && factors[admin].confirmed }

  function IssueOf(r: Request, purpose: Purpose): Step {
    Issue(r.admin, r.session, purpose, r.phone, r.mode, r.code, r.blocked, r.at)
  }

  predicate Due(s: System, m: Move) {
    match m
    case StartEnrolment(w, _) => w !in s.work
    case StoreNumber(w) => w in s.work && s.work[w].Storing?
    case StartSend(w, _, purpose) => w !in s.work && purpose != Enrol
    case Ask(w) => w in s.work && s.work[w].Asking?
    case Take(w, step) => w !in s.work && !step.Issue? && !step.Remove?
    case ConfirmNumber(w) => w in s.work && s.work[w].Proving?
    case RemoveNumber(_) => true
  }

  /** The number is written over whatever was there, and is unconfirmed. */
  function Store(s: System, w: nat): System
    requires w in s.work && s.work[w].Storing?
  {
    var r := s.work[w].request;
    s.(factors := s.factors[r.admin := Factor(r.phone, false)],
       work := s.work[w := Asking(r, Enrol)],
       log := s.log + [Stored(r.admin, r.phone)])
  }

  function AnswerOf(reply: Reply): Answer { if reply.Refused? then Denied(reply.error) else Finished }

  /** A code entered right is claimed by the code machine; one for enrolment goes on to confirm the number. */
  function TakeStep(s: System, w: nat, step: Step): Outcome {
    var turn := Next(s.codes, step);
    var t := s.(codes := turn.state);
    if |turn.state.wins| <= |s.codes.wins| || turn.state.wins[|s.codes.wins|].id >= |turn.state.rows| then
      Outcome(t, AnswerOf(turn.reply))
    else
      var row := turn.state.rows[turn.state.wins[|s.codes.wins|].id];
      if row.purpose != Enrol then Outcome(t, Finished)
      else Outcome(t.(work := t.work[w := Proving(row.admin, row.phone)]), Goes)
  }

  /** One guarded write: an unconfirmed number becomes confirmed, whichever it is. */
  function Confirm(s: System, w: nat): Outcome
    requires w in s.work && s.work[w].Proving?
  {
    var admin, sentTo := s.work[w].admin, s.work[w].sentTo;
    var t := s.(work := s.work - {w});
    if admin !in s.factors || s.factors[admin].confirmed then Outcome(t, NoFactor)
    else
      Outcome(t.(factors := s.factors[admin := s.factors[admin].(confirmed := true)],
                 log := s.log + [Confirmed(admin, s.factors[admin].phone, sentTo)]), Finished)
  }

  function NextMove(s: System, m: Move): Outcome {
    if !Due(s, m) then Outcome(s, Goes) else
    match m
    case StartEnrolment(w, request) =>
      if HasConfirmed(s.factors, request.admin) then Outcome(s, AlreadyEnrolled)
      else Outcome(s.(work := s.work[w := Storing(request)]), Goes)
    case StoreNumber(w) => Outcome(Store(s, w), Goes)
    case StartSend(w, request, purpose) =>
      if !HasConfirmed(s.factors, request.admin) then Outcome(s, NoFactor)
      else Outcome(s.(work := s.work[w := Asking(request.(phone := s.factors[request.admin].phone), purpose)]), Goes)
    case Ask(w) =>
      var turn := Next(s.codes, IssueOf(s.work[w].request, s.work[w].purpose));
      Outcome(s.(codes := turn.state, work := s.work - {w}), AnswerOf(turn.reply))
    case Take(w, step) => TakeStep(s, w, step)
    case ConfirmNumber(w) => Confirm(s, w)
    case RemoveNumber(admin) =>
      Outcome(s.(codes := Next(s.codes, Remove(admin)).state, factors := s.factors - {admin}), Finished)
  }

  function AfterMoves(s: System, moves: seq<Move>): System
    decreases |moves|
  {
    if moves == [] then s else AfterMoves(NextMove(s, moves[0]).system, moves[1..])
  }

  const START := System(INITIAL, map[], map[], [])

  // ---------------------------------------------------------------- the tables, changed in place

  class NumberTable {
    var codes: State
    var factors: map<Person, Factor>
    var work: map<nat, Work>
    var log: seq<Event>

    ghost function Now(): System
      reads this
    {
      System(codes, factors, work, log)
    }

    method StartWhatsappEnrolment(w: nat, request: Request) returns (answer: Answer)
      requires w !in work
      modifies this`work
      ensures Outcome(Now(), answer) == NextMove(old(Now()), StartEnrolment(w, request))
    {
      if request.admin in factors && factors[request.admin].confirmed { return AlreadyEnrolled; }
      work := work[w := Storing(request)];
      return Goes;
    }

    method UpsertNumber(w: nat) returns (answer: Answer)
      requires w in work && work[w].Storing?
      modifies this
      ensures Outcome(Now(), answer) == NextMove(old(Now()), StoreNumber(w))
    {
      var r := work[w].request;
      factors := factors[r.admin := Factor(r.phone, false)];
      work := work[w := Asking(r, Enrol)];
      log := log + [Stored(r.admin, r.phone)];
      return Goes;
    }

    method SendWhatsappCode(w: nat, request: Request, purpose: Purpose) returns (answer: Answer)
      requires w !in work && purpose != Enrol
      modifies this`work
      ensures Outcome(Now(), answer) == NextMove(old(Now()), StartSend(w, request, purpose))
    {
      if request.admin !in factors || !factors[request.admin].confirmed { return NoFactor; }
      work := work[w := Asking(request.(phone := factors[request.admin].phone), purpose)];
      return Goes;
    }

    method ConfirmWhatsappEnrolment(w: nat) returns (answer: Answer)
      requires w in work && work[w].Proving?
      modifies this
      ensures Outcome(Now(), answer) == NextMove(old(Now()), ConfirmNumber(w))
    {
      var admin, sentTo := work[w].admin, work[w].sentTo;
      work := work - {w};
      if admin !in factors || factors[admin].confirmed { return NoFactor; }
      factors := factors[admin := factors[admin].(confirmed := true)];
      log := log + [Confirmed(admin, factors[admin].phone, sentTo)];
      return Finished;
    }

    method RemoveWhatsappFactor(admin: Person) returns (answer: Answer)
      modifies this
      ensures Outcome(Now(), answer) == NextMove(old(Now()), RemoveNumber(admin))
    {
      codes := codes.(rows := RemoveAll(codes.rows, admin));
      factors := factors - {admin};
      return Finished;
    }
  }
}
