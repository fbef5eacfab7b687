/**
 * One inbound message of one phone number (src/messageDispatcher.ts, src/onboarding/onboardingFlow.ts). Every call it
 * makes may fail; what was stored before a failed reply is put back.
 */
module Onboarding {
  import opened Prelude
  import opened Text

  /** The onboarding step of a merchant, and of the prompt that belongs to it. */
  datatype Step = BusinessName | Consent | FirstCustomer | Complete

  datatype Incident = RollbackLost | RevertLost | DispatchThrew | MarkLost

  /** What is stored for the number, the prompt it last saw, and what was done about each message. */
  datatype State = State(
    merchant: Option<Step>,
    businesses: nat,
    shown: Option<Step>,
    terms: nat,
    processing: nat,
    marks: nat,
    incidents: seq<Incident>,
    failureReplies: nat)

  datatype Message = Message(
    text: Option<string>,
    isConsentWord: bool, // STOP or START from a shopper with a consent history
    supported: bool,     // the number's country is one the service works in
    suspended: bool,
    removed: bool,
    isName: bool)        // the text could be a first customer's name

  datatype Call =
    | ReadText | FindMerchant | ConsentWords | ReadCountries | Notice | CreateBusiness | CreateMerchant
    | DeleteMerchant | DeleteBusiness | CheckSuspended | SaveName | FindConsent | LogTerms | LogProcessing
    | SaveCustomer | SaveStep | RevertStep | SendReply | Serve | MarkProcessed

  datatype World = World(fails: Call -> bool)

  datatype Continued = Broke(broken: State) | Answered(state: State, prompt: Step)

  datatype Outcome = Outcome(state: State, threw: bool)

  // ---------------------------------------------------------------- the steps of onboarding

  predicate IsYes(text: string) { Lower(Trim(text)) == "y" || Lower(Trim(text)) == "yes" }

  predicate IsBlankOrCommand(text: string) { Trim(text) == "" || Trim(text)[0] == '/' }

  function MoveTo(s: State, w: World, next: Step): Continued {
    if w.fails(SaveStep) then Broke(s) else Answered(s.(merchant := Some(next)), next)
  }

  /** Two rows record one consent; the second is not written again if the first is there. */
  function LogConsent(s: State, w: World): Outcome {
    if s.terms > 0 then Outcome(s, false)
    else if w.fails(LogTerms) then Outcome(s, true)
    else if w.fails(LogProcessing) then Outcome(s.(terms := s.terms + 1), true)
    else Outcome(s.(terms := s.terms + 1, processing := s.processing + 1), false)
  }

  function ContinueOnboarding(s: State, step: Step, text: string, isName: bool, w: World): Continued {
    match step
    case BusinessName =>
      if IsBlankOrCommand(text) then Answered(s, BusinessName)
      else if w.fails(SaveName) then Broke(s)
      else MoveTo(s, w, Consent)
    case Consent =>
      if !IsYes(text) then Answered(s, Consent)
      else if w.fails(FindConsent) then Broke(s)
      else
        var logged := LogConsent(s, w);
        if logged.threw then Broke(logged.state) else MoveTo(logged.state, w, FirstCustomer)
    case FirstCustomer =>
      if Trim(text) == "" then Answered(s, FirstCustomer)
      else if isName && w.fails(SaveCustomer) then Broke(s)
      else MoveTo(s, w, Complete)
    case Complete => Broke(s)
  }

  // ---------------------------------------------------------------- replies and what undoes a lost one

  function Report(s: State, incident: Incident): State { s.(incidents := s.incidents + [incident]) }

  /** A later step's reply; if it cannot be sent, the stored step goes back to where it was. */
  function Onboard(s: State, step: Step, text: string, isName: bool, w: World): Outcome {
    match ContinueOnboarding(s, step, text, isName, w)
    case Broke(t) => Outcome(t, true)
    case Answered(t, prompt) =>
      if !w.fails(SendReply) then Outcome(t.(shown := Some(prompt)), false)
      else if w.fails(RevertStep) then Outcome(Report(t, RevertLost), true)
      else Outcome(t.(merchant := Some(step)), true)
  }

  /** Undoes a sign-up whose welcome was not sent; the database keeps a business that still has a merchant. */
  function RollBack(s: State, w: World): State
    requires s.businesses > 0
  {
    var t := if w.fails(DeleteMerchant) then Report(s, RollbackLost) else s.(merchant := None);
    if w.fails(DeleteBusiness) || t.merchant.Some? then Report(t, RollbackLost)
    else t.(businesses := t.businesses - 1)
  }

  function Welcome(s: State, supported: bool, w: World): Outcome {
    if w.fails(ReadCountries) then Outcome(s, true)
    else if !supported then Outcome(s, w.fails(Notice))
    else if w.fails(CreateBusiness) then Outcome(s, true)
    else
      var t := s.(businesses := s.businesses + 1);
      if w.fails(CreateMerchant) then Outcome(t, true)
      else
        var u := t.(merchant := Some(BusinessName));
        if w.fails(SendReply) then Outcome(RollBack(u, w), true) else Outcome(u.(shown := Some(BusinessName)), false)
  }

  function Handled(s: State, m: Message, w: World): Outcome {
    if w.fails(ReadText) || w.fails(FindMerchant) then Outcome(s, true)
    else
      match s.merchant
      case None =>
        if m.text.Some? && w.fails(ConsentWords) then Outcome(s, true)
        else if m.text.Some? && m.isConsentWord then Outcome(s, false)
        else Welcome(s, m.supported, w)
      case Some(step) =>
        if w.fails(CheckSuspended) then Outcome(s, true)
        else if m.suspended || m.removed || (step != Complete && m.text.None?) then Outcome(s, w.fails(SendReply))
        else if step != Complete then Onboard(s, step, m.text.value, m.isName, w)
        else Outcome(s, w.fails(Serve))
  }

  /** Reports a failure and answers it once, and marks the event processed whatever happened. */
  function Dispatched(s: State, m: Message, w: World): State {
    var o := Handled(s, m, w);
    var t := if o.threw then Report(o.state, DispatchThrew).(failureReplies := o.state.failureReplies + 1) else o.state;
    var u := t.(marks := t.marks + 1);
    if w.fails(MarkProcessed) then Report(u, MarkLost) else u
  }

  datatype Turn = Turn(message: Message, world: World)

  function After(s: State, turns: seq<Turn>): State {
    if turns == [] then s
    else
      var last := turns[|turns| - 1];
      Dispatched(After(s, turns[..|turns| - 1]), last.message, last.world)
  }

  const STRANGER := State(None, 0, None, 0, 0, 0, [], 0)

  // ---------------------------------------------------------------- the dispatcher, changing the rows

  class Conversation {
    var merchant: Option<Step>
    var businesses: nat
    var shown: Option<Step>
    var terms: nat
    var processing: nat
    var marks: nat
    var incidents: seq<Incident>
    var failureReplies: nat

    ghost function Now(): State
      reads this
    {
      State(merchant, businesses, shown, terms, processing, marks, incidents, failureReplies)
    }

    method Continue(step: Step, text: string, isName: bool, w: World) returns (prompt: Option<Step>)
      modifies this
      ensures
        var c := ContinueOnboarding(old(Now()), step, text, isName, w);
        if c.Broke? then prompt.None? && Now() == c.broken else prompt == Some(c.prompt) && Now() == c.state
    {
      match step
      case BusinessName =>
        if IsBlankOrCommand(text) { return Some(BusinessName); }
        if w.fails(SaveName) || w.fails(SaveStep) { return None; }
        merchant := Some(Consent);
        return Some(Consent);
      case Consent =>
        if !IsYes(text) { return Some(Consent); }
        if w.fails(FindConsent) { return None; }
        if terms == 0 {
          if w.fails(LogTerms) { return None; }
          terms := terms + 1;
          if w.fails(LogProcessing) { return None; }
          processing := processing + 1;
        }
        if w.fails(SaveStep) { return None; }
        merchant := Some(FirstCustomer);
        return Some(FirstCustomer);
      case FirstCustomer =>
        if Trim(text) == "" { return Some(FirstCustomer); }
        if (isName && w.fails(SaveCustomer)) || w.fails(SaveStep) { return None; }
        merchant := Some(Complete);
        return Some(Complete);
      case Complete => return None;
    }

    method SignUp(supported: bool, w: World) returns (threw: bool)
      modifies this
      ensures Outcome(Now(), threw) == Welcome(old(Now()), supported, w)
    {
      if w.fails(ReadCountries) { return true; }
      if !supported { return w.fails(Notice); }
      if w.fails(CreateBusiness) { return true; }
      businesses := businesses + 1;
      if w.fails(CreateMerchant) { return true; }
      merchant := Some(BusinessName);
      if !w.fails(SendReply) {
        shown := Some(BusinessName);
        return false;
      }
      if w.fails(DeleteMerchant) { incidents := incidents + [RollbackLost]; } else { merchant := None; }
      if w.fails(DeleteBusiness) || merchant.Some? {
        incidents := incidents + [RollbackLost];
      } else {
        businesses := businesses - 1;
      }
      return true;
    }

    method Answer(step: Step, text: string, isName: bool, w: World) returns (threw: bool)
      modifies this
      ensures Outcome(Now(), threw) == Onboard(old(Now()), step, text, isName, w)
    {
      var prompt := Continue(step, text, isName, w);
      if prompt.None? { return true; }
      if !w.fails(SendReply) {
        shown := prompt;
        return false;
      }
      if w.fails(RevertStep) { incidents := incidents + [RevertLost]; } else { merchant := Some(step); }
      return true;
    }

    method DispatchInboundMessage(m: Message, w: World)
      modifies this
      ensures Now() == Dispatched(old(Now()), m, w)
    {
      var threw := w.fails(ReadText) || w.fails(FindMerchant);
      if !threw {
        match merchant
        case None =>
          if m.text.Some? && w.fails(ConsentWords) {
            threw := true;
          } else if !(m.text.Some? && m.isConsentWord) {
            threw := SignUp(m.supported, w);
          }
        case Some(step) =>
          if w.fails(CheckSuspended) {
            threw := true;
          } else if m.suspended || m.removed || (step != Complete && m.text.None?) {
            threw := w.fails(SendReply);
          } else if step != Complete {
            threw := Answer(step, m.text.value, m.isName, w);
          } else {
            threw := w.fails(Serve);
          }
      }
      if threw {
        incidents := incidents + [DispatchThrew];
        failureReplies := failureReplies + 1;
      }
      marks := marks + 1;
      if w.fails(MarkProcessed) { incidents := incidents + [MarkLost]; }
    }
  }
}
