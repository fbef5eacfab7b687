/** The stored onboarding step and what the person was last shown, over every run of messages and failures. */
module OnboardingSafety {
  import opened Prelude
  import opened Text
  import opened Onboarding

  /** The stored step is the one whose prompt was last delivered; nobody is stored who was never welcomed. */
  predicate InStep(s: State) { s.shown == s.merchant }

  /** A reply was lost after something was stored for it, and so was the write that puts it back. */
  predicate CompensationLost(s: State, m: Message, w: World) {
    && !w.fails(ReadText) && !w.fails(FindMerchant) && w.fails(SendReply)
    && match s.merchant
       case None =>
         && !(m.text.Some? && (w.fails(ConsentWords) || m.isConsentWord))
         && !w.fails(ReadCountries) && m.supported && !w.fails(CreateBusiness) && !w.fails(CreateMerchant)
         && w.fails(DeleteMerchant)
       case Some(step) =>
         && !w.fails(CheckSuspended) && !m.suspended && !m.removed && step != Complete && m.text.Some?
         && StepMoved(s, step, m, w) && w.fails(RevertStep)
  }

  /** The answer is good for its step, and every call that stores the next one succeeds. */
  predicate StepMoved(s: State, step: Step, m: Message, w: World)
    requires m.text.Some?
  {
    var text := Trim(m.text.value);
    && !w.fails(SaveStep)
    && match step
       case BusinessName => text != "" && text[0] != '/' && !w.fails(SaveName)
       case Consent =>
         && Lower(text) in {"y", "yes"} && !w.fails(FindConsent)
         && (s.terms > 0 || (!w.fails(LogTerms) && !w.fails(LogProcessing)))
       case FirstCustomer => text != "" && !(m.isName && w.fails(SaveCustomer))
       case Complete => false
  }

  lemma {:induction false} OnboardingMovesOn(s: State, step: Step, text: string, isName: bool, w: World)
    requires s.merchant == Some(step)
    ensures
      var c := ContinueOnboarding(s, step, text, isName, w);
      if c.Broke? then
        c.broken.merchant == s.merchant && c.broken.shown == s.shown && c.broken.businesses == s.businesses
      else c.state.merchant == Some(c.prompt) && c.state.shown == s.shown && c.state.businesses == s.businesses
  {
  }

  /**
   * After a dispatch the stored step is again the one whose prompt was last delivered, whatever call failed, except
   * exactly when the reply and the write that undoes its step were both lost.
   */
  lemma StepMatchesPromptExactlyWhen(s: State, m: Message, w: World)
    requires InStep(s)
    ensures InStep(Dispatched(s, m, w)) <==> !CompensationLost(s, m, w)
  {
    if s.merchant.Some? && m.text.Some? {
      OnboardingMovesOn(s, s.merchant.value, m.text.value, m.isName, w);
    }
  }

  predicate Undoes(w: World) { !w.fails(DeleteMerchant) && !w.fails(RevertStep) }

  /** Over any run in which the undoing writes themselves do not fail, the step and the prompt never part. */
  lemma {:induction false} AlwaysInStep(turns: seq<Turn>)
    requires forall i :: 0 <= i < |turns| ==> Undoes(turns[i].world)
    ensures InStep(After(STRANGER, turns))
  {
    if turns != [] {
      var front, last := turns[..|turns| - 1], turns[|turns| - 1];
      AlwaysInStep(front);
      assert Undoes(last.world);
      StepMatchesPromptExactlyWhen(After(STRANGER, front), last.message, last.world);
    }
  }

  // ---------------------------------------------------------------- one step at a time

  /** Name, consent, first customer, done. */
  function Rank(step: Step): nat {
    match step case BusinessName => 0 case Consent => 1 case FirstCustomer => 2 case Complete => 3
  }

  predicate SignUpStays(m: Message, w: World) {
    && !w.fails(ReadText) && !w.fails(FindMerchant) && !(m.text.Some? && (w.fails(ConsentWords) || m.isConsentWord))
    && !w.fails(ReadCountries) && m.supported && !w.fails(CreateBusiness) && !w.fails(CreateMerchant)
    && (w.fails(SendReply) ==> w.fails(DeleteMerchant))
  }

  predicate StepStays(s: State, step: Step, m: Message, w: World) {
    && !w.fails(ReadText) && !w.fails(FindMerchant) && !w.fails(CheckSuspended) && !m.suspended && !m.removed
    && m.text.Some? && StepMoved(s, step, m, w) && (w.fails(SendReply) ==> w.fails(RevertStep))
  }

  /**
   * A message takes a stranger to the first question, or a merchant one question further, exactly when it answers the
   * question it finds and the calls that store the step succeed, and the reply too unless undoing the step fails; else
   * the step stays. No step is ever skipped.
   */
  lemma {:induction false} OneStepExactlyWhen(s: State, m: Message, w: World)
    ensures var t := Dispatched(s, m, w);
      match s.merchant
      case None => t.merchant == if SignUpStays(m, w) then Some(BusinessName) else None
      case Some(step) =>
        && t.merchant.Some?
        && Rank(t.merchant.value) == Rank(step) + if step != Complete && StepStays(s, step, m, w) then 1 else 0
  {
    if s.merchant.Some? && m.text.Some? { AnswersMove(s, s.merchant.value, m, w); }
  }

  lemma {:induction false} AnswersMove(s: State, step: Step, m: Message, w: World)
    requires m.text.Some?
    ensures
      var c := ContinueOnboarding(s, step, m.text.value, m.isName, w);
      if StepMoved(s, step, m, w) then
        && c.Answered? && c.state.merchant.Some?
        && c.prompt == c.state.merchant.value && Rank(c.prompt) == Rank(step) + 1
      else
        && (c.Answered? ==> c.state.merchant == s.merchant && c.prompt == step)
        && (c.Broke? ==> c.broken.merchant == s.merchant)
  {
  }

  // ---------------------------------------------------------------- nothing left of a failed sign-up

  predicate NothingStranded(s: State) { s.businesses == if s.merchant.Some? then 1 else 0 }

  /** A sign-up stopped between its two rows, or undone only by half. */
  predicate SignUpLeavesABusiness(s: State, m: Message, w: World) {
    && s.merchant.None?
    && !w.fails(ReadText) && !w.fails(FindMerchant)
    && !(m.text.Some? && (w.fails(ConsentWords) || m.isConsentWord))
    && !w.fails(ReadCountries) && m.supported && !w.fails(CreateBusiness)
    && (w.fails(CreateMerchant) || (w.fails(SendReply) && !w.fails(DeleteMerchant) && w.fails(DeleteBusiness)))
  }

  /**
   * A number whose welcome was not delivered has no merchant and no business left, except exactly when the merchant
   * row could not be made after the business row (which nothing undoes), or the undoing itself failed.
   */
  lemma StrandedExactlyWhen(s: State, m: Message, w: World)
    requires NothingStranded(s)
    ensures NothingStranded(Dispatched(s, m, w)) <==> !SignUpLeavesABusiness(s, m, w)
    ensures (s.merchant.None? && w.fails(SendReply) && !w.fails(CreateMerchant) && !w.fails(DeleteMerchant)
             && !w.fails(DeleteBusiness)) ==>
      Dispatched(s, m, w).merchant.None? && Dispatched(s, m, w).businesses == 0
  {
    if s.merchant.Some? && m.text.Some? {
      OnboardingMovesOn(s, s.merchant.value, m.text.value, m.isName, w);
    }
  }

  // ---------------------------------------------------------------- marked once, answered once

  /** A call that answering the question needs fails. */
  predicate StepBreaks(s: State, step: Step, m: Message, w: World)
    requires m.text.Some?
  {
    var text := Trim(m.text.value);
    match step
    case BusinessName => text != "" && text[0] != '/' && (w.fails(SaveName) || w.fails(SaveStep))
    case Consent =>
      && Lower(text) in {"y", "yes"}
      && (w.fails(FindConsent) || (s.terms == 0 && (w.fails(LogTerms) || w.fails(LogProcessing))) || w.fails(SaveStep))
    case FirstCustomer => text != "" && ((m.isName && w.fails(SaveCustomer)) || w.fails(SaveStep))
    case Complete => true
  }

  /** Some call the message needs fails, among them its reply. */
  predicate MessageFails(s: State, m: Message, w: World) {
    w.fails(ReadText) || w.fails(FindMerchant) ||
    match s.merchant
    case None =>
      if m.text.Some? && w.fails(ConsentWords) then true
      else if m.text.Some? && m.isConsentWord then false
      else
        || w.fails(ReadCountries) || (!m.supported && w.fails(Notice))
        || (m.supported && (w.fails(CreateBusiness) || w.fails(CreateMerchant) || w.fails(SendReply)))
    case Some(step) =>
      || w.fails(CheckSuspended)
      || (if m.suspended || m.removed || (step != Complete && m.text.None?) then w.fails(SendReply)
          else if step == Complete then w.fails(Serve)
          else StepBreaks(s, step, m, w) || w.fails(SendReply))
  }

  lemma {:induction false} HandledThrowsExactlyWhen(s: State, m: Message, w: World)
    ensures Handled(s, m, w).threw <==> MessageFails(s, m, w)
  {
    if s.merchant.Some? && m.text.Some? { AnswersBreak(s, s.merchant.value, m, w); }
  }

  lemma {:induction false} AnswersBreak(s: State, step: Step, m: Message, w: World)
    requires m.text.Some?
    ensures ContinueOnboarding(s, step, m.text.value, m.isName, w).Broke? <==> StepBreaks(s, step, m, w)
  {
  }

  /**
   * Marking a message processed is tried exactly once, and so is answering one that failed, which is reported; those
   * calls may fail in turn.
   */
  lemma {:induction false} MarkedOnceEach(turns: seq<Turn>)
    ensures After(STRANGER, turns).marks == |turns|
    ensures turns != [] ==>
      var s, last := After(STRANGER, turns[..|turns| - 1]), turns[|turns| - 1];
      var t := After(STRANGER, turns);
      if MessageFails(s, last.message, last.world)
      then t.failureReplies == s.failureReplies + 1 && DispatchThrew in t.incidents
      else t.failureReplies == s.failureReplies
  {
    if turns != [] {
      var s, last := After(STRANGER, turns[..|turns| - 1]), turns[|turns| - 1];
      MarkedOnceEach(turns[..|turns| - 1]);
      HandlingCountsNothing(s, last.message, last.world);
      HandledThrowsExactlyWhen(s, last.message, last.world);
      var o := Handled(s, last.message, last.world);
      assert o.threw ==> Report(o.state, DispatchThrew).incidents[|o.state.incidents|] == DispatchThrew;
    }
  }

  /** What a message left behind because the write that undoes it failed too. */
  function Undone(s: State, m: Message, w: World): seq<Incident> {
    if w.fails(ReadText) || w.fails(FindMerchant) then []
    else
      match s.merchant
      case None =>
        if (m.text.Some? && (w.fails(ConsentWords) || m.isConsentWord)) || w.fails(ReadCountries) || !m.supported
           || w.fails(CreateBusiness) || w.fails(CreateMerchant) || !w.fails(SendReply) then []
        else if w.fails(DeleteMerchant) then [RollbackLost, RollbackLost]
        else if w.fails(DeleteBusiness) then [RollbackLost] else []
      case Some(step) =>
        if w.fails(CheckSuspended) || m.suspended || m.removed || step == Complete || m.text.None?
           || StepBreaks(s, step, m, w) || !w.fails(SendReply) || !w.fails(RevertStep) then []
        else [RevertLost]
  }

  /** What the incident channel hears of a message: what stayed behind, that it failed, that it could not be marked. */
  function Reports(s: State, m: Message, w: World): seq<Incident> {
    Undone(s, m, w)
    + (if MessageFails(s, m, w) then [DispatchThrew] else [])
    + (if w.fails(MarkProcessed) then [MarkLost] else [])
  }

  lemma {:induction false} AnswersReportNothing(s: State, step: Step, text: string, isName: bool, w: World)
    ensures
      var c := ContinueOnboarding(s, step, text, isName, w);
      if c.Broke? then c.broken.incidents == s.incidents else c.state.incidents == s.incidents
  {
  }

  /** Every loss is reported, each exactly once for each thing that could not be undone, and nothing else is. */
  lemma {:induction false} EachLossIsReported(s: State, m: Message, w: World)
    ensures Dispatched(s, m, w).incidents == s.incidents + Reports(s, m, w)
  {
    HandledThrowsExactlyWhen(s, m, w);
    HandlingReports(s, m, w);
  }

  lemma {:induction false} HandlingReports(s: State, m: Message, w: World)
    ensures Handled(s, m, w).state.incidents == s.incidents + Undone(s, m, w)
  {
    if s.merchant.Some? && m.text.Some? {
      AnswersReportNothing(s, s.merchant.value, m.text.value, m.isName, w);
      AnswersBreak(s, s.merchant.value, m, w);
    }
  }

  lemma HandlingCountsNothing(s: State, m: Message, w: World)
    ensures Handled(s, m, w).state.marks == s.marks && Handled(s, m, w).state.failureReplies == s.failureReplies
  {
  }

  // ---------------------------------------------------------------- consent

  predicate ConsentOk(s: State) {
    && s.processing <= s.terms <= 1
    && (s.merchant.None? ==> s.terms == 0)
    && (s.merchant == Some(BusinessName) ==> s.terms == 0)
    && (s.merchant == Some(FirstCustomer) || s.merchant == Some(Complete) ==> s.terms == 1)
  }

  lemma {:induction false} ContinuingKeepsConsent(s: State, step: Step, text: string, isName: bool, w: World)
    requires ConsentOk(s) && s.merchant == Some(step)
    ensures
      var c := ContinueOnboarding(s, step, text, isName, w);
      && (c.Broke? ==> ConsentOk(c.broken))
      && (c.Answered? ==> ConsentOk(c.state))
      && (c.Answered? ==> ConsentOk(c.state.(merchant := Some(step))))
  {
  }

  lemma {:induction false} WelcomeKeepsConsent(s: State, supported: bool, w: World)
    requires ConsentOk(s) && s.merchant.None?
    ensures ConsentOk(Welcome(s, supported, w).state)
  {
  }

  lemma {:induction false} OnboardKeepsConsent(s: State, step: Step, text: string, isName: bool, w: World)
    requires ConsentOk(s) && s.merchant == Some(step)
    ensures ConsentOk(Onboard(s, step, text, isName, w).state)
  {
    ContinuingKeepsConsent(s, step, text, isName, w);
  }

  lemma {:induction false} DispatchKeepsConsent(s: State, m: Message, w: World)
    requires ConsentOk(s)
    ensures ConsentOk(Dispatched(s, m, w))
  {
    match s.merchant
    case None => WelcomeKeepsConsent(s, m.supported, w);
    case Some(step) =>
      if m.text.Some? { OnboardKeepsConsent(s, step, m.text.value, m.isName, w); }
  }

  /**
   * Through every failure, replay and revert, consent to the terms is recorded at most once, and nobody gets past the
   * consent question without it.
   */
  lemma {:induction false} ConsentIsRecordedOnce(turns: seq<Turn>)
    ensures ConsentOk(After(STRANGER, turns))
  {
    if turns != [] {
      ConsentIsRecordedOnce(turns[..|turns| - 1]);
      DispatchKeepsConsent(After(STRANGER, turns[..|turns| - 1]), turns[|turns| - 1].message, turns[|turns| - 1].world);
    }
  }

  /** The turn at which the terms are recorded. */
  predicate Raises(turns: seq<Turn>, i: nat) {
    i < |turns| && After(STRANGER, turns[..i]).terms == 0 && After(STRANGER, turns[..i + 1]).terms == 1
  }

  /**
   * What a turn may do to the consent rows: nothing once the terms are there, and with them whatever the calls allow.
   */
  predicate LogsFrom(s: State, t: State, w: World) {
    && (s.terms == 1 ==> t.terms == 1 && t.processing == s.processing)
    && (s.terms == 0 && t.terms == 1 ==> t.processing == if w.fails(LogProcessing) then 0 else 1)
  }

  lemma {:induction false} OnboardLogs(s: State, step: Step, text: string, isName: bool, w: World)
    requires ConsentOk(s)
    ensures LogsFrom(s, Onboard(s, step, text, isName, w).state, w)
  {
    if step == Consent { assert LogsFrom(s, LogConsent(s, w).state, w); }
  }

  lemma {:induction false} WelcomeLogs(s: State, supported: bool, w: World)
    ensures var t := Welcome(s, supported, w).state; t.terms == s.terms && t.processing == s.processing
  {
  }

  lemma {:induction false} DispatchLogs(s: State, m: Message, w: World)
    requires ConsentOk(s)
    ensures LogsFrom(s, Dispatched(s, m, w), w)
  {
    match s.merchant
    case None => WelcomeLogs(s, m.supported, w);
    case Some(step) =>
      if m.text.Some? { OnboardLogs(s, step, m.text.value, m.isName, w); }
  }

  lemma {:induction false} TermsAreRaised(turns: seq<Turn>) returns (i: nat)
    requires After(STRANGER, turns).terms == 1
    ensures Raises(turns, i)
  {
    var n := |turns| - 1;
    ConsentIsRecordedOnce(turns[..n]);
    if After(STRANGER, turns[..n]).terms == 1 {
      i := TermsAreRaised(turns[..n]);
      assert turns[..n][..i] == turns[..i] && turns[..n][..i + 1] == turns[..i + 1];
    } else {
      i := n;
      assert turns[..n + 1] == turns;
    }
  }

  /**
   * In every run, once consent to the terms is recorded the second consent row is missing, then and ever after, exactly
   * when its write failed in the very turn that recorded the terms: the person says yes again, the first row is found,
   * and onboarding goes on without the second.
   */
  lemma {:induction false} SecondConsentIsLostExactlyWhen(turns: seq<Turn>, i: nat)
    requires Raises(turns, i)
    ensures After(STRANGER, turns).terms == 1
      && (After(STRANGER, turns).processing == 0 <==> turns[i].world.fails(LogProcessing))
  {
    var n := |turns| - 1;
    var s, last := After(STRANGER, turns[..n]), turns[n];
    ConsentIsRecordedOnce(turns[..n]);
    DispatchLogs(s, last.message, last.world);
    if i == n {
      assert turns[..n + 1] == turns;
    } else {
      assert turns[..n][..i] == turns[..i] && turns[..n][..i + 1] == turns[..i + 1];
      SecondConsentIsLostExactlyWhen(turns[..n], i);
    }
  }

  // ---------------------------------------------------------------- a run that loses it

  function Says(text: string): Message { Message(Some(text), false, true, false, false, false) }

  /** Whether the merchant was shown its step, and what is on record of its consent. */
  predicate Stands(s: State, step: Step, shown: Step, terms: nat, processing: nat) {
    s.merchant == Some(step) && s.shown == Some(shown) && s.terms == terms && s.processing == processing
  }

  lemma {:induction false} AfterOneMore(turns: seq<Turn>, text: string, w: World)
    ensures After(STRANGER, turns + [Turn(Says(text), w)]) == Dispatched(After(STRANGER, turns), Says(text), w)
  {
    assert (turns + [Turn(Says(text), w)])[..|turns|] == turns;
  }

  lemma {:induction false} Welcomed(text: string, well: World)
    requires forall call :: !well.fails(call)
    ensures Stands(Dispatched(STRANGER, Says(text), well), BusinessName, BusinessName, 0, 0)
  {
  }

  lemma {:induction false} Answered(s: State, step: Step, text: string, w: World)
    requires s.merchant == Some(step) && step != Complete
    requires !w.fails(ReadText) && !w.fails(FindMerchant) && !w.fails(CheckSuspended)
    ensures var t, u := Dispatched(s, Says(text), w), Onboard(s, step, text, false, w).state;
      t.merchant == u.merchant && t.shown == u.shown && t.terms == u.terms && t.processing == u.processing
  {
  }

  lemma {:induction false} NameGiven(s: State, name: string, well: World)
    requires Stands(s, BusinessName, BusinessName, 0, 0) && !IsBlankOrCommand(name) && forall call :: !well.fails(call)
    ensures Stands(Dispatched(s, Says(name), well), Consent, Consent, 0, 0)
  {
    Answered(s, BusinessName, name, well);
  }

  lemma {:induction false} YesHalfRecorded(s: State, yes: string, once: World)
    requires Stands(s, Consent, Consent, 0, 0) && IsYes(yes)
    requires once.fails(LogProcessing) && forall call :: call != LogProcessing ==> !once.fails(call)
    ensures Stands(Dispatched(s, Says(yes), once), Consent, Consent, 1, 0)
  {
    Answered(s, Consent, yes, once);
  }

  lemma {:induction false} YesAgain(s: State, yes: string, well: World)
    requires Stands(s, Consent, Consent, 1, 0) && IsYes(yes) && forall call :: !well.fails(call)
    ensures Stands(Dispatched(s, Says(yes), well), FirstCustomer, FirstCustomer, 1, 0)
  {
    Answered(s, Consent, yes, well);
  }

  /** A stranger writes, names the business, says yes when only the second row fails, and says yes again. */
  lemma {:induction false} SecondConsentCanBeLost(well: World, once: World, name: string, yes: string)
    requires !IsBlankOrCommand(name) && IsYes(yes)
    requires once.fails(LogProcessing) && forall call :: call != LogProcessing ==> !once.fails(call)
    requires forall call :: !well.fails(call)
    ensures
      var turns := [] + [Turn(Says(name), well)] + [Turn(Says(name), well)] + [Turn(Says(yes), once)]
        + [Turn(Says(yes), well)];
      Stands(After(STRANGER, turns), FirstCustomer, FirstCustomer, 1, 0)
  {
    var first := [] + [Turn(Says(name), well)];
    var second := first + [Turn(Says(name), well)];
    var third := second + [Turn(Says(yes), once)];
    AfterOneMore([], name, well);
    Welcomed(name, well);
    AfterOneMore(first, name, well);
    NameGiven(After(STRANGER, first), name, well);
    AfterOneMore(second, yes, once);
    YesHalfRecorded(After(STRANGER, second), yes, once);
    AfterOneMore(third, yes, well);
    YesAgain(After(STRANGER, third), yes, well);
  }

  /** With nothing failing, four messages take a stranger through every question to the end, both consents recorded. */
  lemma {:induction false} SmoothSignUp(well: World, hello: string, name: string, yes: string, customer: string)
    requires Trim(name) != "" && Trim(name)[0] != '/' && Lower(Trim(yes)) in {"y", "yes"} && Trim(customer) != ""
    requires forall call :: !well.fails(call)
    ensures
      var turns := [] + [Turn(Says(hello), well)] + [Turn(Says(name), well)] + [Turn(Says(yes), well)]
        + [Turn(Says(customer), well)];
      Stands(After(STRANGER, turns), Complete, Complete, 1, 1)
  {
    var first := [] + [Turn(Says(hello), well)];
    var second := first + [Turn(Says(name), well)];
    var third := second + [Turn(Says(yes), well)];
    AfterOneMore([], hello, well);
    Welcomed(hello, well);
    AfterOneMore(first, name, well);
    NameGiven(After(STRANGER, first), name, well);
    AfterOneMore(second, yes, well);
    var s := After(STRANGER, second);
    Answered(s, Consent, yes, well);
    AfterOneMore(third, customer, well);
    Answered(After(STRANGER, third), FirstCustomer, customer, well);
  }
}
