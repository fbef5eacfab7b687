/** Which number a code confirms, in every run, and that the guards on requests add nothing to what codes can do. */
module WhatsappNumberSafety {
  import opened Prelude
  import opened WhatsappCodes
  import opened WhatsappSafety
  import opened WhatsappCaps
  import opened WhatsappNumbers

  // ---------------------------------------------------------------- runs of codes

  /** The step of the code machine inside a move, if there is one. */
  function StepsOf(s: System, m: Move): seq<Step> {
    if !WhatsappNumbers.Due(s, m) then []
    else
      match m
      case Ask(w) => [IssueOf(s.work[w].request, s.work[w].purpose)]
      case Take(_, step) => [step]
      case RemoveNumber(admin) => [Remove(admin)]
      case _ => []
  }

  function CodeSteps(s: System, moves: seq<Move>): seq<Step>
    decreases |moves|
  {
    if moves == [] then [] else StepsOf(s, moves[0]) + CodeSteps(NextMove(s, moves[0]).system, moves[1..])
  }

  lemma {:induction false} MoveIsCodeSteps(s: System, m: Move)
    ensures NextMove(s, m).system.codes == After(s.codes, StepsOf(s, m))
  {
    if StepsOf(s, m) != [] { AfterOne(s.codes, StepsOf(s, m)[0]); }
  }

  /** With numbers on file the codes run as they do without: whatever holds in all their runs holds here. */
  lemma {:induction false} RunIsCodeRun(s: System, moves: seq<Move>)
    ensures AfterMoves(s, moves).codes == After(s.codes, CodeSteps(s, moves))
    decreases |moves|
  {
    if moves != [] {
      var t := NextMove(s, moves[0]).system;
      MoveIsCodeSteps(s, moves[0]);
      RunIsCodeRun(t, moves[1..]);
      AfterJoined(s.codes, StepsOf(s, moves[0]), CodeSteps(t, moves[1..]));
    }
  }

  /** So the guess limit holds, and the caps per stretch. */
  lemma LimitsHold(moves: seq<Move>, id: nat, who: Counted, window: Time, cap: nat, lo: Time)
    requires IsCap(who, window, cap)
    ensures var codes := AfterMoves(START, moves).codes;
      && (id < |codes.compared| ==> codes.compared[id] <= MAX_GUESSES)
      && InWindow(codes.rows, who, lo, window) <= Times(cap, StretchesOf(CodeSteps(START, moves), who, window, lo))
  {
    RunIsCodeRun(START, moves);
    SendingIsCapped(CodeSteps(START, moves), who, window, cap, lo);
    if id < |AfterMoves(START, moves).codes.compared| { AtMostFiveGuesses(CodeSteps(START, moves), id); }
  }

  // ---------------------------------------------------------------- the number on file

  /** The number an account stored last. */
  function LastStored(log: seq<Event>, admin: Person): Option<Phone> {
    if log == [] then None
    else
      var last := log[|log| - 1];
      if last.Stored? && last.admin == admin then Some(last.phone) else LastStored(log[..|log| - 1], admin)
  }

  predicate ConfirmedBefore(log: seq<Event>, admin: Person, phone: Phone) {
    exists n :: 0 <= n < |log| && log[n].Confirmed? && log[n].admin == admin && log[n].phone == phone
  }

  predicate RowOk(log: seq<Event>, row: Challenge) {
    if row.purpose == Enrol then Stored(row.admin, row.phone) in log else ConfirmedBefore(log, row.admin, row.phone)
  }

  predicate WorkOk(log: seq<Event>, work: Work) {
    match work
    case Storing(_) => true
    case Asking(r, purpose) =>
      if purpose == Enrol then Stored(r.admin, r.phone) in log else ConfirmedBefore(log, r.admin, r.phone)
    case Proving(admin, sentTo) => Stored(admin, sentTo) in log
  }

  predicate FactorOk(log: seq<Event>, admin: Person, f: Factor) {
    LastStored(log, admin) == Some(f.phone) && (f.confirmed ==> ConfirmedBefore(log, admin, f.phone))
  }

  predicate EventOk(log: seq<Event>, n: nat)
    requires n < |log|
  {
    log[n].Confirmed? ==>
      LastStored(log[..n], log[n].admin) == Some(log[n].phone) && Stored(log[n].admin, log[n].sentTo) in log[..n]
  }

  predicate NumbersOk(s: System) {
    && (forall r :: r in s.codes.rows ==> RowOk(s.log, r))
    && (forall w :: w in s.work ==> WorkOk(s.log, s.work[w]))
    && (forall admin :: admin in s.factors ==> FactorOk(s.log, admin, s.factors[admin]))
    && (forall n :: 0 <= n < |s.log| ==> EventOk(s.log, n))
  }

  lemma {:induction false} LogGrows(log: seq<Event>, e: Event)
    ensures forall n :: 0 <= n <= |log| ==> (log + [e])[..n] == log[..n]
    ensures forall r :: RowOk(log, r) ==> RowOk(log + [e], r)
    ensures forall w :: WorkOk(log, w) ==> WorkOk(log + [e], w)
    ensures forall n :: 0 <= n < |log| && EventOk(log, n) ==> EventOk(log + [e], n)
  {
    forall admin: Person, phone: Phone | ConfirmedBefore(log, admin, phone)
      ensures ConfirmedBefore(log + [e], admin, phone)
    {
      var n :| 0 <= n < |log| && log[n].Confirmed? && log[n].admin == admin && log[n].phone == phone;
      assert (log + [e])[n] == log[n];
    }
  }

  lemma {:induction false} FactorsKept(log: seq<Event>, e: Event, admin: Person, f: Factor)
    requires FactorOk(log, admin, f) && !(e.Stored? && e.admin == admin)
    ensures FactorOk(log + [e], admin, f)
  {
    assert (log + [e])[..|log|] == log;
    if f.confirmed {
      var n :| 0 <= n < |log| && log[n].Confirmed? && log[n].admin == admin && log[n].phone == f.phone;
      assert (log + [e])[n] == log[n];
    }
  }

  /** Rows keep whose they are, whom they went to and what for. */
  lemma {:induction false} RowsKept(before: State, after: State, log: seq<Event>)
    requires Extends(before, after) && |after.rows| == |before.rows| && forall r :: r in before.rows ==> RowOk(log, r)
    ensures forall r :: r in after.rows ==> RowOk(log, r)
  {
    forall r | r in after.rows ensures RowOk(log, r) {
      var id :| 0 <= id < |after.rows| && after.rows[id] == r;
      assert Later(before.rows[id], r) && before.rows[id] in before.rows;
    }
  }

  lemma {:induction false} StoreKeeps(s: System, w: nat)
    requires NumbersOk(s) && WhatsappNumbers.Due(s, StoreNumber(w))
    ensures NumbersOk(Store(s, w))
  {
    var r := s.work[w].request;
    var t := Store(s, w);
    LogGrows(s.log, Stored(r.admin, r.phone));
    assert t.log[|s.log|] == Stored(r.admin, r.phone);
    forall admin | admin in t.factors ensures FactorOk(t.log, admin, t.factors[admin]) {
      if admin != r.admin { FactorsKept(s.log, Stored(r.admin, r.phone), admin, s.factors[admin]); }
    }
  }

  lemma {:induction false} ConfirmKeeps(s: System, w: nat)
    requires NumbersOk(s) && WhatsappNumbers.Due(s, ConfirmNumber(w))
    ensures NumbersOk(Confirm(s, w).system)
  {
    var t := Confirm(s, w).system;
    assert WorkOk(s.log, s.work[w]);
    if t.log != s.log {
      var e := t.log[|s.log|];
      LogGrows(s.log, e);
      assert FactorOk(s.log, e.admin, s.factors[e.admin]);
      forall admin | admin in t.factors ensures FactorOk(t.log, admin, t.factors[admin]) {
        FactorsKept(s.log, e, admin, s.factors[admin]);
      }
    }
  }

  lemma {:induction false} AskKeeps(s: System, w: nat)
    requires NumbersOk(s) && Inv(s.codes) && WhatsappNumbers.Due(s, Ask(w))
    ensures NumbersOk(NextMove(s, Ask(w)).system)
  {
    var step := IssueOf(s.work[w].request, s.work[w].purpose);
    var t := NextMove(s, Ask(w)).system;
    assert WorkOk(s.log, s.work[w]);
    if IssueCode(s.codes, step).reply.Done? {
      var retired := Retire(s.codes.rows, step.admin, step.session, step.at);
      RowsKept(s.codes, s.codes.(rows := retired), s.log);
      assert t.codes.rows == retired + [t.codes.rows[|retired|]];
    }
  }

  lemma {:induction false} TakeKeeps(s: System, w: nat, step: Step)
    requires NumbersOk(s) && Inv(s.codes) && WhatsappNumbers.Due(s, Take(w, step))
    ensures NumbersOk(NextMove(s, Take(w, step)).system)
  {
    var t := NextMove(s, Take(w, step)).system;
    StepExtends(s.codes, step);
    assert |t.codes.rows| == |s.codes.rows|;
    RowsKept(s.codes, t.codes, s.log);
    TakeKeepsWork(s, w, step);
  }

  lemma {:induction false} TakeKeepsWork(s: System, w: nat, step: Step)
    requires NumbersOk(s) && Inv(s.codes) && WhatsappNumbers.Due(s, Take(w, step))
    requires forall r :: r in Next(s.codes, step).state.rows ==> RowOk(s.log, r)
    ensures forall v :: v in TakeStep(s, w, step).system.work ==>
      WorkOk(s.log, TakeStep(s, w, step).system.work[v])
  {
    var t := TakeStep(s, w, step).system;
    forall v | v in t.work ensures WorkOk(s.log, t.work[v]) {
      if v in s.work {
        assert t.work[v] == s.work[v];
      } else {
        assert t.codes.rows[t.codes.wins[|s.codes.wins|].id] in t.codes.rows;
      }
    }
  }

  lemma {:induction false} RemoveKeeps(s: System, admin: Person)
    requires NumbersOk(s) && Inv(s.codes)
    ensures NumbersOk(NextMove(s, RemoveNumber(admin)).system)
  {
    StepExtends(s.codes, Remove(admin));
    RowsKept(s.codes, Next(s.codes, Remove(admin)).state, s.log);
  }

  lemma {:induction false} StartKeeps(s: System, m: Move)
    requires NumbersOk(s) && WhatsappNumbers.Due(s, m) && (m.StartEnrolment? || m.StartSend?)
    ensures NumbersOk(NextMove(s, m).system)
  {
    if HasConfirmed(s.factors, m.request.admin) { assert FactorOk(s.log, m.request.admin, s.factors[m.request.admin]); }
  }

  lemma {:induction false} MoveKeeps(s: System, m: Move)
    requires NumbersOk(s) && Inv(s.codes)
    ensures NumbersOk(NextMove(s, m).system) && Inv(NextMove(s, m).system.codes)
  {
    MoveIsCodeSteps(s, m);
    RunKeepsInv(s.codes, StepsOf(s, m));
    if WhatsappNumbers.Due(s, m) {
      match m
      case StoreNumber(w) => StoreKeeps(s, w);
      case Ask(w) => AskKeeps(s, w);
      case Take(w, step) => TakeKeeps(s, w, step);
      case ConfirmNumber(w) => ConfirmKeeps(s, w);
      case RemoveNumber(admin) => RemoveKeeps(s, admin);
      case _ => StartKeeps(s, m);
    }
  }

  lemma {:induction false} RunKeepsNumbers(s: System, moves: seq<Move>)
    requires NumbersOk(s) && Inv(s.codes)
    ensures NumbersOk(AfterMoves(s, moves)) && Inv(AfterMoves(s, moves).codes)
    decreases |moves|
  {
    if moves != [] {
      MoveKeeps(s, moves[0]);
      RunKeepsNumbers(NextMove(s, moves[0]).system, moves[1..]);
    }
  }

  // ---------------------------------------------------------------- which number is confirmed

  /** Another number was stored for the account after the one a code went to was last stored. */
  predicate StoredOver(log: seq<Event>, admin: Person, sentTo: Phone) {
    exists m :: 0 <= m < |log| && log[m].Stored? && log[m].admin == admin && log[m].phone != sentTo
      && forall j :: m < j < |log| ==> log[j] != Stored(admin, sentTo)
  }

  lemma {:induction false} LastStoredIsLast(log: seq<Event>, admin: Person, phone: Phone) returns (m: nat)
    requires LastStored(log, admin) == Some(phone)
    ensures m < |log| && log[m] == Stored(admin, phone)
    ensures forall j :: m < j < |log| ==> !(log[j].Stored? && log[j].admin == admin)
  {
    var n := |log| - 1;
    if log[n].Stored? && log[n].admin == admin {
      m := n;
    } else {
      m := LastStoredIsLast(log[..n], admin, phone);
      assert forall j :: 0 <= j < n ==> log[..n][j] == log[j];
    }
  }

  /**
   * In every run the number a code confirms is one the account stored, and it is the number that code went to exactly
   * when no other was stored for the account after it: a number is stored before it is known whether a code may be sent
   * to it, and an earlier code that is still good confirms whatever is on file.
   */
  lemma {:induction false} ConfirmedIsProvedExactlyWhen(moves: seq<Move>, n: nat)
    requires n < |AfterMoves(START, moves).log| && AfterMoves(START, moves).log[n].Confirmed?
    ensures var log := AfterMoves(START, moves).log; var e := log[n];
      && Stored(e.admin, e.phone) in log[..n] && Stored(e.admin, e.sentTo) in log[..n]
      && (e.phone == e.sentTo <==> !StoredOver(log[..n], e.admin, e.sentTo))
  {
    RunKeepsNumbers(START, moves);
    var log := AfterMoves(START, moves).log;
    var before, e := log[..n], log[n];
    assert EventOk(log, n);
    var last := LastStoredIsLast(before, e.admin, e.phone);
  }

  /** Sign-in and confirmation codes only ever go to a number that was confirmed for their account before. */
  lemma {:induction false} SigninGoesToConfirmed(moves: seq<Move>, id: nat)
    requires id < |AfterMoves(START, moves).codes.rows| && AfterMoves(START, moves).codes.rows[id].purpose != Enrol
    ensures var s := AfterMoves(START, moves); ConfirmedBefore(s.log, s.codes.rows[id].admin, s.codes.rows[id].phone)
  {
    RunKeepsNumbers(START, moves);
    assert AfterMoves(START, moves).codes.rows[id] in AfterMoves(START, moves).codes.rows;
  }

  // ---------------------------------------------------------------- what changes the number on file

  function OnFile(factors: map<Person, Factor>, admin: Person): Option<Factor> {
    if admin in factors then Some(factors[admin]) else None
  }

  /**
   * The number of an account changes exactly when one is stored for it, unconfirmed, when an enrolment code confirms
   * the one on file, and when it is removed. A confirmed number refuses a new enrolment, and only a confirmed one gets
   * sign-in codes.
   */
  lemma NumberChangesExactlyWhen(s: System, m: Move, admin: Person)
    requires WhatsappNumbers.Due(s, m)
    ensures var t := NextMove(s, m);
      var before, after := OnFile(s.factors, admin), OnFile(t.system.factors, admin);
      && (after ==
            match m
            case StoreNumber(w) =>
              if s.work[w].request.admin == admin then Some(Factor(s.work[w].request.phone, false)) else before
            case ConfirmNumber(w) =>
              if s.work[w].admin == admin && before.Some? then Some(Factor(before.value.phone, true)) else before
            case RemoveNumber(who) => if who == admin then None else before
            case _ => before)
      && (m.StartEnrolment? && m.request.admin == admin ==>
            (t.answer == AlreadyEnrolled <==> before.Some? && before.value.confirmed))
      && (m.StartSend? && m.request.admin == admin ==>
            (t.answer == NoFactor <==> !(before.Some? && before.value.confirmed)))
  {
  }

  // ---------------------------------------------------------------- a number confirmed that no code went to

  lemma {:induction false} MovesJoined(s: System, a: seq<Move>, b: seq<Move>)
    ensures AfterMoves(s, a + b) == AfterMoves(AfterMoves(s, a), b)
    decreases |a|
  {
    if a == [] {
      assert a + b == b;
    } else {
      assert (a + b)[0] == a[0] && (a + b)[1..] == a[1..] + b;
      MovesJoined(NextMove(s, a[0]).system, a[1..], b);
    }
  }

  lemma ThreeMoves(s: System, a: Move, b: Move, c: Move)
    ensures AfterMoves(s, [a, b, c]) == NextMove(NextMove(NextMove(s, a).system, b).system, c).system
  {
    var t := NextMove(NextMove(s, a).system, b).system;
    assert [a, b, c][1..] == [b, c] && [b, c][1..] == [c] && [c][1..] == [];
    assert AfterMoves(t, [c]) == NextMove(t, c).system;
    assert AfterMoves(NextMove(s, a).system, [b, c]) == AfterMoves(t, [c]);
  }

  function AskFor(admin: Person, phone: Phone, at: Time): Request { Request(admin, 0, phone, Template, 0, false, at) }

  function Enrolling(admin: Person, phone: Phone, at: Time): seq<Move> {
    [StartEnrolment(0, AskFor(admin, phone, at)), StoreNumber(0), Ask(0)]
  }

  function FirstCodeTo(admin: Person, phone: Phone, at: Time): Challenge {
    Challenge(admin, 0, Enrol, Some(0), false, phone, 0, at + CODE_TTL_MS, None, at, false)
  }

  /** `n` codes went to one number of an account, the last of them still good, and `onFile` is its number. */
  predicate Waits(s: System, admin: Person, phone: Phone, onFile: Phone, n: nat, at: Time) {
    && s.work == map[] && s.codes.calls == map[] && s.codes.wins == []
    && |s.codes.rows| == |s.codes.compared| == n
    && (n > 0 ==> s.factors == map[admin := Factor(onFile, false)])
    && (n == 0 ==> s.factors == map[])
    && (forall i :: 0 <= i < n ==>
          && s.codes.rows[i].admin == admin && s.codes.rows[i].phone == phone
          && !s.codes.rows[i].removed && s.codes.rows[i].createdAt == at)
    && (n > 0 ==> s.codes.rows[n - 1] == FirstCodeTo(admin, phone, at))
    && (forall i :: 0 <= i < n - 1 ==> s.codes.rows[i].consumedAt.Some?)
  }

  lemma {:induction false} StandingAtMost(rows: seq<Challenge>)
    ensures Standing(rows) <= |rows|
  {
    if rows != [] { StandingAtMost(rows[1..]); }
  }

  lemma {:induction false} AllAreCounted(rows: seq<Challenge>, admin: Person, after: Time)
    requires forall i :: 0 <= i < |rows| ==> rows[i].admin == admin && !rows[i].removed && rows[i].createdAt > after
    ensures CountSince(rows, Account(admin), after) == |rows|
  {
    if rows != [] {
      assert forall i :: 0 <= i < |rows[1..]| ==> rows[1..][i] == rows[i + 1];
      AllAreCounted(rows[1..], admin, after);
    }
  }

  lemma {:induction false} FewAreNotCapped(rows: seq<Challenge>, step: Step)
    requires |rows| < 3 && step.Issue?
    ensures !OverCap(rows, step.admin, step.purpose, step.phone, step.at)
  {
    StandingAtMost(rows);
    StandingCovers(rows, Account(step.admin), step.at - TEN_MINUTES);
    StandingCovers(rows, Account(step.admin), step.at - DAY);
    StandingCovers(rows, Number(step.phone), step.at - HOUR);
  }

  lemma {:induction false} NumberGoesOnFile(s: System, admin: Person, phone: Phone, at: Time)
    requires s.work == map[] && !HasConfirmed(s.factors, admin)
    ensures var request := AskFor(admin, phone, at);
      AfterMoves(s, Enrolling(admin, phone, at)) ==
      System(Next(s.codes, IssueOf(request, Enrol)).state, s.factors[admin := Factor(phone, false)], map[],
        s.log + [Stored(admin, phone)])
  {
    var request := AskFor(admin, phone, at);
    ThreeMoves(s, StartEnrolment(0, request), StoreNumber(0), Ask(0));
    var s1 := NextMove(s, StartEnrolment(0, request)).system;
    assert s1.work == map[0 := Storing(request)];
    var s2 := NextMove(s1, StoreNumber(0)).system;
    assert s2.work == map[0 := Asking(request, Enrol)];
    assert NextMove(s2, Ask(0)).system.work == map[];
  }

  lemma {:induction false} OneCodeSent(s: System, admin: Person, phone: Phone, n: nat, at: Time)
    requires Waits(s, admin, phone, phone, n, at) && n < 3
    ensures Waits(AfterMoves(s, Enrolling(admin, phone, at)), admin, phone, phone, n + 1, at)
  {
    var step := IssueOf(AskFor(admin, phone, at), Enrol);
    NumberGoesOnFile(s, admin, phone, at);
    FewAreNotCapped(s.codes.rows, step);
    var t := IssueCode(s.codes, step).state;
    assert t.rows == Retire(s.codes.rows, admin, 0, at) + [t.rows[n]];
  }

  lemma {:induction false} FourthIsRefused(s: System, admin: Person, phone: Phone, other: Phone, at: Time)
    requires Waits(s, admin, phone, phone, 3, at)
    ensures var t := AfterMoves(s, Enrolling(admin, other, at));
      Waits(t, admin, phone, other, 3, at) && t.codes == s.codes
  {
    NumberGoesOnFile(s, admin, other, at);
    AllAreCounted(s.codes.rows, admin, at - TEN_MINUTES);
    assert s.factors[admin := Factor(other, false)] == map[admin := Factor(other, false)];
  }

  /** The code that went to the first number is entered. */
  function Entering(admin: Person, at: Time): seq<Move> {
    [Take(0, ReadChallenge(0, 2, admin, 0, {Enrol}, 0, at)), Take(0, Count(0)), Take(0, Compare(0))]
    + [Take(0, Finish(0)), ConfirmNumber(0)]
  }

  lemma {:induction false} CodeIsRight(s: System, admin: Person, phone: Phone, onFile: Phone, at: Time)
    requires Waits(s, admin, phone, onFile, 3, at)
    ensures var read := [Take(0, ReadChallenge(0, 2, admin, 0, {Enrol}, 0, at)), Take(0, Count(0)),
      Take(0, Compare(0))];
      var t := AfterMoves(s, read); var row := s.codes.rows[2];
      && t.factors == s.factors && t.work == map[] && t.log == s.log && t.codes.wins == []
      && t.codes.rows == s.codes.rows[2 := row.(attempts := 1)] && t.codes.calls == map[0 := Claiming(2, row, 0, at)]
  {
    var row := s.codes.rows[2];
    var read := ReadChallenge(0, 2, admin, 0, {Enrol}, 0, at);
    ThreeMoves(s, Take(0, read), Take(0, Count(0)), Take(0, Compare(0)));
    assert IsNewest(s.codes.rows, 2, c => IsLive(c, admin, 0, {Enrol}, at));
    var s1 := NextMove(s, Take(0, read)).system;
    assert s1.codes.calls == map[0 := Counting(2, row, 0, at)];
    var s2 := NextMove(s1, Take(0, Count(0))).system;
    assert s2.codes.calls == map[0 := Comparing(2, row, 0, at)];
    var s3 := NextMove(s2, Take(0, Compare(0))).system;
    assert s3.codes.calls == map[0 := Claiming(2, row, 0, at)];
  }

  lemma {:induction false} WrongNumberConfirmed(s: System, admin: Person, phone: Phone, onFile: Phone, at: Time)
    requires Waits(s, admin, phone, onFile, 3, at)
    ensures var t := AfterMoves(s, Entering(admin, at));
      && t.factors == map[admin := Factor(onFile, true)] && t.log == s.log + [Confirmed(admin, onFile, phone)]
      && forall r :: r in t.codes.rows ==> r.phone == phone
  {
    var read := Entering(admin, at)[..3];
    CodeIsRight(s, admin, phone, onFile, at);
    var s3 := AfterMoves(s, read);
    MovesJoined(s, read, [Take(0, Finish(0)), ConfirmNumber(0)]);
    assert Entering(admin, at) == read + [Take(0, Finish(0)), ConfirmNumber(0)];
    var s4 := NextMove(s3, Take(0, Finish(0))).system;
    assert s4.codes.wins == [Win(2, 0)];
    assert s4.work == map[0 := Proving(admin, phone)];
    assert [Take(0, Finish(0)), ConfirmNumber(0)][1..] == [ConfirmNumber(0)] && [ConfirmNumber(0)][1..] == [];
    assert AfterMoves(s4, [ConfirmNumber(0)]) == NextMove(s4, ConfirmNumber(0)).system;
  }

  /**
   * Three codes go to one number; a fourth request names another, is refused, and stays on file; the third code is
   * entered.
   */
  function WrongNumberRun(admin: Person, phone: Phone, other: Phone, at: Time): seq<Move> {
    var once := Enrolling(admin, phone, at);
    once + (once + (once + (Enrolling(admin, other, at) + Entering(admin, at))))
  }

  /** So a number is confirmed that no code ever went to. */
  lemma {:induction false} ConfirmedWithoutACode(admin: Person, phone: Phone, other: Phone, at: Time)
    requires phone != other
    ensures var t := AfterMoves(START, WrongNumberRun(admin, phone, other, at));
      && t.factors == map[admin := Factor(other, true)]
      && forall r :: r in t.codes.rows ==> r.phone == phone
  {
    var once := Enrolling(admin, phone, at);
    var s1 := AfterMoves(START, once);
    var s2 := AfterMoves(s1, once);
    var s3 := AfterMoves(s2, once);
    OneCodeSent(START, admin, phone, 0, at);
    OneCodeSent(s1, admin, phone, 1, at);
    OneCodeSent(s2, admin, phone, 2, at);
    FourthIsRefused(s3, admin, phone, other, at);
    var s4 := AfterMoves(s3, Enrolling(admin, other, at));
    WrongNumberConfirmed(s4, admin, phone, other, at);
    MovesJoined(s3, Enrolling(admin, other, at), Entering(admin, at));
    MovesJoined(s2, once, Enrolling(admin, other, at) + Entering(admin, at));
    MovesJoined(s1, once, once + (Enrolling(admin, other, at) + Entering(admin, at)));
    MovesJoined(START, once, once + (once + (Enrolling(admin, other, at) + Entering(admin, at))));
  }
}
