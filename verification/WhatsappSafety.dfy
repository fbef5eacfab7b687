/** Guess limits, one-use codes and sending caps, in every interleaving of the WhatsApp code steps. */
module WhatsappSafety {
  import opened Prelude
  import opened WhatsappCodes

  // ---------------------------------------------------------------- guesses in flight

  predicate WaitsToCompare(call: Call, id: nat) { call.Comparing? && call.id == id }

  function Waiting(calls: map<nat, Call>, id: nat): set<nat> { set k | k in calls && WaitsToCompare(calls[k], id) }

  lemma WaitingAdds(calls: map<nat, Call>, k: nat, call: Call, id: nat)
    requires k in calls && !calls[k].Comparing?
    ensures |Waiting(calls[k := call], id)| == |Waiting(calls, id)| + if WaitsToCompare(call, id) then 1 else 0
  {
    assert k !in Waiting(calls, id);
    if WaitsToCompare(call, id) {
      assert Waiting(calls[k := call], id) == Waiting(calls, id) + {k};
    } else {
      assert Waiting(calls[k := call], id) == Waiting(calls, id);
    }
  }

  lemma WaitingDrops(calls: map<nat, Call>, k: nat, id: nat)
    requires k in calls
    ensures |Waiting(calls - {k}, id)| == |Waiting(calls, id)| - if WaitsToCompare(calls[k], id) then 1 else 0
  {
    if WaitsToCompare(calls[k], id) {
      assert k in Waiting(calls, id);
      assert Waiting(calls - {k}, id) == Waiting(calls, id) - {k};
    } else {
      assert Waiting(calls - {k}, id) == Waiting(calls, id);
    }
  }

  lemma WaitingMoves(calls: map<nat, Call>, k: nat, call: Call, id: nat)
    requires k in calls && !call.Comparing?
    ensures |Waiting(calls[k := call], id)| == |Waiting(calls, id)| - if WaitsToCompare(calls[k], id) then 1 else 0
  {
    WaitingDrops(calls, k, id);
    assert Waiting(calls[k := call], id) == Waiting(calls - {k}, id);
  }

  lemma WaitingIgnores(calls: map<nat, Call>, k: nat, call: Call, id: nat)
    requires k !in calls && !call.Comparing?
    ensures Waiting(calls[k := call], id) == Waiting(calls, id)
  {
  }

  // ---------------------------------------------------------------- the invariant

  /** A challenge read for verification has its code for good. */
  predicate SameCode(seen: Challenge, row: Challenge) {
    && !seen.awaiting && !row.awaiting && seen.code == row.code
    && seen.admin == row.admin && seen.session == row.session && seen.purpose == row.purpose
  }

  predicate CallOk(rows: seq<Challenge>, call: Call) {
    && call.id < |rows|
    && (call.Counting? || call.Comparing? || call.Claiming? ==> SameCode(call.row, rows[call.id]))
    && (call.Claiming? ==> call.row.code == Some(call.guess))
  }

  /**
   * Guesses compared and guesses waiting to be compared are together exactly the attempts counted on the row, at most
   * five.
   */
  predicate GuessesOk(s: State, id: nat)
    requires id < |s.rows| == |s.compared|
  {
    && s.compared[id] + |Waiting(s.calls, id)| == s.rows[id].attempts <= MAX_GUESSES
    && (s.rows[id].awaiting ==> s.rows[id].attempts == 0)
  }

  predicate WinOk(rows: seq<Challenge>, win: Win) {
    win.id < |rows| && rows[win.id].consumedAt.Some? && !rows[win.id].awaiting && rows[win.id].code == Some(win.guess)
  }

  predicate Inv(s: State) {
    && |s.compared| == |s.rows|
    && (forall k :: k in s.calls ==> CallOk(s.rows, s.calls[k]))
    && (forall id :: 0 <= id < |s.rows| ==> GuessesOk(s, id))
    && (forall w :: w in s.wins ==> WinOk(s.rows, w))
    && (forall i, j :: 0 <= i < j < |s.wins| ==> s.wins[i].id != s.wins[j].id)
  }

  /** A later version of a row: used up stays used up, and a code once made stays. */
  predicate Later(r: Challenge, t: Challenge) {
    && t.admin == r.admin && t.session == r.session && t.purpose == r.purpose && t.phone == r.phone
      && t.createdAt == r.createdAt
    && (r.consumedAt.Some? ==> t.consumedAt.Some?)
    && (!r.awaiting ==> !t.awaiting && t.code == r.code)
    && (r.removed ==> t.removed)
  }

  predicate Extends(s: State, t: State) {
    && |s.rows| <= |t.rows|
    && forall id :: 0 <= id < |s.rows| ==> Later(s.rows[id], t.rows[id])
  }

  lemma {:induction false} StepExtends(s: State, step: Step)
    requires Inv(s)
    ensures Extends(s, Next(s, step).state)
  {
  }

  lemma {:induction false} LaterKeepsCalls(s: State, t: State)
    requires Inv(s) && Extends(s, t)
    ensures forall k :: k in s.calls ==> CallOk(t.rows, s.calls[k])
    ensures forall w :: w in s.wins ==> WinOk(t.rows, w)
  {
    forall k | k in s.calls ensures CallOk(t.rows, s.calls[k]) {
      assert CallOk(s.rows, s.calls[k]);
      assert Later(s.rows[s.calls[k].id], t.rows[s.calls[k].id]);
    }
    forall w | w in s.wins ensures WinOk(t.rows, w) {
      assert WinOk(s.rows, w);
      assert Later(s.rows[w.id], t.rows[w.id]);
    }
  }

  // ---------------------------------------------------------------- steps that change one row

  lemma {:induction false} CountKeeps(s: State, k: nat)
    requires Inv(s) && Due(s, Count(k))
    ensures Inv(Next(s, Count(k)).state)
  {
    var t := Next(s, Count(k)).state;
    var call := s.calls[k];
    StepExtends(s, Count(k));
    LaterKeepsCalls(s, t);
    assert CallOk(s.rows, call);
    forall id | 0 <= id < |t.rows| ensures GuessesOk(t, id) {
      assert GuessesOk(s, id);
      if k in t.calls { WaitingAdds(s.calls, k, t.calls[k], id); } else { WaitingDrops(s.calls, k, id); }
    }
  }

  lemma {:induction false} CompareKeeps(s: State, k: nat)
    requires Inv(s) && Due(s, Compare(k))
    ensures Inv(Next(s, Compare(k)).state)
  {
    var t := Next(s, Compare(k)).state;
    var call := s.calls[k];
    assert CallOk(s.rows, call);
    forall id | 0 <= id < |t.rows| ensures GuessesOk(t, id) {
      assert GuessesOk(s, id);
      if k in t.calls { WaitingMoves(s.calls, k, t.calls[k], id); } else { WaitingDrops(s.calls, k, id); }
    }
  }

  lemma {:induction false} FinishKeeps(s: State, k: nat)
    requires Inv(s) && Due(s, Finish(k))
    ensures Inv(Next(s, Finish(k)).state)
  {
    var t := Next(s, Finish(k)).state;
    var call := s.calls[k];
    StepExtends(s, Finish(k));
    LaterKeepsCalls(s, t);
    assert CallOk(s.rows, call);
    forall id | 0 <= id < |t.rows| ensures GuessesOk(t, id) {
      assert GuessesOk(s, id);
      WaitingDrops(s.calls, k, id);
    }
    if |t.wins| > |s.wins| {
      forall i | 0 <= i < |s.wins| ensures s.wins[i].id != call.id { assert WinOk(s.rows, s.wins[i]); }
    }
  }

  lemma {:induction false} AnswerKeeps(s: State, k: nat, code: Code)
    requires Inv(s) && Due(s, AnswerMessage(k, code))
    ensures Inv(Next(s, AnswerMessage(k, code)).state)
  {
    var t := Next(s, AnswerMessage(k, code)).state;
    StepExtends(s, AnswerMessage(k, code));
    LaterKeepsCalls(s, t);
    forall id | 0 <= id < |t.rows| ensures GuessesOk(t, id) {
      assert GuessesOk(s, id);
      WaitingDrops(s.calls, k, id);
    }
  }

  lemma {:induction false} ReadKeeps(s: State, step: Step)
    requires Inv(s) && Due(s, step) && (step.ReadPending? || step.ReadChallenge?)
    ensures Inv(Next(s, step).state)
  {
    var t := Next(s, step).state;
    forall id | 0 <= id < |t.rows| ensures GuessesOk(t, id) {
      assert GuessesOk(s, id);
      WaitingIgnores(s.calls, step.k, t.calls[step.k], id);
    }
  }

  lemma {:induction false} TableKeeps(s: State, step: Step)
    requires Inv(s) && Due(s, step) && (step.Issue? || step.SendFailed? || step.Remove?)
    ensures Inv(Next(s, step).state)
  {
    var t := Next(s, step).state;
    StepExtends(s, step);
    LaterKeepsCalls(s, t);
    forall id | 0 <= id < |t.rows| ensures GuessesOk(t, id) {
      if id < |s.rows| {
        assert GuessesOk(s, id);
      } else {
        forall k | k in s.calls ensures !WaitsToCompare(s.calls[k], id) { assert CallOk(s.rows, s.calls[k]); }
        assert Waiting(s.calls, id) == {};
      }
    }
  }

  lemma {:induction false} StepKeepsInv(s: State, step: Step)
    requires Inv(s)
    ensures Inv(Next(s, step).state)
  {
    if Due(s, step) {
      match step
      case Count(k) => CountKeeps(s, k);
      case Compare(k) => CompareKeeps(s, k);
      case Finish(k) => FinishKeeps(s, k);
      case AnswerMessage(k, code) => AnswerKeeps(s, k, code);
      case ReadPending(_, _, _, _) => ReadKeeps(s, step);
      case ReadChallenge(_, _, _, _, _, _, _) => ReadKeeps(s, step);
      case _ => TableKeeps(s, step);
    }
  }

  lemma {:induction false} RunKeepsInv(s: State, steps: seq<Step>)
    requires Inv(s)
    ensures Inv(After(s, steps))
    decreases |steps|
  {
    if steps != [] {
      StepKeepsInv(s, steps[0]);
      RunKeepsInv(Next(s, steps[0]).state, steps[1..]);
    }
  }

  // ---------------------------------------------------------------- guesses and wins, in every run

  /** However verifications interleave, at most five guesses are ever compared with one challenge. */
  lemma AtMostFiveGuesses(steps: seq<Step>, id: nat)
    requires id < |After(INITIAL, steps).compared|
    ensures After(INITIAL, steps).compared[id] <= MAX_GUESSES
  {
    RunKeepsInv(INITIAL, steps);
    assert GuessesOk(After(INITIAL, steps), id);
  }

  /** Each accepted guess is the code of its challenge, and no challenge is ever won twice. */
  lemma OneWinPerCode(steps: seq<Step>, i: nat, j: nat)
    requires i < |After(INITIAL, steps).wins| && j < |After(INITIAL, steps).wins|
    ensures var s := After(INITIAL, steps);
      && (s.wins[i].id == s.wins[j].id ==> i == j)
      && WinOk(s.rows, s.wins[i])
  {
    RunKeepsInv(INITIAL, steps);
    assert After(INITIAL, steps).wins[i] in After(INITIAL, steps).wins;
  }

  // ---------------------------------------------------------------- does the last wrong guess retire the challenge?

  predicate IsOpen(s: State, id: nat) { id < |s.rows| && !s.rows[id].removed && s.rows[id].consumedAt.None? }

  /** Finishing this call retires the challenge because of a wrong guess. */
  predicate Retires(s: State, k: nat, id: nat) {
    && Due(s, Finish(k)) && s.calls[k].Retiring? && IsOpen(s, id)
    && id < |Next(s, Finish(k)).state.rows| && Next(s, Finish(k)).state.rows[id].consumedAt.Some?
  }

  /** A wrong guess that goes by at least four attempts, compared or about to be. */
  predicate WillRetire(call: Call, id: nat) {
    && call.id == id
    && (call.Retiring?
        || (call.Comparing? && call.row.code != Some(call.guess) && call.row.attempts >= MAX_GUESSES - 1))
  }

  predicate RetirementUnderWay(s: State, id: nat) { exists k :: k in s.calls && WillRetire(s.calls[k], id) }

  lemma {:induction false} UsedUpStep(s: State, step: Step, id: nat)
    requires Inv(s) && id < |s.rows| && s.rows[id].attempts == MAX_GUESSES && !RetirementUnderWay(s, id)
    ensures var t := Next(s, step).state;
      id < |t.rows| && t.rows[id].attempts == MAX_GUESSES && !RetirementUnderWay(t, id)
  {
    var t := Next(s, step).state;
    StepExtends(s, step);
    assert GuessesOk(s, id);
    forall k | k in t.calls ensures !WillRetire(t.calls[k], id) {
      if k in s.calls { assert !WillRetire(s.calls[k], id); }
    }
  }

  lemma {:induction false} UsedUpRun(s: State, steps: seq<Step>, k: nat, id: nat)
    requires Inv(s) && id < |s.rows| && s.rows[id].attempts == MAX_GUESSES && !RetirementUnderWay(s, id)
    ensures !Retires(After(s, steps), k, id)
    decreases |steps|
  {
    if steps == [] {
      if Due(s, Finish(k)) { assert !WillRetire(s.calls[k], id); }
    } else {
      StepKeepsInv(s, steps[0]);
      UsedUpStep(s, steps[0], id);
      UsedUpRun(Next(s, steps[0]).state, steps[1..], k, id);
    }
  }

  /** Some continuation retires the challenge because of a wrong guess. */
  ghost predicate MayBeRetired(s: State, id: nat) {
    exists steps: seq<Step>, k: nat :: Retires(After(s, steps), k, id)
  }

  lemma AfterOne(s: State, step: Step)
    ensures After(s, [step]) == Next(s, step).state
  {
    assert [step][1..] == [];
  }

  lemma {:induction false} RetirementLands(s: State, k: nat, id: nat) returns (steps: seq<Step>)
    requires Inv(s) && IsOpen(s, id) && k in s.calls && WillRetire(s.calls[k], id)
    ensures Retires(After(s, steps), k, id)
  {
    if s.calls[k].Retiring? {
      steps := [];
    } else {
      steps := [Compare(k)];
      AfterOne(s, Compare(k));
    }
  }

  /**
   * In every run: an open challenge whose five attempts are used up can still be retired by a wrong guess exactly when
   * one that had read four or more attempts is on its way. It is the count each guess had read that decides, so a
   * challenge may also stay open, of no use, until it expires.
   */
  lemma {:induction false} WrongGuessRetiresExactlyWhen(run: seq<Step>, id: nat)
    requires IsOpen(After(INITIAL, run), id) && After(INITIAL, run).rows[id].attempts == MAX_GUESSES
    ensures MayBeRetired(After(INITIAL, run), id) <==> RetirementUnderWay(After(INITIAL, run), id)
  {
    RunKeepsInv(INITIAL, run);
    var s := After(INITIAL, run);
    if RetirementUnderWay(s, id) {
      var k :| k in s.calls && WillRetire(s.calls[k], id);
      var steps := RetirementLands(s, k, id);
      assert Retires(After(s, steps), k, id);
    } else {
      forall steps, k ensures !Retires(After(s, steps), k, id) { UsedUpRun(s, steps, k, id); }
    }
  }

  // ---------------------------------------------------------------- a run that leaves it open

  lemma {:induction false} AfterJoined(s: State, a: seq<Step>, b: seq<Step>)
    ensures After(s, a + b) == After(After(s, a), b)
    decreases |a|
  {
    if a == [] {
      assert a + b == b;
    } else {
      assert (a + b)[0] == a[0] && (a + b)[1..] == a[1..] + b;
      AfterJoined(Next(s, a[0]).state, a[1..], b);
    }
  }

  lemma AfterThree(s: State, a: Step, b: Step, c: Step)
    ensures After(s, [a, b, c]) == Next(Next(Next(s, a).state, b).state, c).state
  {
    assert [a, b, c][1..] == [b, c] && [b, c][1..] == [c];
    AfterOne(Next(Next(s, a).state, b).state, c);
    assert After(Next(s, a).state, [b, c]) == After(Next(Next(s, a).state, b).state, [c]);
  }

  /** One open enrolment challenge with code 0, `n` wrong guesses made one at a time, nothing in flight. */
  predicate Guessed(s: State, admin: Person, n: nat, at: Time) {
    && |s.rows| == 1 && s.calls == map[] && s.compared == [n] && s.wins == []
    && s.rows[0] == Challenge(admin, 0, Enrol, Some(0), false, 0, n, at + CODE_TTL_MS, None, at, false)
  }

  function Reads(k: nat, admin: Person, at: Time): Step { ReadChallenge(k, 0, admin, 0, {Enrol}, 1, at) }

  function WrongGuess(admin: Person, at: Time): seq<Step> { [Reads(0, admin, at), Count(0), Compare(0)] }

  lemma ReadStarts(s: State, k: nat, admin: Person, at: Time)
    requires |s.rows| == 1 && k !in s.calls && IsLive(s.rows[0], admin, 0, {Enrol}, at)
    ensures Next(s, Reads(k, admin, at)).state == s.(calls := s.calls[k := Counting(0, s.rows[0], 1, at)])
  {
    assert IsNewest(s.rows, 0, c => IsLive(c, admin, 0, {Enrol}, at));
  }

  lemma GuessedOnce(s: State, admin: Person, n: nat, at: Time)
    requires Guessed(s, admin, n, at) && n < MAX_GUESSES - 1
    ensures Guessed(After(s, WrongGuess(admin, at)), admin, n + 1, at)
  {
    AfterThree(s, Reads(0, admin, at), Count(0), Compare(0));
    ReadStarts(s, 0, admin, at);
    var s1 := Next(s, Reads(0, admin, at)).state;
    var s2 := Next(s1, Count(0)).state;
    assert s2.calls[0] == Comparing(0, s.rows[0], 1, at);
    var s3 := Next(s2, Compare(0)).state;
    assert s3.calls == map[];
  }

  function Issued(admin: Person, at: Time): Step { Issue(admin, 0, Enrol, 0, Template, 0, false, at) }

  /** A code, three wrong guesses one at a time, and two more side by side. */
  function StaleRun(admin: Person, at: Time): seq<Step> {
    [Issued(admin, at)] + (WrongGuess(admin, at) + (WrongGuess(admin,
        at) + (WrongGuess(admin, at) + SideBySide(admin, at))))
  }

  function SideBySide(admin: Person, at: Time): seq<Step> {
    [Reads(0, admin, at), Reads(1, admin, at)] + [Count(0), Count(1), Compare(0), Compare(1)]
  }

  lemma RunOfFour(s: State, a: Step, b: Step, c: Step, d: Step)
    ensures After(s, [a, b, c, d]) == Next(Next(Next(Next(s, a).state, b).state, c).state, d).state
  {
    assert [a, b, c, d][1..] == [b, c, d];
    AfterThree(Next(s, a).state, b, c, d);
  }

  /** Both of the two guesses side by side had read three attempts, so neither retires the challenge. */
  lemma {:induction false} TwoAtOnce(s: State, id: nat, a: nat, b: nat)
    requires Inv(s) && id < |s.rows| && a != b && a in s.calls && b in s.calls
    requires s.rows[id].attempts == 3 && IsOpen(s, id)
    requires s.calls[a].Counting? && s.calls[a].id == id && s.calls[a].row.attempts == 3
      && s.calls[a].row.code != Some(s.calls[a].guess)
    requires s.calls[b].Counting? && s.calls[b].id == id && s.calls[b].row.attempts == 3
      && s.calls[b].row.code != Some(s.calls[b].guess)
    ensures var t := After(s, [Count(a), Count(b), Compare(a), Compare(b)]);
      IsOpen(t, id) && t.rows[id].attempts == MAX_GUESSES && t.calls == s.calls - {a, b}
  {
    var s1 := Next(s, Count(a)).state;
    var s2 := Next(s1, Count(b)).state;
    var s3 := Next(s2, Compare(a)).state;
    RunOfFour(s, Count(a), Count(b), Compare(a), Compare(b));
    assert Next(s3, Compare(b)).state.calls == s.calls - {a, b};
  }

  lemma ThreeWrongGuesses(admin: Person, at: Time)
    ensures Guessed(After(INITIAL, [Issued(admin, at)] + (WrongGuess(admin,
        at) + (WrongGuess(admin, at) + WrongGuess(admin, at)))), admin, 3, at)
  {
    var one := WrongGuess(admin, at);
    AfterOne(INITIAL, Issued(admin, at));
    var s := After(INITIAL, [Issued(admin, at)]);
    assert Guessed(s, admin, 0, at);
    GuessedOnce(s, admin, 0, at);
    GuessedOnce(After(s, one), admin, 1, at);
    GuessedOnce(After(After(s, one), one), admin, 2, at);
    AfterJoined(After(s, one), one, one);
    AfterJoined(s, one, one + one);
    AfterJoined(INITIAL, [Issued(admin, at)], one + (one + one));
  }

  /**
   * Two wrong guesses side by side use up the last two attempts without retiring the challenge, as each goes by the
   * three attempts it had read; and from then on no wrong guess ever retires it.
   */
  lemma {:induction false} StaleCountLeavesItOpen(admin: Person, at: Time, later: seq<Step>, k: nat)
    ensures var s := After(INITIAL, StaleRun(admin, at));
      && IsOpen(s, 0) && s.rows[0].attempts == MAX_GUESSES && s.calls == map[]
      && !Retires(After(s, later), k, 0)
  {
    var one := WrongGuess(admin, at);
    var front := [Issued(admin, at)] + (one + (one + one));
    ThreeWrongGuesses(admin, at);
    var s := After(INITIAL, front);
    ReadStarts(s, 0, admin, at);
    var s1 := Next(s, Reads(0, admin, at)).state;
    ReadStarts(s1, 1, admin, at);
    var s2 := Next(s1, Reads(1, admin, at)).state;
    RunKeepsInv(INITIAL, front);
    StepKeepsInv(s, Reads(0, admin, at));
    StepKeepsInv(s1, Reads(1, admin, at));
    TwoAtOnce(s2, 0, 0, 1);
    var end := After(s2, [Count(0), Count(1), Compare(0), Compare(1)]);
    assert end.calls == map[];
    AfterTwoThen(s, Reads(0, admin, at), Reads(1, admin, at), [Count(0), Count(1), Compare(0), Compare(1)]);
    AfterJoined(INITIAL, front, SideBySide(admin, at));
    assert StaleRun(admin, at) == front + SideBySide(admin, at);
    RunKeepsInv(INITIAL, StaleRun(admin, at));
    UsedUpRun(end, later, k, 0);
  }

  lemma AfterTwoThen(s: State, a: Step, b: Step, rest: seq<Step>)
    ensures After(s, [a, b] + rest) == After(Next(Next(s, a).state, b).state, rest)
  {
    assert ([a, b] + rest)[1..] == [b] + rest && ([b] + rest)[1..] == rest;
    assert After(s, [a, b] + rest) == After(Next(s, a).state, [b] + rest);
  }
}
