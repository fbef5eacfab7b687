/** What the WhatsApp codes are for: the code that was sent gets its session in, once and in time, and no other does. */
module WhatsappRoundTrip {
  import opened Prelude
  import opened WhatsappCodes
  import opened WhatsappSafety

  // ---------------------------------------------------------------- one unused challenge per session

  predicate IsUnused(c: Challenge) { !c.removed && c.consumedAt.None? }

  predicate OneUnused(rows: seq<Challenge>) {
    forall i, j :: 0 <= i < j < |rows| && IsUnused(rows[i]) && IsUnused(rows[j]) ==>
      rows[i].admin != rows[j].admin || rows[i].session != rows[j].session
  }

  lemma {:induction false} IssueKeepsOneUnused(s: State, step: Step)
    requires OneUnused(s.rows) && step.Issue?
    ensures OneUnused(Next(s, step).state.rows)
  {
  }

  lemma {:induction false} StepKeepsOneUnused(s: State, step: Step)
    requires Inv(s) && OneUnused(s.rows)
    ensures OneUnused(Next(s, step).state.rows)
  {
    if step.Issue? {
      IssueKeepsOneUnused(s, step);
    } else {
      StepExtends(s, step);
      var t := Next(s, step).state;
      assert |t.rows| == |s.rows|;
      forall i | 0 <= i < |t.rows| && IsUnused(t.rows[i]) ensures IsUnused(s.rows[i]) {
        assert Later(s.rows[i], t.rows[i]);
      }
      forall i | 0 <= i < |t.rows|
        ensures t.rows[i].admin == s.rows[i].admin && t.rows[i].session == s.rows[i].session
      {
        assert Later(s.rows[i], t.rows[i]);
      }
    }
  }

  /** In every run a session has at most one unused challenge: asking for a new code ends the older one. */
  lemma {:induction false} OneUnusedPerSession(s: State, steps: seq<Step>)
    requires Inv(s) && OneUnused(s.rows)
    ensures Inv(After(s, steps)) && OneUnused(After(s, steps).rows)
    decreases |steps|
  {
    if steps != [] {
      StepKeepsInv(s, steps[0]);
      StepKeepsOneUnused(s, steps[0]);
      OneUnusedPerSession(Next(s, steps[0]).state, steps[1..]);
    }
  }

  lemma InitialIsFine()
    ensures Inv(INITIAL) && OneUnused(INITIAL.rows)
  {
  }

  // ---------------------------------------------------------------- entering a code

  /** A session enters a code, with nothing in between; `id` is the challenge the read finds. */
  function Entry(
      k: nat, id: nat, admin: Person, session: Session, purposes: set<Purpose>, guess: Code, at: Time): seq<Step>
  {
    [ReadChallenge(k, id, admin, session, purposes, guess, at), Count(k), Compare(k), Finish(k)]
  }

  /** Whatever challenge is read, a session gets in by exactly this code, before `until`; and that code wins. */
  ghost predicate OnlyCodeIs(s: State, k: nat, id: nat, code: Code, until: Time)
    requires id < |s.rows|
  {
    forall read: nat, purposes, guess, at ::
      After(s, Entry(k, read, s.rows[id].admin, s.rows[id].session, purposes, guess, at)).wins
      == if read == id && guess == code && at < until && s.rows[id].purpose in purposes then s.wins + [Win(id, code)]
         else s.wins
  }

  lemma {:induction false} NothingIsRead(
      s: State, k: nat, id: nat, admin: Person, session: Session, purposes: set<Purpose>, guess: Code, at: Time)
    requires k !in s.calls
    requires id < |s.rows| ==> !IsLive(s.rows[id], admin, session, purposes, at)
    ensures After(s, Entry(k, id, admin, session, purposes, guess, at)) == s
  {
    var read := ReadChallenge(k, id, admin, session, purposes, guess, at);
    assert Next(s, read).state == s;
    assert Next(s, Count(k)).state == s && Next(s, Compare(k)).state == s && Next(s, Finish(k)).state == s;
    RunOfFour(s, read, Count(k), Compare(k), Finish(k));
  }

  lemma {:induction false} TheRowIsRead(
      s: State, k: nat, id: nat, purposes: set<Purpose>, guess: Code, at: Time, code: Code)
    requires OneUnused(s.rows) && k !in s.calls && id < |s.rows| == |s.compared|
    requires s.rows[id].code == Some(code) && s.rows[id].attempts == 0
    requires IsLive(s.rows[id], s.rows[id].admin, s.rows[id].session, purposes, at)
    ensures After(s, Entry(k, id, s.rows[id].admin, s.rows[id].session, purposes, guess, at)).wins
      == if guess == code then s.wins + [Win(id, code)] else s.wins
  {
    var row := s.rows[id];
    var read := ReadChallenge(k, id, row.admin, row.session, purposes, guess, at);
    forall j | 0 <= j < |s.rows| && IsLive(s.rows[j], row.admin, row.session, purposes, at) ensures j == id {
      assert IsUnused(s.rows[j]) && IsUnused(row);
    }
    assert Due(s, read);
    RunOfFour(s, read, Count(k), Compare(k), Finish(k));
  }

  lemma {:induction false} FreshCodeIsTheOnlyOne(s: State, k: nat, id: nat, code: Code, until: Time)
    requires OneUnused(s.rows) && k !in s.calls && id < |s.rows| == |s.compared|
    requires IsUnused(s.rows[id]) && !s.rows[id].awaiting && s.rows[id].code == Some(code)
    requires s.rows[id].attempts == 0 && s.rows[id].expiresAt == until
    ensures OnlyCodeIs(s, k, id, code, until)
  {
    var row := s.rows[id];
    forall read: nat, purposes, guess, at
      ensures After(s, Entry(k, read, row.admin, row.session, purposes, guess, at)).wins
        == if read == id && guess == code && at < until && row.purpose in purposes then s.wins + [Win(id, code)]
           else s.wins
    {
      if read == id && at < until && row.purpose in purposes {
        TheRowIsRead(s, k, id, purposes, guess, at, code);
      } else {
        NothingIsRead(s, k, read, row.admin, row.session, purposes, guess, at);
      }
    }
  }

  // ---------------------------------------------------------------- the code that was sent

  /** In every run: once a code is sent, it and nothing else gets its session in, for five minutes. */
  lemma {:induction false} SentCodeWorks(steps: seq<Step>, issue: Step, k: nat)
    requires issue.Issue? && issue.mode == Template && k !in After(INITIAL, steps).calls
    requires Next(After(INITIAL, steps), issue).reply.Done?
    ensures var s, t := After(INITIAL, steps), Next(After(INITIAL, steps), issue).state;
      && |t.rows| == |s.rows| + 1
      && t.rows[|s.rows|].admin == issue.admin && t.rows[|s.rows|].session == issue.session
      && t.rows[|s.rows|].purpose == issue.purpose
      && OnlyCodeIs(t, k, |s.rows|, issue.code, issue.at + 5 * 60 * 1000)
  {
    var s := After(INITIAL, steps);
    InitialIsFine();
    OneUnusedPerSession(INITIAL, steps);
    IssueKeepsOneUnused(s, issue);
    FreshCodeIsTheOnlyOne(Next(s, issue).state, k, |s.rows|, issue.code, issue.at + CODE_TTL_MS);
  }

  /**
   * In every run: a code made in answer to "ADMIN CODE" is good for five minutes from the answer, and it and nothing
   * else gets the session in that had asked for it. If the request is no longer open, nothing changes.
   */
  lemma {:induction false} AnsweredCodeWorks(steps: seq<Step>, k: nat, code: Code)
    requires k in After(INITIAL, steps).calls && After(INITIAL, steps).calls[k].Answering?
    ensures var s := After(INITIAL, steps); var t := Next(s, AnswerMessage(k, code)).state; var id := s.calls[k].id;
      && id < |s.rows|
      && (IsUnused(s.rows[id]) && s.rows[id].awaiting ==> OnlyCodeIs(t, k, id, code, s.calls[k].at + 5 * 60 * 1000))
      && (!(IsUnused(s.rows[id]) && s.rows[id].awaiting) ==> t.rows == s.rows && t.wins == s.wins)
  {
    var s := After(INITIAL, steps);
    InitialIsFine();
    OneUnusedPerSession(INITIAL, steps);
    assert CallOk(s.rows, s.calls[k]);
    var id := s.calls[k].id;
    if IsUnused(s.rows[id]) && s.rows[id].awaiting {
      StepKeepsInv(s, AnswerMessage(k, code));
      StepKeepsOneUnused(s, AnswerMessage(k, code));
      FreshCodeIsTheOnlyOne(Next(s, AnswerMessage(k, code)).state, k, id, code, s.calls[k].at + CODE_TTL_MS);
    }
  }

  /** A request that waits for a message lets nobody in, and is answered if the number writes within ten minutes. */
  lemma {:induction false} WaitingRequestIsAnswered(steps: seq<Step>, issue: Step, k: nat, code: Code, at: Time)
    requires issue.Issue? && issue.mode == Message && k !in After(INITIAL, steps).calls
    requires Next(After(INITIAL, steps), issue).reply.Done?
    requires forall r :: r in After(INITIAL, steps).rows ==> r.createdAt <= issue.at
    ensures var s, t := After(INITIAL, steps), Next(After(INITIAL, steps), issue).state; var id := |s.rows|;
      && |t.rows| == id + 1
      && (forall read: nat, purposes, guess, then_ ::
            After(t, Entry(k, read, issue.admin, issue.session, purposes, guess, then_)) == t)
      && var u := After(t, [ReadPending(k, id, issue.phone, at), AnswerMessage(k, code)]);
         if at < issue.at + 10 * 60 * 1000
         then |u.rows| == id + 1 && u.rows[id].admin == issue.admin && u.rows[id].session == issue.session
              && u.rows[id].purpose == issue.purpose && OnlyCodeIs(u, k, id, code, at + 5 * 60 * 1000)
         else u == t
  {
    var s := After(INITIAL, steps);
    var t := Next(s, issue).state;
    var id := |s.rows|;
    InitialIsFine();
    OneUnusedPerSession(INITIAL, steps);
    StepKeepsInv(s, issue);
    IssueKeepsOneUnused(s, issue);
    forall read: nat, purposes, guess, then_
      ensures After(t, Entry(k, read, issue.admin, issue.session, purposes, guess, then_)) == t
    {
      if read < |t.rows| && IsLive(t.rows[read], issue.admin, issue.session, purposes, then_) {
        assert IsUnused(t.rows[read]) && IsUnused(t.rows[id]);
        assert false;
      }
      NothingIsRead(t, k, read, issue.admin, issue.session, purposes, guess, then_);
    }
    var ask := ReadPending(k, id, issue.phone, at);
    assert [ask, AnswerMessage(k, code)][1..] == [AnswerMessage(k, code)];
    AfterOne(Next(t, ask).state, AnswerMessage(k, code));
    if at < issue.at + MESSAGE_WAIT_MS {
      assert IsNewest(t.rows, id, c => IsPending(c, issue.phone, at)) by {
        forall j | 0 <= j < |t.rows| ensures t.rows[j].createdAt <= issue.at {
          if j < id { assert s.rows[j] in s.rows; }
        }
      }
      StepKeepsInv(t, ask);
      StepKeepsOneUnused(t, ask);
      var v := Next(t, ask).state;
      StepKeepsInv(v, AnswerMessage(k, code));
      StepKeepsOneUnused(v, AnswerMessage(k, code));
      FreshCodeIsTheOnlyOne(Next(v, AnswerMessage(k, code)).state, k, id, code, at + CODE_TTL_MS);
    }
  }

  // ---------------------------------------------------------------- what ends a challenge

  /**
   * An unused challenge ends exactly by a newer request of its session that is not refused, a code that could not be
   * sent, the removal of its account's number, or the last write of a verification that read it: a win, or the
   * retirement after too many guesses.
   */
  lemma {:induction false} EndsExactlyWhen(s: State, step: Step, id: nat)
    requires Inv(s) && id < |s.rows| && IsUnused(s.rows[id])
    ensures id < |Next(s, step).state.rows|
    ensures !IsUnused(Next(s, step).state.rows[id]) <==>
      || (step.Issue? && Next(s, step).reply.Done? && step.admin == s.rows[id].admin
          && step.session == s.rows[id].session)
      || (step.SendFailed? && step.id == id)
      || (step.Remove? && step.admin == s.rows[id].admin)
      || (step.Finish? && step.k in s.calls && s.calls[step.k].id == id
          && (s.calls[step.k].Claiming? || s.calls[step.k].Retiring?))
  {
  }

  lemma {:induction false} StepWins(s: State, step: Step, id: nat)
    requires Inv(s) && id < |s.rows| && !IsUnused(s.rows[id])
    ensures var t := Next(s, step).state;
      && s.wins <= t.wins && (forall i :: |s.wins| <= i < |t.wins| ==> t.wins[i].id != id)
      && id < |t.rows| && !IsUnused(t.rows[id])
  {
    StepExtends(s, step);
    assert Later(s.rows[id], Next(s, step).state.rows[id]);
  }

  /** A challenge that has ended never lets anyone in again, whatever verifications are still under way. */
  lemma {:induction false} EndedNeverWins(s: State, steps: seq<Step>, id: nat)
    requires Inv(s) && id < |s.rows| && !IsUnused(s.rows[id])
    ensures s.wins <= After(s, steps).wins
    ensures forall i :: |s.wins| <= i < |After(s, steps).wins| ==> After(s, steps).wins[i].id != id
    decreases |steps|
  {
    if steps != [] {
      StepWins(s, steps[0], id);
      StepKeepsInv(s, steps[0]);
      EndedNeverWins(Next(s, steps[0]).state, steps[1..], id);
    }
  }

  // ---------------------------------------------------------------- asking for a code

  /** The stored codes of an account, or of an enrolling number, made after a moment. */
  function Recent(rows: seq<Challenge>, who: Counted, after: Time): set<nat> {
    set i | 0 <= i < |rows| && !rows[i].removed && rows[i].createdAt > after &&
            (if who.Account? then rows[i].admin == who.admin
             else rows[i].phone == who.phone && rows[i].purpose == Enrol)
  }

  function MovedUp(places: set<nat>): set<nat> { set i | i in places :: i + 1 }

  lemma {:induction false} MovingKeepsCount(places: set<nat>)
    ensures |MovedUp(places)| == |places|
  {
    if places != {} {
      var one :| one in places;
      MovingKeepsCount(places - {one});
      forall j | j in MovedUp(places) && j != one + 1 ensures j in MovedUp(places - {one}) {
        assert j - 1 in places - {one};
      }
      assert MovedUp(places) == MovedUp(places - {one}) + {one + 1};
    }
  }

  lemma RecentOfRest(rows: seq<Challenge>, who: Counted, after: Time)
    requires rows != []
    ensures MovedUp(Recent(rows[1..], who, after)) == Recent(rows, who, after) - {0}
  {
    forall i | i in Recent(rows, who, after) && i != 0 ensures i in MovedUp(Recent(rows[1..], who, after)) {
      assert rows[1..][i - 1] == rows[i] && i - 1 in Recent(rows[1..], who, after);
    }
  }

  lemma {:induction false} CountIsOfRecent(rows: seq<Challenge>, who: Counted, after: Time)
    ensures CountSince(rows, who, after) == |Recent(rows, who, after)|
  {
    if rows == [] {
      assert Recent(rows, who, after) == {};
    } else {
      CountIsOfRecent(rows[1..], who, after);
      RecentOfRest(rows, who, after);
      MovingKeepsCount(Recent(rows[1..], who, after));
      assert 0 in Recent(rows, who, after) <==> !rows[0].removed && IsFor(rows[0], who) && rows[0].createdAt > after;
    }
  }

  predicate WithinTheCaps(rows: seq<Challenge>, issue: Step)
    requires issue.Issue?
  {
    && |Recent(rows, Account(issue.admin), issue.at - 10 * 60 * 1000)| < 3
    && |Recent(rows, Account(issue.admin), issue.at - 24 * 60 * 60 * 1000)| < 10
    && (issue.purpose == Enrol ==> |Recent(rows, Number(issue.phone), issue.at - 60 * 60 * 1000)| < 3)
  }

  /**
   * A request for a code goes through exactly within the caps and to a number that is not blocked. It ends the unused
   * challenges of its own session, touches no other, and makes one; refused, it changes nothing.
   */
  lemma {:induction false} RequestGoesThroughExactlyWhen(s: State, issue: Step)
    requires issue.Issue?
    ensures var turn := Next(s, issue);
      && (turn.reply == Done <==> WithinTheCaps(s.rows, issue) && !issue.blocked)
      && (turn.reply == Refused(TooMany) <==> !WithinTheCaps(s.rows, issue))
      && (turn.reply != Done ==> turn.state == s)
      && (turn.reply == Done ==>
            && |turn.state.rows| == |s.rows| + 1 && turn.state.compared == s.compared + [0]
            && turn.state.calls == s.calls && turn.state.wins == s.wins
            && turn.state.rows[|s.rows|] == Challenge(issue.admin, issue.session, issue.purpose,
                 if issue.mode == Message then None else Some(issue.code), issue.mode == Message, issue.phone, 0,
                 issue.at + (if issue.mode == Message then 10 else 5) * 60 * 1000, None, issue.at, false)
            && (forall i :: 0 <= i < |s.rows| ==>
                  turn.state.rows[i] ==
                    if IsUnused(s.rows[i]) && s.rows[i].admin == issue.admin && s.rows[i].session == issue.session
                    then s.rows[i].(consumedAt := Some(issue.at)) else s.rows[i]))
  {
    CountIsOfRecent(s.rows, Account(issue.admin), issue.at - TEN_MINUTES);
    CountIsOfRecent(s.rows, Account(issue.admin), issue.at - DAY);
    CountIsOfRecent(s.rows, Number(issue.phone), issue.at - HOUR);
  }
}
