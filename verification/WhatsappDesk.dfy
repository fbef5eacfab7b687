/** The WhatsApp code operations on a table that changes in place (src/admin/whatsappCodes.ts). */
module WhatsappDesk {
  import opened Prelude
  import opened WhatsappCodes

  class ChallengeTable {
    var rows: seq<Challenge>
    var calls: map<nat, Call>
    var compared: seq<nat>
    var wins: seq<Win>

    ghost function Now(): State
      reads this
    {
      State(rows, calls, compared, wins)
    }

    /** Makes a code for a session, or refuses; older codes of the session stop working. */
    method IssueChallenge(
        admin: Person, session: Session, purpose: Purpose, phone: Phone, mode: Mode, code: Code, blocked: bool,
        at: Time)
      returns (reply: Reply)
      modifies this`rows, this`compared
      ensures Turn(Now(), reply) == Next(old(Now()), Issue(admin, session, purpose, phone, mode, code, blocked, at))
    {
      var recent := CountSince(rows, Account(admin), at - TEN_MINUTES);
      var today := CountSince(rows, Account(admin), at - DAY);
      var toNumber := if purpose == Enrol then CountSince(rows, Number(phone), at - HOUR) else 0;
      if recent >= SENDS_PER_ACCOUNT_10_MIN || today >= SENDS_PER_ACCOUNT_DAY || toNumber >= SENDS_PER_NUMBER_HOUR {
        return Refused(TooMany);
      }
      if blocked { return Refused(BlockedNumber); }
      RetireOlder(admin, session, at);
      var created := Challenge(admin, session, purpose, if mode == Message then None else Some(code), mode == Message,
        phone, 0,
        at + (if mode == Message then MESSAGE_WAIT_MS else CODE_TTL_MS), None, at, false);
      rows := rows + [created];
      compared := compared + [0];
      return Done;
    }

    method RetireOlder(admin: Person, session: Session, at: Time)
      modifies this`rows
      ensures rows == Retire(old(rows), admin, session, at)
    {
      var i := 0;
      while i < |rows|
        invariant 0 <= i <= |rows| == |old(rows)|
        invariant rows[..i] == Retire(old(rows), admin, session, at)[..i]
        invariant rows[i..] == old(rows)[i..]
      {
        var row := rows[i];
        assert row == old(rows)[i..][0];
        if !row.removed && row.admin == admin && row.session == session && row.consumedAt.None? {
          rows := rows[i := row.(consumedAt := Some(at))];
        }
        i := i + 1;
      }
    }

    /** The newest challenge a guess can be for, by a scan that keeps the latest creation seen. */
    method FindLive(admin: Person, session: Session, purposes: set<Purpose>, at: Time) returns (found: Option<nat>)
      ensures found.Some? ==> IsNewest(rows, found.value, c => IsLive(c, admin, session, purposes, at))
      ensures found.None? ==> forall r :: r in rows ==> !IsLive(r, admin, session, purposes, at)
    {
      found := None;
      var i := 0;
      while i < |rows|
        invariant 0 <= i <= |rows|
        invariant found.None? ==> forall j :: 0 <= j < i ==> !IsLive(rows[j], admin, session, purposes, at)
        invariant found.Some? ==> found.value < i && IsLive(rows[found.value], admin, session, purposes, at)
        invariant found.Some? ==>
          forall j :: 0 <= j < i && IsLive(rows[j], admin, session, purposes, at) ==>
            rows[j].createdAt <= rows[found.value].createdAt
      {
        if IsLive(rows[i], admin, session, purposes,
            at) && (found.None? || rows[i].createdAt >= rows[found.value].createdAt) {
          found := Some(i);
        }
        i := i + 1;
      }
    }

    method CountGuessAt(k: nat) returns (reply: Reply)
      requires k in calls && calls[k].Counting? && calls[k].id < |rows|
      modifies this`rows, this`calls
      ensures Turn(Now(), reply) == Next(old(Now()), Count(k))
    {
      var call := calls[k];
      var row := rows[call.id];
      if row.removed || row.consumedAt.Some? || row.attempts >= MAX_GUESSES {
        calls := calls - {k};
        return Refused(BadCode);
      }
      rows := rows[call.id := row.(attempts := row.attempts + 1)];
      calls := calls[k := Comparing(call.id, call.row, call.guess, call.at)];
      return Continues;
    }

    method CompareAt(k: nat) returns (reply: Reply)
      requires k in calls && calls[k].Comparing? && calls[k].id < |compared|
      modifies this`calls, this`compared
      ensures Turn(Now(), reply) == Next(old(Now()), Compare(k))
    {
      var call := calls[k];
      compared := compared[call.id := compared[call.id] + 1];
      if call.row.code == Some(call.guess) {
        calls := calls[k := Claiming(call.id, call.row, call.guess, call.at)];
        return Continues;
      }
      if call.row.attempts + 1 >= MAX_GUESSES {
        calls := calls[k := Retiring(call.id, call.at)];
        return Continues;
      }
      calls := calls - {k};
      return Refused(BadCode);
    }

    method FinishAt(k: nat) returns (reply: Reply)
      requires k in calls && (calls[k].Claiming? || calls[k].Retiring?) && calls[k].id < |rows|
      modifies this`rows, this`calls, this`wins
      ensures Turn(Now(), reply) == Next(old(Now()), Finish(k))
    {
      var call := calls[k];
      var row := rows[call.id];
      calls := calls - {k};
      if row.removed || row.consumedAt.Some? { return Refused(BadCode); }
      rows := rows[call.id := row.(consumedAt := Some(call.at))];
      if !call.Claiming? { return Refused(BadCode); }
      wins := wins + [Win(call.id, call.guess)];
      return Done;
    }

    /** The reply to "ADMIN CODE": of two such messages at once, one makes the code and the other changes nothing. */
    method AnswerAt(k: nat, code: Code) returns (reply: Reply)
      requires k in calls && calls[k].Answering? && calls[k].id < |rows|
      modifies this`rows, this`calls
      ensures Turn(Now(), reply) == Next(old(Now()), AnswerMessage(k, code))
    {
      var call := calls[k];
      var row := rows[call.id];
      calls := calls - {k};
      if !row.removed && row.awaiting && row.consumedAt.None? {
        rows := rows[call.id := row.(awaiting := false, code := Some(code), attempts := 0,
          expiresAt := call.at + CODE_TTL_MS)];
      }
      return Done;
    }

    /** Counting, comparing and claiming a row just read, with nothing in between. */
    method VerifyRow(k: nat) returns (accepted: bool)
      requires k in calls && calls[k].Counting? && calls[k].id < |rows| == |compared|
      requires calls[k].row == rows[calls[k].id] && !calls[k].row.removed && calls[k].row.consumedAt.None?
      modifies this`rows, this`calls, this`compared, this`wins
      ensures calls == old(calls) - {k}
      ensures var call := old(calls)[k];
        && (accepted <==> call.row.attempts < MAX_GUESSES && call.row.code == Some(call.guess))
        && (call.row.attempts >= MAX_GUESSES ==> rows == old(rows))
        && (call.row.attempts < MAX_GUESSES ==>
              rows == old(rows)[call.id := call.row.(attempts := call.row.attempts + 1, consumedAt :=
                if accepted || call.row.attempts + 1 == MAX_GUESSES then Some(call.at) else None)])
    {
      var reply := CountGuessAt(k);
      if reply.Continues? { reply := CompareAt(k); }
      if reply.Continues? { reply := FinishAt(k); }
      accepted := reply.Done?;
    }

    /**
     * A whole verification with nothing in between: a right guess works once, and then the fifth wrong one does retire
     * the code.
     */
    method VerifyChallenge(k: nat, admin: Person, session: Session, purposes: set<Purpose>, guess: Code, at: Time)
      returns (accepted: bool, ghost seen: Option<nat>)
      requires k !in calls && |compared| == |rows|
      modifies this`rows, this`calls, this`compared, this`wins
      ensures calls == old(calls)
      ensures seen.None? ==>
        !accepted && rows == old(rows) && forall r :: r in rows ==> !IsLive(r, admin, session, purposes, at)
      ensures seen.Some? ==> IsNewest(old(rows), seen.value, c => IsLive(c, admin, session, purposes, at))
      ensures seen.Some? ==> var row := old(rows)[seen.value];
        && (accepted <==> row.attempts < MAX_GUESSES && row.code == Some(guess))
        && (row.attempts >= MAX_GUESSES ==> rows == old(rows))
        && (row.attempts < MAX_GUESSES ==>
              rows == old(rows)[seen.value := row.(attempts := row.attempts + 1,
                        consumedAt := if accepted || row.attempts + 1 == MAX_GUESSES then Some(at) else None)])
    {
      seen := None;
      var found := FindLive(admin, session, purposes, at);
      if found.None? { return false, None; }
      seen := found;
      calls := calls[k := Counting(found.value, rows[found.value], guess, at)];
      accepted := VerifyRow(k);
      assert calls == old(calls);
    }
  }
}
