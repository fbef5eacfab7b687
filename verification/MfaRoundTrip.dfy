/** What the second factor is for: the codes that were issued get their owner in, and no others do. */
module MfaRoundTrip {
  import opened Prelude
  import opened Text
  import opened Mfa

  // ---------------------------------------------------------------- using a recovery code

  /** A person types a recovery code, with nothing in between. */
  function Redeemed(w: World, s: State, k: nat, admin: Person, typed: string): Turn {
    Next(w, Next(w, s, ReadRedeem(k, admin, typed)).state, WriteRedeem(k))
  }

  /** Row `id` is a code of this person that nobody used yet. */
  predicate IsGood(codes: seq<CodeRow>, id: nat, admin: Person) {
    id < |codes| && codes[id].admin == admin && !codes[id].used && !codes[id].deleted
  }

  ghost predicate Has(codes: seq<CodeRow>, admin: Person, code: string) {
    exists id: nat :: IsGood(codes, id, admin) && codes[id].code == code
  }

  function GoodOnes(codes: seq<CodeRow>, admin: Person): set<nat> {
    set id | 0 <= id < |codes| && IsGood(codes, id, admin)
  }

  lemma {:induction false} UnusedAreListedOnce(codes: seq<CodeRow>, admin: Person)
    ensures |UnusedIds(codes, admin)| == |GoodOnes(codes, admin)|
  {
    if codes == [] {
      assert GoodOnes(codes, admin) == {};
    } else {
      var last := |codes| - 1;
      UnusedAreListedOnce(codes[..last], admin);
      assert GoodOnes(codes, admin) ==
        GoodOnes(codes[..last], admin) + if IsGood(codes, last, admin) then {last} else {};
    }
  }

  lemma {:induction false} RedeemTurn(w: World, s: State, k: nat, admin: Person, typed: string)
    requires k !in s.calls
    ensures
      var ids, code := UnusedIds(s.codes, admin), Normalised(typed);
      var found := FirstMatch(s.codes, ids, code);
      Redeemed(w, s, k, admin, typed) ==
        if found.None? then Turn(s, Refused(BadCode))
        else Turn(s.(codes := s.codes[found.value := s.codes[found.value].(used := true)],
                     redeemed := s.redeemed + [found.value]), Remaining(|ids| - 1))
  {
    var ids, code := UnusedIds(s.codes, admin), Normalised(typed);
    var mid := Next(w, s, ReadRedeem(k, admin, typed)).state;
    assert mid.calls[k] == Redeeming(admin, ids, code) && mid.calls - {k} == s.calls;
    var found := FirstMatch(s.codes, ids, code);
    if found.Some? { assert IsUnused(s.codes[found.value], admin); }
  }

  /**
   * A typed code is accepted exactly when it spells one the person has and has not used; that one is used up, every
   * other row stays, and the answer says how many are left.
   */
  lemma {:induction false} RedeemedExactlyWhen(w: World, s: State, k: nat, admin: Person, typed: string)
    requires k !in s.calls
    ensures
      var turn, code := Redeemed(w, s, k, admin, typed), Normalised(typed);
      if |code| == 10 && Has(s.codes, admin, code) then
        && turn.reply == Remaining(|GoodOnes(s.codes, admin)| - 1)
        && exists id: nat :: IsGood(s.codes, id, admin) && s.codes[id].code == code
             && turn.state == s.(codes := s.codes[id := CodeRow(admin, code, true, false)],
                                 redeemed := s.redeemed + [id])
      else turn == Turn(s, Refused(BadCode))
  {
    var ids, code := UnusedIds(s.codes, admin), Normalised(typed);
    var found := FirstMatch(s.codes, ids, code);
    RedeemTurn(w, s, k, admin, typed);
    UnusedAreListedOnce(s.codes, admin);
    forall id: nat | IsGood(s.codes, id, admin) ensures id in ids { }
    if found.Some? {
      assert IsGood(s.codes, found.value, admin) && s.codes[found.value].code == code;
    } else {
      forall id: nat | IsGood(s.codes, id, admin) ensures !IsMatch(s.codes, id, code) { }
    }
  }

  // ---------------------------------------------------------------- codes as they are shown and typed

  predicate IsShownChar(c: char) { 'A' <= c <= 'Z' || '0' <= c <= '9' }

  lemma FirstOnItsOwn(s: string)
    requires s != ""
    ensures Normalised(s) == Normalised([s[0]]) + Normalised(s[1..])
  {
    assert [s[0]][1..] == "";
  }

  lemma {:induction false} NormalisedAdds(a: string, b: string)
    ensures Normalised(a + b) == Normalised(a) + Normalised(b)
  {
    if a == "" {
      assert a + b == b;
    } else {
      NormalisedAdds(a[1..], b);
      assert (a + b)[1..] == a[1..] + b && (a + b)[0] == a[0];
      FirstOnItsOwn(a);
      FirstOnItsOwn(a + b);
      var first := Normalised([a[0]]);
      assert first + (Normalised(a[1..]) + Normalised(b)) == (first + Normalised(a[1..])) + Normalised(b);
    }
  }

  lemma {:induction false} ShownStays(code: string)
    requires forall c :: c in code ==> IsShownChar(c)
    ensures Normalised(code) == code && Normalised(Lower(code)) == code
  {
    if code != "" {
      assert IsShownChar(code[0]);
      ShownStays(code[1..]);
      assert Lower(code)[1..] == Lower(code[1..]);
      assert code == [code[0]] + code[1..];
    }
  }

  /** A code is good as it is shown, in two halves with a hyphen, as well as in small letters, or with spaces. */
  lemma TypedAsShown(first: string, second: string, gap: string)
    requires forall c :: c in first + second ==> IsShownChar(c)
    requires forall c :: c in gap ==> c == '-' || IsSpace(c)
    ensures Normalised(first + gap + second) == first + second
    ensures Normalised(Lower(first) + gap + Lower(second)) == first + second
  {
    assert forall c :: c in first || c in second ==> c in first + second;
    GapsVanish(gap);
    ShownStays(first);
    ShownStays(second);
    AroundAGap(first, gap, second, first, second);
    AroundAGap(Lower(first), gap, Lower(second), first, second);
  }

  lemma AroundAGap(a: string, gap: string, b: string, x: string, y: string)
    requires Normalised(a) == x && Normalised(b) == y && Normalised(gap) == ""
    ensures Normalised(a + gap + b) == x + y
  {
    NormalisedAdds(a + gap, b);
    NormalisedAdds(a, gap);
    assert x + "" == x;
  }

  lemma {:induction false} GapsVanish(gap: string)
    requires forall c :: c in gap ==> c == '-' || IsSpace(c)
    ensures Normalised(gap) == ""
  {
    if gap != "" { GapsVanish(gap[1..]); }
  }

  // ---------------------------------------------------------------- issuing recovery codes

  /** The person has exactly these codes now, all unused; everyone else's are as they were. */
  predicate HasExactly(before: seq<CodeRow>, after: seq<CodeRow>, admin: Person, newCodes: seq<string>) {
    && |after| == |before| + |newCodes|
    && (forall i :: 0 <= i < |before| ==>
          after[i] == before[i].(deleted := before[i].deleted || before[i].admin == admin))
    && (forall i :: 0 <= i < |newCodes| ==> after[|before| + i] == CodeRow(admin, newCodes[i], false, false))
  }

  lemma ReplyOnly(w: World, s: State, k: nat, admin: Person, typed: string)
    requires k !in s.calls
    ensures
      var code := Normalised(typed);
      Redeemed(w, s, k, admin, typed).reply ==
        if |code| == 10 && Has(s.codes, admin, code) then Remaining(|GoodOnes(s.codes, admin)| - 1)
        else Refused(BadCode)
  {
    RedeemedExactlyWhen(w, s, k, admin, typed);
  }

  /** Whatever was valid before, afterwards a person gets in by exactly the codes just issued, each in ten places. */
  lemma {:induction false} ExactlyTheNewCodesWork(
      w: World, s: State, t: State, k: nat, admin: Person, newCodes: seq<string>, typed: string)
    requires k !in t.calls && HasExactly(s.codes, t.codes, admin, newCodes)
    ensures Redeemed(w, t, k, admin, typed).reply
      == if |Normalised(typed)| == 10 && Normalised(typed) in newCodes then Remaining(|newCodes| - 1)
         else Refused(BadCode)
  {
    ReplyOnly(w, t, k, admin, typed);
    HasOnlyNew(s.codes, t.codes, admin, newCodes, Normalised(typed));
    OnlyNewAreGood(s.codes, t.codes, admin, newCodes);
  }

  lemma HasOnlyNew(
      before: seq<CodeRow>, after: seq<CodeRow>, admin: Person, newCodes: seq<string>, code: string)
    requires HasExactly(before, after, admin, newCodes)
    ensures Has(after, admin, code) <==> code in newCodes
  {
    OnlyNewAreGood(before, after, admin, newCodes);
    if code in newCodes {
      var i :| 0 <= i < |newCodes| && newCodes[i] == code;
      assert IsGood(after, |before| + i, admin) && after[|before| + i].code == code;
    }
  }

  lemma OnlyNewAreGood(before: seq<CodeRow>, after: seq<CodeRow>, admin: Person, newCodes: seq<string>)
    requires HasExactly(before, after, admin, newCodes)
    ensures forall id: nat :: IsGood(after, id, admin) <==> |before| <= id < |after|
    ensures forall id :: |before| <= id < |after| ==> after[id].code in newCodes
    ensures |GoodOnes(after, admin)| == |newCodes|
  {
    forall id: nat | id < |after|
      ensures IsGood(after, id, admin) <==> |before| <= id
      ensures |before| <= id ==> after[id].code in newCodes
    {
      if id < |before| {
        assert after[id] == before[id].(deleted := before[id].deleted || before[id].admin == admin);
      } else {
        assert after[|before| + (id - |before|)] == CodeRow(admin, newCodes[id - |before|], false, false);
      }
    }
    assert GoodOnes(after, admin) == Places(|before|, |newCodes|);
  }

  function Places(n: nat, m: nat): (r: set<nat>)
    ensures |r| == m && forall id :: id in r <==> n <= id < n + m
  {
    if m == 0 then {} else Places(n, m - 1) + {n + m - 1}
  }

  /** New codes take the place of the old ones, for their owner alone. */
  lemma {:induction false} RegeneratedCodesWork(
      w: World, s: State, admin: Person, newCodes: seq<string>, k: nat, typed: string)
    requires k !in s.calls
    ensures var turn := Next(w, s, Regenerate(admin, newCodes));
      && turn.reply == Done && turn.state == s.(codes := turn.state.codes)
      && HasExactly(s.codes, turn.state.codes, admin, newCodes)
      && Redeemed(w, turn.state, k, admin, typed).reply
         == if |Normalised(typed)| == 10 && Normalised(typed) in newCodes then Remaining(|newCodes| - 1)
            else Refused(BadCode)
  {
    var t := Next(w, s, Regenerate(admin, newCodes)).state;
    ExactlyTheNewCodesWork(w, s, t, k, admin, newCodes, typed);
  }

  // ---------------------------------------------------------------- the authenticator app

  /** The password of this moment, or of the time step before or after it. */
  ghost predicate IsCurrent(w: World, secret: Secret, token: string, at: Time, step: int) {
    -1 <= step - at / 30_000 <= 1 && w.otp(secret, step) == token
  }

  predicate IsLive(f: Factor) { !f.disabled }

  /** Setting up is refused exactly to those who have a confirmed factor; else one new secret waits to be confirmed. */
  lemma {:induction false} EnrolledExactlyWhen(w: World, s: State, k: nat, admin: Person, secret: Secret)
    requires k !in s.calls
    ensures var first := Next(w, s, ReadEnrol(k, admin)); var turn := Next(w, first.state, WriteEnrol(k, secret));
      var has := exists i :: 0 <= i < |s.factors| && s.factors[i].admin == admin && IsLive(s.factors[i])
                             && s.factors[i].confirmed;
      && (has ==> first == Turn(s, Refused(AlreadyEnrolled)))
      && (!has ==>
            var t := turn.state; var n := |s.factors|;
            && turn.reply == Done && t == s.(factors := t.factors) && |t.factors| == n + 1
            && t.factors[n] == Factor(admin, secret, false, None, false)
            && forall i :: 0 <= i < n ==>
                 t.factors[i] == s.factors[i].(disabled := s.factors[i].disabled || s.factors[i].admin == admin))
  {
    var first := Next(w, s, ReadEnrol(k, admin));
    if !HasConfirmed(s.factors, admin) {
      assert first.state.calls - {k} == s.calls;
      forall i | 0 <= i < |s.factors| ensures !IsConfirmed(s.factors[i], admin) { }
    } else {
      var i :| 0 <= i < |s.factors| && IsConfirmed(s.factors[i], admin);
      assert IsLive(s.factors[i]);
    }
  }

  /**
   * A pending factor is confirmed exactly by a current password of its secret; the password is used up with it, and
   * the codes handed out are good, and the only ones.
   */
  lemma {:induction false} ConfirmedExactlyWhen(
      w: World, s: State, k: nat, id: nat, token: string, at: Time, answer: Option<int>, newCodes: seq<string>)
    requires Due(w, s, ReadConfirm(k, id, token, at, answer))
    ensures var first := Next(w, s, ReadConfirm(k, id, token, at, answer));
      var turn := Next(w, first.state, WriteConfirm(k, newCodes)); var f := s.factors[id];
      if exists step :: IsCurrent(w, f.secret, token, at, step) then
        && turn.reply == Done && HasExactly(s.codes, turn.state.codes, f.admin, newCodes)
        && exists step :: IsCurrent(w, f.secret, token, at, step)
             && turn.state == s.(factors := s.factors[id := f.(confirmed := true, counter := Some(step))],
                                 codes := turn.state.codes, passes := s.passes + [Pass(id, step, token, at)])
      else first == Turn(s, Refused(BadCode))
  {
    var f := s.factors[id];
    var first := Next(w, s, ReadConfirm(k, id, token, at, answer));
    if answer.Some? {
      assert IsCurrent(w, f.secret, token, at, answer.value);
      assert first.state.calls - {k} == s.calls;
    } else {
      NoneIsCurrent(w, f.secret, token, at, None);
    }
  }

  lemma NoneIsCurrent(w: World, secret: Secret, token: string, at: Time, after: Option<int>)
    requires !SomeStepMatches(w, secret, token, at, after)
    ensures forall step :: IsCurrent(w, secret, token, at, step) ==> after.Some? && step <= after.value
  {
    forall step | IsCurrent(w, secret, token, at, step) ensures after.Some? && step <= after.value {
      var now := at / STEP_MS;
      assert step == now - 1 || step == now || step == now + 1;
    }
  }

  /**
   * A sign-in passes exactly with a current password of a later time step than any accepted before; the guard moves to
   * that step. A password refused only for its step is told from a wrong one.
   */
  lemma {:induction false} SignedInExactlyWhen(
      w: World, s: State, k: nat, id: nat, token: string, at: Time, answer: Option<int>)
    requires Due(w, s, ReadVerify(k, id, token, at, answer))
    ensures var first := Next(w, s, ReadVerify(k, id, token, at, answer));
      var turn := Next(w, first.state, WriteVerify(k)); var f := s.factors[id];
      if exists step :: IsCurrent(w, f.secret, token, at, step) && (f.counter == None || step > f.counter.value) then
        && turn.reply == Done
        && exists step :: IsCurrent(w, f.secret, token, at, step) && (f.counter == None || step > f.counter.value)
             && turn.state == s.(factors := s.factors[id := f.(counter := Some(step))],
                                 passes := s.passes + [Pass(id, step, token, at)])
      else
        first == Turn(s, Refused(if exists step :: IsCurrent(w, f.secret, token, at, step) then Replay else BadCode))
  {
    var f := s.factors[id];
    var first := Next(w, s, ReadVerify(k, id, token, at, answer));
    if answer.Some? {
      assert IsCurrent(w, f.secret, token, at, answer.value);
      assert first.state.calls - {k} == s.calls;
    } else {
      NoneIsCurrent(w, f.secret, token, at, f.counter);
      if SomeStepMatches(w, f.secret, token, at, None) {
        var now := at / STEP_MS;
        assert IsCurrent(w, f.secret, token, at, now - 1) || IsCurrent(w, f.secret, token, at, now)
            || IsCurrent(w, f.secret, token, at, now + 1);
      } else {
        NoneIsCurrent(w, f.secret, token, at, None);
      }
    }
  }

  /** A reset leaves a person without a factor and without codes, and touches nobody else. */
  lemma {:induction false} ResetLeavesNothing(w: World, s: State, admin: Person)
    ensures var t := Next(w, s, Reset(admin)).state;
      && t == s.(factors := t.factors, codes := t.codes) && |t.factors| == |s.factors| && |t.codes| == |s.codes|
      && (forall i :: 0 <= i < |s.factors| ==>
            t.factors[i] == s.factors[i].(disabled := s.factors[i].disabled || s.factors[i].admin == admin))
      && (forall i :: 0 <= i < |s.codes| ==>
            t.codes[i] == s.codes[i].(deleted := s.codes[i].deleted || s.codes[i].admin == admin))
  {
  }
}
