/** The second-factor operations on tables that change in place (src/admin/mfa.ts). */
module MfaDesk {
  import opened Prelude
  import opened Mfa

  class FactorTable {
    var factors: seq<Factor>
    var codes: seq<CodeRow>
    var calls: map<nat, Call>
    var passes: seq<Pass>
    var redeemed: seq<nat>

    ghost function Now(): State
      reads this
    {
      State(factors, codes, calls, passes, redeemed)
    }

    /** The transaction of an enrolment: older pending factors go, and a confirmed one makes the insert fail. */
    method StartEnrolment(ghost w: World, k: nat, secret: Secret) returns (reply: Reply)
      requires k in calls && calls[k].Enrolling?
      modifies this`factors, this`calls
      ensures Turn(Now(), reply) == Next(w, old(Now()), WriteEnrol(k, secret))
    {
      var admin := calls[k].admin;
      calls := calls - {k};
      var clash := false;
      var i := 0;
      while i < |factors|
        invariant 0 <= i <= |factors|
        invariant factors == old(factors) && calls == old(calls) - {k}
        invariant clash <==> exists j :: 0 <= j < i && IsConfirmed(factors[j], admin)
      {
        if IsConfirmed(factors[i], admin) { clash := true; }
        i := i + 1;
      }
      if clash { return Refused(Conflict); }
      ghost var before := factors;
      assert !HasConfirmed(before, admin);
      i := 0;
      while i < |factors|
        invariant 0 <= i <= |factors| == |before|
        invariant calls == old(calls) - {k}
        invariant factors[..i] == DisablePending(before, admin)[..i] && factors[i..] == before[i..]
      {
        assert factors[i] == factors[i..][0] == before[i];
        if IsPending(factors[i], admin) { factors := factors[i := factors[i].(disabled := true)]; }
        i := i + 1;
      }
      assert factors == DisablePending(before, admin);
      factors := factors + [Factor(admin, secret, false, None, false)];
      return Done;
    }

    /** The transaction that confirms a factor and replaces the recovery codes. */
    method ConfirmEnrolment(ghost w: World, k: nat, newCodes: seq<string>) returns (reply: Reply)
      requires k in calls && calls[k].Confirming? && calls[k].id < |factors|
      modifies this`factors, this`codes, this`calls, this`passes
      ensures Turn(Now(), reply) == Next(w, old(Now()), WriteConfirm(k, newCodes))
    {
      var call := calls[k];
      var f := factors[call.id];
      calls := calls - {k};
      if f.confirmed || f.disabled { return Refused(NoFactor); }
      factors := factors[call.id := f.(confirmed := true, counter := Some(call.step))];
      ReplaceCodes(f.admin, newCodes);
      passes := passes + [Pass(call.id, call.step, call.token, call.at)];
      return Done;
    }

    method ReplaceCodes(admin: Person, newCodes: seq<string>)
      modifies this`codes
      ensures codes == Reissued(old(codes), admin, newCodes)
    {
      ghost var before := codes;
      var i := 0;
      while i < |codes|
        invariant 0 <= i <= |codes| == |before|
        invariant codes[..i] == DeleteCodes(before, admin)[..i] && codes[i..] == before[i..]
      {
        assert codes[i] == codes[i..][0] == before[i];
        if codes[i].admin == admin { codes := codes[i := codes[i].(deleted := true)]; }
        i := i + 1;
      }
      assert codes == DeleteCodes(before, admin);
      codes := codes + Batch(admin, newCodes);
    }

    /** Two sign-ins with one code: the guarded write lets one of them move the guard. */
    method MoveReplayGuard(ghost w: World, k: nat) returns (reply: Reply)
      requires k in calls && calls[k].Moving? && calls[k].id < |factors|
      modifies this`factors, this`calls, this`passes
      ensures Turn(Now(), reply) == Next(w, old(Now()), WriteVerify(k))
    {
      var call := calls[k];
      var f := factors[call.id];
      calls := calls - {k};
      if f.counter.None? || f.counter.value < call.step {
        factors := factors[call.id := f.(counter := Some(call.step))];
        passes := passes + [Pass(call.id, call.step, call.token, call.at)];
        return Done;
      }
      return Refused(Replay);
    }

    /** Walks the list that was read; the first code that matches is claimed, or lost to someone else. */
    method UseRecoveryCode(ghost w: World, k: nat) returns (reply: Reply)
      requires k in calls && calls[k].Redeeming?
      modifies this`codes, this`calls, this`redeemed
      ensures Turn(Now(), reply) == Next(w, old(Now()), WriteRedeem(k))
    {
      var call := calls[k];
      calls := calls - {k};
      var i := 0;
      while i < |call.unused|
        invariant 0 <= i <= |call.unused|
        invariant codes == old(codes) && redeemed == old(redeemed) && calls == old(calls) - {k}
        invariant FirstMatch(codes, call.unused, call.code) == FirstMatch(codes, call.unused[i..], call.code)
      {
        var id := call.unused[i];
        if |call.code| == 10 && id < |codes| && codes[id].code == call.code {
          if codes[id].used || codes[id].deleted { break; }
          codes := codes[id := codes[id].(used := true)];
          redeemed := redeemed + [id];
          return Remaining(|call.unused| - 1);
        }
        i := i + 1;
      }
      return Refused(BadCode);
    }
  }
}
