/** No one-time password passes twice and no recovery code is used twice, in every interleaving. */
module MfaSafety {
  import opened Prelude
  import opened Mfa

  predicate CallOk(w: World, s: State, call: Call) {
    match call
    case Enrolling(_) => true
    case Confirming(id, step, token, at) =>
      id < |s.factors| && InWindow(step, at) && w.otp(s.factors[id].secret, step) == token
    case Moving(id, step, token, at) =>
      id < |s.factors| && s.factors[id].confirmed && InWindow(step, at) && w.otp(s.factors[id].secret, step) == token
    case Redeeming(admin, unused, _) => ListOk(s.codes, admin, unused)
  }

  /** While one listed code is still stored, every unused code of the account is on the list. */
  predicate ListOk(codes: seq<CodeRow>, admin: Person, unused: seq<nat>) {
    && (forall id :: id in unused ==> id < |codes| && codes[id].admin == admin)
    && ((exists id :: id in unused && !codes[id].deleted) ==>
        forall r :: 0 <= r < |codes| && IsUnused(codes[r], admin) ==> r in unused)
  }

  /** Each pass was the code of its step, inside its window, and its factor's guard stands at or past it. */
  predicate PassOk(w: World, factors: seq<Factor>, p: Pass) {
    && p.factor < |factors| && factors[p.factor].confirmed
    && factors[p.factor].counter.Some? && p.step <= factors[p.factor].counter.value
    && InWindow(p.step, p.at) && w.otp(factors[p.factor].secret, p.step) == p.token
  }

  predicate StepsIncrease(passes: seq<Pass>) {
    forall i, j :: 0 <= i < j < |passes| && passes[i].factor == passes[j].factor ==> passes[i].step < passes[j].step
  }

  predicate OneLiveEach(factors: seq<Factor>) {
    forall i, j :: 0 <= i < j < |factors| && factors[i].admin == factors[j].admin ==>
      factors[i].disabled || factors[j].disabled
  }

  predicate GuardsStartAtConfirmation(factors: seq<Factor>) {
    forall i :: 0 <= i < |factors| && factors[i].counter.Some? ==> factors[i].confirmed
  }

  predicate RedeemedOk(s: State) {
    && (forall i :: 0 <= i < |s.redeemed| ==> s.redeemed[i] < |s.codes| && s.codes[s.redeemed[i]].used)
    && (forall i, j :: 0 <= i < j < |s.redeemed| ==> s.redeemed[i] != s.redeemed[j])
  }

  ghost predicate Inv(w: World, s: State) {
    && (forall k :: k in s.calls ==> CallOk(w, s, s.calls[k]))
    && (forall p :: p in s.passes ==> PassOk(w, s.factors, p))
    && StepsIncrease(s.passes)
    && OneLiveEach(s.factors)
    && GuardsStartAtConfirmation(s.factors)
    && RedeemedOk(s)
  }

  // ---------------------------------------------------------------- rows only move on

  predicate FactorLater(f: Factor, g: Factor) {
    && g.admin == f.admin && g.secret == f.secret && (f.confirmed ==> g.confirmed) && (f.disabled ==> g.disabled)
    && (f.counter.Some? ==> g.counter.Some? && g.counter.value >= f.counter.value)
  }

  predicate CodeLater(c: CodeRow, d: CodeRow) {
    d.admin == c.admin && d.code == c.code && (c.used ==> d.used) && (c.deleted ==> d.deleted)
  }

  predicate FactorsLater(fs: seq<Factor>, gs: seq<Factor>) {
    |fs| <= |gs| && forall i :: 0 <= i < |fs| ==> FactorLater(fs[i], gs[i])
  }

  predicate CodesLater(cs: seq<CodeRow>, ds: seq<CodeRow>) {
    |cs| <= |ds| && forall i :: 0 <= i < |cs| ==> CodeLater(cs[i], ds[i])
  }

  lemma {:induction false} PassesStay(w: World, fs: seq<Factor>, gs: seq<Factor>, passes: seq<Pass>)
    requires FactorsLater(fs, gs) && forall p :: p in passes ==> PassOk(w, fs, p)
    ensures forall p :: p in passes ==> PassOk(w, gs, p)
  {
    forall p | p in passes ensures PassOk(w, gs, p) {
      assert PassOk(w, fs, p) && FactorLater(fs[p.factor], gs[p.factor]);
    }
  }

  /** Calls in flight stay sound when rows move on, the lists of codes being looked after separately. */
  lemma {:induction false} CallsStay(w: World, s: State, t: State)
    requires Inv(w, s) && FactorsLater(s.factors, t.factors)
    requires forall k :: k in t.calls ==> k in s.calls && t.calls[k] == s.calls[k]
    requires forall k :: k in t.calls && t.calls[k].Redeeming? ==> ListOk(t.codes, t.calls[k].admin, t.calls[k].unused)
    ensures forall k :: k in t.calls ==> CallOk(w, t, t.calls[k])
  {
    forall k | k in t.calls ensures CallOk(w, t, t.calls[k]) {
      assert CallOk(w, s, s.calls[k]);
    }
  }

  lemma {:induction false} UsingKeepsLists(codes: seq<CodeRow>, id: nat, admin: Person, unused: seq<nat>)
    requires id < |codes| && ListOk(codes, admin, unused)
    ensures ListOk(codes[id := codes[id].(used := true)], admin, unused)
  {
    var next := codes[id := codes[id].(used := true)];
    assert forall r :: 0 <= r < |next| && IsUnused(next[r], admin) ==> IsUnused(codes[r], admin);
    assert forall r :: 0 <= r < |next| ==> next[r].deleted == codes[r].deleted;
  }

  lemma {:induction false} DeletingKeepsLists(codes: seq<CodeRow>, owner: Person, admin: Person, unused: seq<nat>)
    requires ListOk(codes, admin, unused)
    ensures ListOk(DeleteCodes(codes, owner), admin, unused)
  {
    var next := DeleteCodes(codes, owner);
    assert forall r :: 0 <= r < |next| && IsUnused(next[r], admin) ==> IsUnused(codes[r], admin);
    assert forall r :: 0 <= r < |next| && !next[r].deleted ==> !codes[r].deleted;
  }

  lemma {:induction false} ReissueKeepsLists(
      codes: seq<CodeRow>, owner: Person, newCodes: seq<string>, admin: Person, unused: seq<nat>)
    requires ListOk(codes, admin, unused)
    ensures ListOk(Reissued(codes, owner, newCodes), admin, unused)
  {
    DeletingKeepsLists(codes, owner, admin, unused);
    var kept, next := DeleteCodes(codes, owner), Reissued(codes, owner, newCodes);
    assert forall r :: 0 <= r < |kept| ==> next[r] == kept[r];
    assert forall r :: |kept| <= r < |next| ==> next[r].admin == owner;
  }

  // ---------------------------------------------------------------- one step

  lemma {:induction false} EnrolKeeps(w: World, s: State, k: nat, secret: Secret)
    requires Inv(w, s) && k in s.calls && s.calls[k].Enrolling?
    ensures Inv(w, Enrol(s, k, secret).state)
  {
    var t := Enrol(s, k, secret).state;
    var admin := s.calls[k].admin;
    assert FactorsLater(s.factors, t.factors);
    PassesStay(w, s.factors, t.factors, s.passes);
    forall j | j in t.calls && t.calls[j].Redeeming? ensures ListOk(t.codes, t.calls[j].admin, t.calls[j].unused) {
      assert CallOk(w, s, s.calls[j]);
    }
    CallsStay(w, s, t);
    if !HasConfirmed(s.factors, admin) {
      forall i | 0 <= i < |s.factors| && s.factors[i].admin == admin ensures t.factors[i].disabled {
        assert !IsConfirmed(s.factors[i], admin);
      }
    }
  }

  lemma {:induction false} ConfirmKeeps(w: World, s: State, k: nat, newCodes: seq<string>)
    requires Inv(w, s) && k in s.calls && s.calls[k].Confirming? && s.calls[k].id < |s.factors|
    ensures Inv(w, Confirm(s, k, newCodes).state)
  {
    var t, call := Confirm(s, k, newCodes).state, s.calls[k];
    assert CallOk(w, s, call);
    assert FactorsLater(s.factors, t.factors);
    PassesStay(w, s.factors, t.factors, s.passes);
    forall j | j in t.calls && t.calls[j].Redeeming? ensures ListOk(t.codes, t.calls[j].admin, t.calls[j].unused) {
      assert CallOk(w, s, s.calls[j]);
      ReissueKeepsLists(s.codes, s.factors[call.id].admin, newCodes, t.calls[j].admin, t.calls[j].unused);
    }
    CallsStay(w, s, t);
    if t.passes != s.passes {
      forall i | 0 <= i < |s.passes| ensures s.passes[i].factor != call.id {
        assert PassOk(w, s.factors, s.passes[i]);
      }
    }
  }

  lemma {:induction false} VerifyKeeps(w: World, s: State, k: nat)
    requires Inv(w, s) && k in s.calls && s.calls[k].Moving? && s.calls[k].id < |s.factors|
    ensures Inv(w, Verify(s, k).state)
  {
    var t, call := Verify(s, k).state, s.calls[k];
    assert CallOk(w, s, call);
    assert FactorsLater(s.factors, t.factors);
    PassesStay(w, s.factors, t.factors, s.passes);
    forall j | j in t.calls && t.calls[j].Redeeming? ensures ListOk(t.codes, t.calls[j].admin, t.calls[j].unused) {
      assert CallOk(w, s, s.calls[j]);
    }
    CallsStay(w, s, t);
    forall i | 0 <= i < |s.passes| && t.passes != s.passes && s.passes[i].factor == call.id
      ensures s.passes[i].step < call.step
    {
      assert PassOk(w, s.factors, s.passes[i]);
    }
  }

  lemma {:induction false} RedeemKeeps(w: World, s: State, k: nat)
    requires Inv(w, s) && k in s.calls && s.calls[k].Redeeming?
    ensures Inv(w, Redeem(s, k).state)
  {
    var t, call := Redeem(s, k).state, s.calls[k];
    forall j | j in t.calls && t.calls[j].Redeeming? ensures ListOk(t.codes, t.calls[j].admin, t.calls[j].unused) {
      assert CallOk(w, s, s.calls[j]);
      if t.codes != s.codes {
        UsingKeepsLists(s.codes, FirstMatch(s.codes, call.unused, call.code).value, t.calls[j].admin,
          t.calls[j].unused);
      }
    }
    CallsStay(w, s, t);
  }

  lemma {:induction false} RegenerateKeeps(w: World, s: State, admin: Person, newCodes: seq<string>)
    requires Inv(w, s)
    ensures Inv(w, s.(codes := Reissued(s.codes, admin, newCodes)))
  {
    var t := s.(codes := Reissued(s.codes, admin, newCodes));
    forall j | j in t.calls && t.calls[j].Redeeming? ensures ListOk(t.codes, t.calls[j].admin, t.calls[j].unused) {
      assert CallOk(w, s, s.calls[j]);
      ReissueKeepsLists(s.codes, admin, newCodes, t.calls[j].admin, t.calls[j].unused);
    }
    CallsStay(w, s, t);
  }

  lemma {:induction false} ResetKeeps(w: World, s: State, admin: Person)
    requires Inv(w, s)
    ensures Inv(w, s.(factors := DisableAll(s.factors, admin), codes := DeleteCodes(s.codes, admin)))
  {
    var t := s.(factors := DisableAll(s.factors, admin), codes := DeleteCodes(s.codes, admin));
    PassesStay(w, s.factors, t.factors, s.passes);
    forall j | j in t.calls && t.calls[j].Redeeming? ensures ListOk(t.codes, t.calls[j].admin, t.calls[j].unused) {
      assert CallOk(w, s, s.calls[j]);
      DeletingKeepsLists(s.codes, admin, t.calls[j].admin, t.calls[j].unused);
    }
    CallsStay(w, s, t);
  }

  lemma {:induction false} NewCallKeeps(w: World, s: State, k: nat, call: Call)
    requires Inv(w, s) && CallOk(w, s, call)
    ensures Inv(w, s.(calls := s.calls[k := call]))
  {
    var t := s.(calls := s.calls[k := call]);
    forall j | j in t.calls ensures CallOk(w, t, t.calls[j]) {
      assert j != k ==> CallOk(w, s, s.calls[j]);
    }
  }

  lemma {:induction false} StepKeepsInv(w: World, s: State, step: Step)
    requires Inv(w, s)
    ensures Inv(w, Next(w, s, step).state)
  {
    if Due(w, s, step) {
      match step
      case ReadEnrol(k, admin) => NewCallKeeps(w, s, k, Enrolling(admin));
      case WriteEnrol(k, secret) => EnrolKeeps(w, s, k, secret);
      case ReadConfirm(k, id, token, at, answer) =>
        if answer.Some? { NewCallKeeps(w, s, k, Confirming(id, answer.value, token, at)); }
      case WriteConfirm(k, newCodes) => ConfirmKeeps(w, s, k, newCodes);
      case ReadVerify(k, id, token, at, answer) =>
        if answer.Some? { NewCallKeeps(w, s, k, Moving(id, answer.value, token, at)); }
      case WriteVerify(k) => VerifyKeeps(w, s, k);
      case ReadRedeem(k, admin, typed) => NewCallKeeps(w, s, k,
          Redeeming(admin, UnusedIds(s.codes, admin), Normalised(typed)));
      case WriteRedeem(k) => RedeemKeeps(w, s, k);
      case Regenerate(admin, newCodes) => RegenerateKeeps(w, s, admin, newCodes);
      case Reset(admin) => ResetKeeps(w, s, admin);
    }
  }

  lemma {:induction false} RunKeepsInv(w: World, s: State, steps: seq<Step>)
    requires Inv(w, s)
    ensures Inv(w, After(w, s, steps))
    decreases |steps|
  {
    if steps != [] {
      StepKeepsInv(w, s, steps[0]);
      RunKeepsInv(w, Next(w, s, steps[0]).state, steps[1..]);
    }
  }

  // ---------------------------------------------------------------- the main results

  /**
   * In every run the time steps accepted for one authenticator, its enrolment code first, strictly increase, and each
   * was the code of a step at most one away from the step of its request: no one-time password passes twice.
   */
  lemma NoPasswordPassesTwice(w: World, steps: seq<Step>, i: nat, j: nat)
    requires i < j < |After(w, INITIAL, steps).passes|
    ensures
      var s := After(w, INITIAL, steps);
      var a, b := s.passes[i], s.passes[j];
      && (a.factor == b.factor ==> a.step < b.step)
      && b.factor < |s.factors| && w.otp(s.factors[b.factor].secret, b.step) == b.token
      && b.at / STEP_MS - 1 <= b.step <= b.at / STEP_MS + 1
  {
    RunKeepsInv(w, INITIAL, steps);
    assert PassOk(w, After(w, INITIAL, steps).factors, After(w, INITIAL, steps).passes[j]);
  }

  /** Each stored recovery code lets someone in at most once, and an account never has two live authenticators. */
  lemma EachRecoveryCodeWorksOnce(w: World, steps: seq<Step>)
    ensures
      var s := After(w, INITIAL, steps);
      && (forall i, j :: 0 <= i < j < |s.redeemed| ==> s.redeemed[i] != s.redeemed[j])
      && OneLiveEach(s.factors)
  {
    RunKeepsInv(w, INITIAL, steps);
  }

  function Indices(ids: seq<nat>): set<nat> { set id | id in ids }

  lemma {:induction false} FewerIndices(ids: seq<nat>)
    ensures |Indices(ids)| <= |ids|
  {
    if ids != [] {
      FewerIndices(ids[1..]);
      assert Indices(ids) == {ids[0]} + Indices(ids[1..]);
    } else {
      assert Indices(ids) == {};
    }
  }

  function Unused(codes: seq<CodeRow>, admin: Person): set<nat> {
    set id | 0 <= id < |codes| && IsUnused(codes[id], admin)
  }

  /** The number of codes said to remain is never less than the number that do, whatever ran since the list was read. */
  lemma RemainingIsNotTooLow(w: World, steps: seq<Step>, k: nat)
    requires
      var s := After(w, INITIAL, steps);
      k in s.calls && s.calls[k].Redeeming? && Redeem(s, k).reply.Remaining?
    ensures
      var s := After(w, INITIAL, steps);
      |Unused(Redeem(s, k).state.codes, s.calls[k].admin)| <= Redeem(s, k).reply.count
  {
    RunKeepsInv(w, INITIAL, steps);
    var s := After(w, INITIAL, steps);
    var call := s.calls[k];
    assert CallOk(w, s, call);
    var id := FirstMatch(s.codes, call.unused, call.code).value;
    var left := Unused(Redeem(s, k).state.codes, call.admin);
    forall r | r in left ensures r in Indices(call.unused) - {id} {
      assert IsUnused(s.codes[r], call.admin);
    }
    FewerIndices(call.unused);
    Within(left, Indices(call.unused) - {id});
  }

  lemma {:induction false} Within(a: set<nat>, b: set<nat>)
    requires a <= b
    ensures |a| <= |b|
  {
    assert b == a + (b - a);
  }

  // ---------------------------------------------------------------- what a removal does not stop

  /** A sign-in that has read the factor and whose step the replay guard has not passed. */
  predicate SignInUnderWay(s: State, id: nat) {
    exists k :: k in s.calls && IsAhead(s, s.calls[k], id)
  }

  predicate IsAhead(s: State, call: Call, id: nat) {
    && call.Moving? && call.id == id < |s.factors|
    && (s.factors[id].counter.Some? ==> s.factors[id].counter.value < call.step)
  }

  predicate PassedSince(s: State, t: State, id: nat) {
    exists i :: |s.passes| <= i < |t.passes| && t.passes[i].factor == id
  }

  lemma {:induction false} RemovedStep(w: World, s: State, step: Step, id: nat)
    requires id < |s.factors| && s.factors[id].disabled && !SignInUnderWay(s, id)
    ensures var t := Next(w, s, step).state;
      id < |t.factors| && t.factors[id].disabled && !SignInUnderWay(t, id)
    ensures s.passes <= Next(w, s, step).state.passes && !PassedSince(s, Next(w, s, step).state, id)
  {
    var t := Next(w, s, step).state;
    forall k | k in t.calls && t.calls[k].Moving? && t.calls[k].id == id ensures !IsAhead(t, t.calls[k], id) {
      assert k in s.calls && t.calls[k] == s.calls[k];
      assert !IsAhead(s, s.calls[k], id);
    }
    if step.WriteVerify? && Due(w, s, step) { assert !IsAhead(s, s.calls[step.k], id); }
  }

  lemma {:induction false} RemovedRun(w: World, s: State, steps: seq<Step>, id: nat)
    requires id < |s.factors| && s.factors[id].disabled && !SignInUnderWay(s, id)
    ensures s.passes <= After(w, s, steps).passes && !PassedSince(s, After(w, s, steps), id)
    decreases |steps|
  {
    if steps != [] {
      RemovedStep(w, s, steps[0], id);
      RemovedRun(w, Next(w, s, steps[0]).state, steps[1..], id);
    }
  }

  /**
   * A removed factor can still let a code through in some continuation exactly when a sign-in that had read it before
   * is on its way to move its replay guard, to a step the guard has not reached.
   */
  lemma {:induction false} RemovedFactorPassesExactlyWhen(w: World, s: State, id: nat)
    requires id < |s.factors| && s.factors[id].disabled
    ensures (exists steps :: PassedSince(s, After(w, s, steps), id)) <==> SignInUnderWay(s, id)
  {
    if SignInUnderWay(s, id) {
      var k :| k in s.calls && IsAhead(s, s.calls[k], id);
      AfterOne(w, s, WriteVerify(k));
      assert After(w, s, [WriteVerify(k)]).passes[|s.passes|].factor == id;
      assert PassedSince(s, After(w, s, [WriteVerify(k)]), id);
    } else {
      forall steps ensures !PassedSince(s, After(w, s, steps), id) { RemovedRun(w, s, steps, id); }
    }
  }

  lemma AfterOne(w: World, s: State, step: Step)
    ensures After(w, s, [step]) == Next(w, s, step).state
  {
    assert [step][1..] == [];
  }

  lemma {:induction false} AfterJoined(w: World, s: State, a: seq<Step>, b: seq<Step>)
    ensures After(w, s, a + b) == After(w, After(w, s, a), b)
    decreases |a|
  {
    if a == [] {
      assert a + b == b;
    } else {
      assert (a + b)[0] == a[0] && (a + b)[1..] == a[1..] + b;
      AfterJoined(w, Next(w, s, a[0]).state, a[1..], b);
    }
  }

  lemma AfterTwo(w: World, s: State, a: Step, b: Step)
    ensures After(w, s, [a, b]) == Next(w, Next(w, s, a).state, b).state
  {
    AfterOne(w, s, a);
    AfterOne(w, Next(w, s, a).state, b);
    assert [a, b] == [a] + [b];
    AfterJoined(w, s, [a], [b]);
  }

  /** A first authenticator enrolled and confirmed with the code of time step `n`. */
  function Enrolment(w: World, admin: Person, secret: Secret, n: int): seq<Step> {
    [ReadEnrol(0, admin), WriteEnrol(0, secret)]
    + [ReadConfirm(0, 0, w.otp(secret, n), n * STEP_MS, Some(n)), WriteConfirm(0, [])]
  }

  lemma Enrolled(w: World, admin: Person, secret: Secret, n: int)
    ensures After(w, INITIAL, Enrolment(w, admin, secret, n)) ==
      State([Factor(admin, secret, true, Some(n), false)], [], map[], [Pass(0, n, w.otp(secret, n), n * STEP_MS)], [])
  {
    AfterTwo(w, INITIAL, ReadEnrol(0, admin), WriteEnrol(0, secret));
    var s := After(w, INITIAL, [ReadEnrol(0, admin), WriteEnrol(0, secret)]);
    assert s.factors == [Factor(admin, secret, false, None, false)] && s.calls == map[];
    var read, write := ReadConfirm(0, 0, w.otp(secret, n), n * STEP_MS, Some(n)), WriteConfirm(0, []);
    AfterTwo(w, s, read, write);
    assert Next(w, s, read).state.calls == map[0 := Confirming(0, n, w.otp(secret, n), n * STEP_MS)];
    AfterJoined(w, INITIAL, [ReadEnrol(0, admin), WriteEnrol(0, secret)], [read, write]);
  }

  /**
   * Someone enrols and starts to sign in with the next code; the factor is removed meanwhile, and the code still
   * passes.
   */
  function RemovedMeanwhile(w: World, admin: Person, secret: Secret, n: int): seq<Step> {
    [ReadVerify(0, 0, w.otp(secret, n + 1), (n + 1) * STEP_MS, Some(n + 1)), Reset(admin)]
  }

  lemma RemovalDoesNotStopASignIn(w: World, admin: Person, secret: Secret, n: int)
    ensures
      var removed := After(w, INITIAL, Enrolment(w, admin, secret, n) + RemovedMeanwhile(w, admin, secret, n));
      var t := After(w, removed, [WriteVerify(0)]);
      && |removed.factors| == 1 && removed.factors[0].disabled && SignInUnderWay(removed, 0)
      && t.passes == removed.passes + [Pass(0, n + 1, w.otp(secret, n + 1), (n + 1) * STEP_MS)]
  {
    Enrolled(w, admin, secret, n);
    var s := After(w, INITIAL, Enrolment(w, admin, secret, n));
    var read, reset := RemovedMeanwhile(w, admin, secret, n)[0], Reset(admin);
    AfterJoined(w, INITIAL, Enrolment(w, admin, secret, n), RemovedMeanwhile(w, admin, secret, n));
    AfterTwo(w, s, read, reset);
    var call := Moving(0, n + 1, w.otp(secret, n + 1), (n + 1) * STEP_MS);
    assert Next(w, s, read).state == s.(calls := map[0 := call]);
    var removed := After(w, s, [read, reset]);
    assert removed.calls == map[0 := call] && IsAhead(removed, call, 0);
    AfterOne(w, removed, WriteVerify(0));
  }
}
