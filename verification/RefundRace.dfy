/** A run in which a refund request is cancelled and sent to the executor all the same. */
module RefundRace {
  import opened Prelude
  import opened RefundRequests
  import opened RefundSafety

  /** A state between calls: one request, nothing in flight. */
  predicate Quiet(s: State, row: Row) { s.rows == [row] && s.calls == map[] }

  lemma {:induction false} AfterJoined(s: State, a: seq<Step>, b: seq<Step>)
    ensures After(s, a + b) == After(After(s, a), b)
    decreases |a|
  {
    if a == [] {
      assert a + b == b;
    } else {
      assert (a + b)[0] == a[0] && (a + b)[1..] == a[1..] + b;
      AfterJoined(Next(s, a[0]).state, a[1..], b);
    }
  }

  lemma Requested(s: State, step: Step, target: Target)
    requires s.rows == [] && s.calls == map[]
    requires step.Request? && step.target == Some(target) && target.isSubscription && target.refundable
      && target.remaining > 0
    requires step.reasonLength >= 10 && step.amountMinor.None? && step.stored == ToJson(PayloadOf(step))
    ensures
      var t := Next(s, step).state;
      && |t.rows| == 1 && Quiet(t, t.rows[0]) && t.staff == s.staff
      && t.rows[0].requestedBy == step.who && t.rows[0].status == Pending && step.at < t.rows[0].expiresAt
      && HashPayload(t.rows[0].payload) == t.rows[0].payloadHash
  {
  }

  function Approval(row: Row, who: Person, at: Time): seq<Step> {
    [StartApprove(0, 0, who, row.payloadHash, at), ReadRequester(0), Commit(0)]
  }

  lemma ApprovedByAnother(s: State, row: Row, who: Person, at: Time)
    requires Quiet(s, row) && row.status == Pending && row.requestedBy != who && at < row.expiresAt
    requires HashPayload(row.payload) == row.payloadHash
    requires row.requestedBy in s.staff && !s.staff[row.requestedBy].disabled
    ensures
      var t := After(s, Approval(row, who, at));
      Quiet(t, row.(status := Approved, approvedBy := Some(who), decidedAt := Some(at))) && t.staff == s.staff
  {
    var start, read, commit := StartApprove(0, 0, who, row.payloadHash, at), ReadRequester(0), Commit(0);
    RunOfThree(s, start, read, commit);
    var s1 := Next(s, start).state;
    assert s1 == s.(calls := map[0 := Approving(0, row, who, at)]);
    var s2 := Next(s1, read).state;
    assert s2 == s.(calls := map[0 := ApproveReady(0, row, who, at)]);
    assert Next(s2, commit).state.calls == map[];
  }

  /** An execution has read the request when the requester cancels it. */
  function CancelledMeanwhile(row: Row, who: Person, at: Time): seq<Step> {
    [StartExecute(0, 0, who, None, true, at), StartCancel(1, 0, row.requestedBy, at), Commit(1)]
  }

  lemma ExecutionIsLeft(s: State, row: Row, who: Person, at: Time)
    requires Quiet(s, row) && row.status == Approved && at < row.expiresAt
    ensures
      var t := After(s, CancelledMeanwhile(row, who, at));
      t == s.(rows := [row.(status := Status.Cancelled)], calls := map[0 := Loaded(0, row, who, at, None)],
              log := s.log + [CancelledEvent(0, row.requestedBy)])
  {
    var execute, cancel := StartExecute(0, 0, who, None, true, at), StartCancel(1, 0, row.requestedBy, at);
    var commit := Commit(1);
    RunOfThree(s, execute, cancel, commit);
    var s1 := Next(s, execute).state;
    assert s1 == s.(calls := map[0 := Loaded(0, row, who, at, None)]);
    var s2 := Next(s1, cancel).state;
    assert s2 == s.(calls := map[0 := Loaded(0, row, who, at, None), 1 := CancelReady(0, row, row.requestedBy, at)]);
    assert Next(s2, commit).state.calls == map[0 := Loaded(0, row, who, at, None)];
  }

  lemma LeftExecutionSends(s: State, row: Row, who: Person, at: Time)
    requires s.calls == map[0 := Loaded(0, row, who, at, None)] && HashPayload(row.payload) == row.payloadHash
    requires ActorAllowed(s.staff, who, None)
    ensures After(s, [Revalidate(0), Send(0, true)]).rows == s.rows
    ensures After(s, [Revalidate(0), Send(0, true)]).log == s.log + [SentEvent(0, who, row.payload)]
  {
    AdmittedIsCleared(s, 0);
    assert [Revalidate(0), Send(0, true)][1..] == [Send(0, true)] && [Send(0, true)][1..] == [];
    assert After(Next(s, Revalidate(0)).state, [Send(0, true)]) ==
      Next(Next(s, Revalidate(0)).state, Send(0, true)).state;
  }

  /**
   * From the empty table: someone asks for a refund, another approves it, an execution reads it, the first one cancels
   * it, and the execution, which looks at the account and the hash again but not at the status, calls the executor.
   */
  lemma CancelledIsSent(staff: map<Person, Staff>, ask: Step, target: Target, approver: Person)
    requires ask.Request? && ask.target == Some(target) && target.isSubscription && target.refundable
      && target.remaining > 0
    requires ask.reasonLength >= 10 && ask.amountMinor.None? && ask.stored == ToJson(PayloadOf(ask))
    requires ask.who in staff && !staff[ask.who].disabled && approver != ask.who && ActorAllowed(staff, approver, None)
    ensures
      var row := Next(Initial(staff), ask).state.rows[0];
      var approved := row.(status := Approved, approvedBy := Some(approver), decidedAt := Some(ask.at));
      var closed := After(Initial(staff),
        [ask] + Approval(row, approver, ask.at) + CancelledMeanwhile(approved, approver, ask.at));
      var t := After(closed, [Revalidate(0), Send(0, true)]);
      && |closed.rows| == 1 && closed.rows[0].status == Status.Cancelled && Underway(closed, 0)
      && t.rows == closed.rows && t.log == closed.log + [SentEvent(0, approver, ask.stored)]
  {
    var first := Next(Initial(staff), ask).state;
    Requested(Initial(staff), ask, target);
    var row := first.rows[0];
    ApprovedByAnother(first, row, approver, ask.at);
    var second := After(first, Approval(row, approver, ask.at));
    var approved := second.rows[0];
    ExecutionIsLeft(second, approved, approver, ask.at);
    var closed := After(second, CancelledMeanwhile(approved, approver, ask.at));
    RunOfThree(Initial(staff), ask, ask, ask);
    AfterJoined(Initial(staff), [ask], Approval(row, approver, ask.at));
    AfterJoined(Initial(staff), [ask] + Approval(row, approver, ask.at),
      CancelledMeanwhile(approved, approver, ask.at));
    LeftExecutionSends(closed, approved, approver, ask.at);
    assert 0 in closed.calls && CanSend(closed.staff, closed.calls[0]);
  }
}
