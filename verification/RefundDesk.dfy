/** The refund operations as the program runs them, on rows that change in place (src/admin/refundRequests.ts). */
module RefundDesk {
  import opened Prelude
  import opened CanonicalJson
  import opened RefundRequests

  // What the contracts of whole operations are about, in terms of the rows alone.

  /** The request is there, undecided or approved, and its time is over. */
  predicate IsLate(rows: seq<Row>, id: nat, at: Time) {
    id < |rows| && rows[id].status in {Pending, Approved} && rows[id].expiresAt <= at
  }

  predicate StandsAs(rows: seq<Row>, id: nat, status: Status, at: Time) {
    id < |rows| && rows[id].status == status && (status in {Pending, Approved} ==> at < rows[id].expiresAt)
  }

  /** What a call leaves that does not go through: the rows as they were, but one past its time is closed as expired. */
  predicate LeftAlone(before: seq<Row>, after: seq<Row>, id: nat, at: Time) {
    after == if IsLate(before, id, at) then before[id := before[id].(status := Status.Expired)] else before
  }

  /** The payments a request is allowed for. */
  predicate IsRefundable(payment: Target, amount: Option<Text>) {
    && payment.isSubscription && payment.refundable && payment.remaining > 0
    && (amount.Some? ==>
          exists n: nat :: 0 < n < 10_000_000_000_000_000 && n <= payment.remaining && Digits(n) == amount.value)
  }

  lemma StatedAmounts(payment: Target, amount: Text)
    ensures IsRefundable(payment, Some(amount)) <==>
      && payment.isSubscription && payment.refundable && payment.remaining > 0
      && AmountShape(amount) && AmountValue(amount) <= payment.remaining
  {
    if AmountShape(amount) { AmountIsNumber(amount); }
    forall n: nat | 0 < n < 10_000_000_000_000_000 && Digits(n) == amount
      ensures AmountShape(amount) && AmountValue(amount) == n
    {
      NumberIsAmount(n);
    }
  }

  predicate IsUndecided(rows: seq<Row>, action: Action, targetId: Text) {
    exists r :: r in rows && r.action == action && r.targetId == targetId && r.status in {Pending, Approved}
  }

  lemma NoProblemExactlyWhen(rows: seq<Row>, step: Step)
    requires step.Request?
    ensures RequestProblem(rows, step).None? <==>
      && step.reasonLength >= 10 && step.target.Some? && IsRefundable(step.target.value, step.amountMinor)
      && !IsUndecided(rows, step.action, step.targetId)
  {
    if step.target.Some? && step.amountMinor.Some? { StatedAmounts(step.target.value, step.amountMinor.value); }
  }

  predicate MayExecute(staff: map<Person, Staff>, who: Person, roleVersion: Option<nat>) {
    who in staff && !staff[who].disabled && staff[who].mayExecute && roleVersion in {None, Some(staff[who].roleVersion)}
  }

  class Desk {
    var rows: seq<Row>
    var calls: map<nat, Call>
    var log: seq<Event>
    var staff: map<Person, Staff>

    ghost function Now(): State
      reads this
    {
      State(rows, calls, log, staff)
    }

    /** The checks of a new request, in order. */
    method CheckRequest(step: Step) returns (problem: Option<RefundError>)
      requires step.Request?
      ensures problem == RequestProblem(rows, step)
    {
      if step.reasonLength < 10 { return Some(ReasonTooShort); }
      if step.target.None? { return Some(NotFound); }
      var payment := step.target.value;
      if !payment.isSubscription { return Some(NotAllowed); }
      if !payment.refundable { return Some(NotRefundable); }
      if step.amountMinor.Some? {
        if !AmountShape(step.amountMinor.value) { return Some(BadAmount); }
        if AmountValue(step.amountMinor.value) > payment.remaining { return Some(RefundLimit); }
      }
      if payment.remaining <= 0 { return Some(NothingToRefund); }
      if HasOpenRequest(rows, step.action, step.targetId) { return Some(RequestOpen); }
      return None;
    }

    /**
     * A request is made exactly for an amount still refundable on a subscription payment that has no undecided or
     * approved request. It is written with the hash of what is asked for, to be decided within two days.
     */
    method RequestRefund(step: Step) returns (reply: Reply)
      requires step.Request?
      modifies this`rows, this`log
      ensures Turn(Now(), reply) == Next(old(Now()), step)
      ensures reply.Done? <==>
        && step.reasonLength >= 10 && step.target.Some? && IsRefundable(step.target.value, step.amountMinor)
        && !IsUndecided(old(rows), step.action, step.targetId)
      ensures reply.Done? ==>
        var asked := Payload(step.action, step.targetId, step.amountMinor, step.target.value.currency,
                             step.action == SubscriptionChargeRefund && step.revoke, step.target.value.businessId);
        var hash := Print(ToJson(asked));
        && log == old(log) + [RequestedEvent(|old(rows)|, step.who, hash)]
        && rows == old(rows) + [Row(step.action, step.targetId, step.who, step.stored, hash, step.at,
                                    step.at + 48 * 60 * 60 * 1000, Pending, None, None, None, None)]
      ensures !reply.Done? ==> reply.Refused? && rows == old(rows) && log == old(log)
    {
      var problem := CheckRequest(step);
      NoProblemExactlyWhen(rows, step);
      if problem.Some? { return Refused(problem.value); }
      var hash := HashPayload(ToJson(PayloadOf(step)));
      log := log + [RequestedEvent(|rows|, step.who, hash)];
      rows := rows + [Row(step.action, step.targetId, step.who, step.stored, hash, step.at, step.at + REQUEST_TTL_MS,
        Pending, None, None, None, None)];
      return Done;
    }

    // ---- the segments between two database calls

    method StartApprove(c: nat, id: nat, who: Person, hash: Text, at: Time) returns (reply: Reply)
      requires c !in calls
      modifies this`calls
      ensures Turn(Now(), reply) == Next(old(Now()), Step.StartApprove(c, id, who, hash, at))
    {
      var loaded := LoadOpen(rows, id, at);
      if loaded.Err? { reply := FailLoad(c, id, loaded.error); return; }
      var row := loaded.value;
      if row.status != Pending { return Refused(NotPending); }
      if row.requestedBy == who { return Refused(SelfApproval); }
      if hash != row.payloadHash || HashPayload(row.payload) != row.payloadHash { return Refused(PayloadChanged); }
      calls := calls[c := Approving(id, row, who, at)];
      return Continues;
    }

    method StartReject(c: nat, id: nat, who: Person, at: Time) returns (reply: Reply)
      requires c !in calls
      modifies this`calls
      ensures Turn(Now(), reply) == Next(old(Now()), Step.StartReject(c, id, who, at))
    {
      var loaded := LoadOpen(rows, id, at);
      if loaded.Err? { reply := FailLoad(c, id, loaded.error); return; }
      var row := loaded.value;
      if row.status != Pending { return Refused(NotPending); }
      if row.requestedBy == who { return Refused(SelfApproval); }
      calls := calls[c := RejectReady(id, row, who, at)];
      return Continues;
    }

    method StartCancel(c: nat, id: nat, who: Person, at: Time) returns (reply: Reply)
      requires c !in calls
      modifies this`calls
      ensures Turn(Now(), reply) == Next(old(Now()), Step.StartCancel(c, id, who, at))
    {
      var loaded := LoadOpen(rows, id, at);
      if loaded.Err? { reply := FailLoad(c, id, loaded.error); return; }
      if loaded.value.requestedBy != who { return Refused(NotYours); }
      calls := calls[c := CancelReady(id, loaded.value, who, at)];
      return Continues;
    }

    method StartExecute(c: nat, id: nat, who: Person, roleVersion: Option<nat>, enabled: bool, at: Time)
      returns (reply: Reply)
      requires c !in calls
      modifies this`calls
      ensures Turn(Now(), reply) == Next(old(Now()), Step.StartExecute(c, id, who, roleVersion, enabled, at))
    {
      if !enabled { return Refused(ExecutionDisabled); }
      var loaded := LoadOpen(rows, id, at);
      if loaded.Err? { reply := FailLoad(c, id, loaded.error); return; }
      if loaded.value.status != Approved { return Refused(NotApproved); }
      calls := calls[c := Loaded(id, loaded.value, who, at, roleVersion)];
      return Continues;
    }

    method FailLoad(c: nat, id: nat, error: RefundError) returns (reply: Reply)
      modifies this`calls
      ensures Turn(Now(), reply) == LoadFailed(old(Now()), c, id, error)
    {
      if error != RequestExpired { return Refused(error); }
      calls := calls[c := Expiring(id)];
      return Continues;
    }

    method ReadRequester(c: nat) returns (reply: Reply)
      requires c in calls && calls[c].Approving?
      modifies this`calls
      ensures Turn(Now(), reply) == Next(old(Now()), Step.ReadRequester(c))
    {
      var call := calls[c];
      var requester := call.row.requestedBy;
      if requester !in staff || staff[requester].disabled {
        calls := calls - {c};
        return Refused(RequesterInactive);
      }
      calls := calls[c := ApproveReady(call.id, call.row, call.who, call.at)];
      return Continues;
    }

    method Revalidate(c: nat) returns (reply: Reply)
      requires c in calls && calls[c].Loaded?
      modifies this`calls
      ensures Turn(Now(), reply) == Next(old(Now()), Step.Revalidate(c))
    {
      var call := calls[c];
      if !ActorAllowed(staff, call.who, call.roleVersion) {
        calls := calls - {c};
        return Refused(ActorNotAllowed);
      }
      if HashPayload(call.row.payload) != call.row.payloadHash {
        calls := calls - {c};
        return Refused(PayloadChanged);
      }
      calls := calls[c := Cleared(call.id, call.row, call.who, call.at)];
      return Continues;
    }

    /** The guarded write of a decision together with its audit row. */
    method Commit(c: nat) returns (reply: Reply)
      requires c in calls && calls[c].id < |rows|
      requires calls[c].Expiring? || calls[c].ApproveReady? || calls[c].RejectReady? || calls[c].CancelReady?
      modifies this`rows, this`calls, this`log
      ensures Turn(Now(), reply) == Next(old(Now()), Step.Commit(c))
    {
      var call := calls[c];
      var row := rows[call.id];
      calls := calls - {c};
      if call.Expiring? {
        if IsOpen(row.status) { rows := rows[call.id := row.(status := Status.Expired)]; }
        return Refused(RequestExpired);
      }
      if call.CancelReady? {
        if !IsOpen(row.status) { return Refused(NotOpen); }
        rows := rows[call.id := row.(status := Status.Cancelled)];
        log := log + [CancelledEvent(call.id, call.who)];
        return Done;
      }
      if row.status != Pending { return Refused(NotPending); }
      if call.ApproveReady? {
        rows := rows[call.id := row.(status := Approved, approvedBy := Some(call.who), decidedAt := Some(call.at))];
        log := log + [ApprovedEvent(call.id, call.who, call.row.payloadHash, call.at)];
      } else {
        rows := rows[call.id := row.(status := Rejected, rejectedBy := Some(call.who), decidedAt := Some(call.at))];
        log := log + [RejectedEvent(call.id, call.who)];
      }
      return Done;
    }

    method Send(c: nat, accepted: bool) returns (reply: Reply)
      requires c in calls && calls[c].Cleared?
      modifies this`calls, this`log
      ensures Turn(Now(), reply) == Next(old(Now()), Step.Send(c, accepted))
    {
      var call := calls[c];
      log := log + [SentEvent(call.id, call.who, call.row.payload)];
      if !accepted {
        calls := calls - {c};
        return Refused(ProviderRefused);
      }
      calls := calls[c := Sent(call.id, call.row, call.who, call.at)];
      return Continues;
    }

    method Record(c: nat) returns (reply: Reply)
      requires c in calls && calls[c].Sent? && calls[c].id < |rows|
      modifies this`rows, this`calls, this`log
      ensures Turn(Now(), reply) == Next(old(Now()), Step.Record(c))
    {
      var call := calls[c];
      var row := rows[call.id];
      calls := calls - {c};
      if row.status == Approved {
        rows := rows[call.id := row.(status := Status.Executed, executedAt := Some(call.at))];
        log := log + [ExecutedEvent(call.id, call.who)];
      }
      return Done;
    }

    // ---- whole operations, when nothing else runs in between

    /**
     * Approval succeeds exactly for a live pending request of someone else, still active, whose hash is the one
     * reviewed.
     */
    method ApproveRefund(c: nat, id: nat, who: Person, hash: Text, at: Time) returns (reply: Reply)
      requires c !in calls
      modifies this`rows, this`calls, this`log
      ensures calls == old(calls)
      ensures reply.Done? <==>
        && StandsAs(old(rows), id, Pending, at) && old(rows)[id].requestedBy != who
        && hash == old(rows)[id].payloadHash == Print(old(rows)[id].payload)
        && old(rows)[id].requestedBy in staff && !staff[old(rows)[id].requestedBy].disabled
      ensures reply.Done? ==>
        && rows == old(rows)[id := old(rows)[id].(status := Approved, approvedBy := Some(who), decidedAt := Some(at))]
        && log == old(log) + [ApprovedEvent(id, who, hash, at)]
      ensures !reply.Done? ==> reply.Refused? && log == old(log) && LeftAlone(old(rows), rows, id, at)
      ensures reply == Refused(RequestExpired) <==> IsLate(old(rows), id, at)
      ensures reply == Refused(SelfApproval) <==>
        StandsAs(old(rows), id, Pending, at) && old(rows)[id].requestedBy == who
    {
      reply := StartApprove(c, id, who, hash, at);
      if reply.Continues? && calls[c].Approving? { reply := ReadRequester(c); }
      if reply.Continues? { reply := Commit(c); }
      assert calls == old(calls);
    }

    /** Rejection succeeds exactly for a live pending request of someone else. */
    method RejectRefund(c: nat, id: nat, who: Person, at: Time) returns (reply: Reply)
      requires c !in calls
      modifies this`rows, this`calls, this`log
      ensures calls == old(calls)
      ensures reply.Done? <==> StandsAs(old(rows), id, Pending, at) && old(rows)[id].requestedBy != who
      ensures reply.Done? ==>
        && rows == old(rows)[id := old(rows)[id].(status := Rejected, rejectedBy := Some(who), decidedAt := Some(at))]
        && log == old(log) + [RejectedEvent(id, who)]
      ensures !reply.Done? ==> reply.Refused? && log == old(log) && LeftAlone(old(rows), rows, id, at)
      ensures reply == Refused(RequestExpired) <==> IsLate(old(rows), id, at)
    {
      reply := StartReject(c, id, who, at);
      if reply.Continues? { reply := Commit(c); }
      assert calls == old(calls);
    }

    /** Cancellation succeeds exactly for a live request of one's own, pending or approved. */
    method CancelRefund(c: nat, id: nat, who: Person, at: Time) returns (reply: Reply)
      requires c !in calls
      modifies this`rows, this`calls, this`log
      ensures calls == old(calls)
      ensures reply.Done? <==>
        && (StandsAs(old(rows), id, Pending, at) || StandsAs(old(rows), id, Approved, at))
        && old(rows)[id].requestedBy == who
      ensures reply.Done? ==>
        && rows == old(rows)[id := old(rows)[id].(status := Status.Cancelled)]
        && log == old(log) + [CancelledEvent(id, who)]
      ensures !reply.Done? ==> reply.Refused? && log == old(log) && LeftAlone(old(rows), rows, id, at)
      ensures reply == Refused(RequestExpired) <==> IsLate(old(rows), id, at)
    {
      reply := StartCancel(c, id, who, at);
      if reply.Continues? { reply := Commit(c); }
      assert calls == old(calls);
    }

    /** From the loaded row on: the actor and the hash are checked, the executor is called, the outcome recorded. */
    method FinishExecute(c: nat, accepted: bool) returns (reply: Reply)
      requires c in calls && calls[c].Loaded? && calls[c].id < |rows| && rows[calls[c].id].status == Approved
      modifies this`rows, this`calls, this`log
      ensures calls == old(calls) - {c}
      ensures var call := old(calls)[c];
        var due := MayExecute(staff, call.who, call.roleVersion) && Print(call.row.payload) == call.row.payloadHash;
        && (reply.Done? <==> due && accepted)
        && (due && accepted ==>
              rows == old(rows)[call.id := old(rows)[call.id].(status := Status.Executed, executedAt := Some(call.at))]
              && log == old(log)
                        + [SentEvent(call.id, call.who, call.row.payload), ExecutedEvent(call.id, call.who)])
        && (due && !accepted ==>
              rows == old(rows) && log == old(log) + [SentEvent(call.id, call.who, call.row.payload)])
        && (!due ==> rows == old(rows) && log == old(log))
      ensures !reply.Done? ==> reply.Refused? && reply != Refused(RequestExpired)
    {
      reply := Revalidate(c);
      if reply.Continues? { reply := Send(c, accepted); }
      if reply.Continues? { reply := Record(c); }
    }

    /**
     * Execution sends exactly when it is switched on, the request is approved and live, the actor is allowed and the
     * payload still has its hash.
     */
    method ExecuteRefund(
        c: nat, id: nat, who: Person, roleVersion: Option<nat>, enabled: bool, accepted: bool, at: Time)
      returns (reply: Reply)
      requires c !in calls
      modifies this`rows, this`calls, this`log
      ensures calls == old(calls)
      ensures var due := enabled && StandsAs(old(rows), id, Approved, at) && MayExecute(staff, who, roleVersion)
                         && Print(old(rows)[id].payload) == old(rows)[id].payloadHash;
        && (reply.Done? <==> due && accepted)
        && (due && accepted ==>
              rows == old(rows)[id := old(rows)[id].(status := Status.Executed, executedAt := Some(at))]
              && log == old(log) + [SentEvent(id, who, old(rows)[id].payload), ExecutedEvent(id, who)])
        && (due && !accepted ==> rows == old(rows) && log == old(log) + [SentEvent(id, who, old(rows)[id].payload)])
        && (!due && enabled ==> log == old(log) && LeftAlone(old(rows), rows, id, at))
        && (!enabled ==> reply == Refused(ExecutionDisabled) && rows == old(rows) && log == old(log))
      ensures reply == Refused(RequestExpired) <==> enabled && IsLate(old(rows), id, at)
    {
      reply := StartExecute(c, id, who, roleVersion, enabled, at);
      if reply.Continues? {
        if calls[c].Expiring? { reply := Commit(c); } else { reply := FinishExecute(c, accepted); }
      }
      assert calls == old(calls);
    }
  }
}
