/** What holds of every interleaving of refund requests, decisions, executions and expiries. */
module RefundSafety {
  import opened Prelude
  import opened CanonicalJson
  import CanonicalForm
  import opened RefundRequests

  // ---------------------------------------------------------------- one row, forward only

  predicate SameFrozen(r: Row, t: Row) {
    && r.action == t.action && r.targetId == t.targetId && r.requestedBy == t.requestedBy
    && r.payloadHash == t.payloadHash && r.createdAt == t.createdAt && r.expiresAt == t.expiresAt
  }

  /** The statuses a request can still come to. */
  predicate Reaches(a: Status, b: Status) {
    a == b || a == Pending || (a == Approved && b in {Status.Executed, Status.Cancelled, Status.Expired})
  }

  /**
   * A later version of a row: frozen parts kept, decisions never rewritten, closed rows unchanged (the payload column
   * aside).
   */
  predicate Forward(r: Row, t: Row) {
    && SameFrozen(r, t)
    && Reaches(r.status, t.status)
    && (r.approvedBy.Some? ==> t.approvedBy == r.approvedBy && t.decidedAt == r.decidedAt)
    && (!IsOpen(r.status) ==> t == r.(payload := t.payload))
  }

  predicate RowOk(r: Row) {
    && r.expiresAt == r.createdAt + REQUEST_TTL_MS
    && (r.status == Pending ==> r.approvedBy == None && r.rejectedBy == None && r.decidedAt == None)
    && (r.status in {Approved, Status.Executed} ==> r.approvedBy.Some?)
    && (r.status == Rejected ==> r.rejectedBy.Some?)
    && (r.approvedBy.Some? ==>
          r.approvedBy.value != r.requestedBy && r.decidedAt.Some? && r.decidedAt.value < r.expiresAt)
    && (r.rejectedBy.Some? ==>
          r.rejectedBy.value != r.requestedBy && r.decidedAt.Some? && r.decidedAt.value < r.expiresAt)
    && (r.executedAt.Some? <==> r.status == Status.Executed)
    && (r.executedAt.Some? ==> r.executedAt.value < r.expiresAt)
    && (r.status == Approved ==> r.rejectedBy == None)
  }

  /** What an operation in flight knows about the row it read. */
  predicate CallOk(rows: seq<Row>, call: Call) {
    && call.id < |rows|
    && (call.Approving? || call.ApproveReady? || call.RejectReady? ==>
          SameFrozen(call.row, rows[call.id]) && call.who != rows[call.id].requestedBy
            && call.at < rows[call.id].expiresAt)
    && (call.CancelReady? ==> call.who == rows[call.id].requestedBy)
    && (call.Loaded? || call.Cleared? || call.Sent? ==>
          SameFrozen(call.row, rows[call.id]) && call.row.approvedBy.Some?
            && call.row.approvedBy == rows[call.id].approvedBy
          && call.at < rows[call.id].expiresAt)
    && (call.Cleared? || call.Sent? ==> HashPayload(call.row.payload) == call.row.payloadHash)
  }

  /** An approval of exactly this hash, by someone other than the requester, among the first n events. */
  predicate ApprovedBefore(s: State, n: nat, id: nat, hash: Text)
    requires n <= |s.log|
  {
    id < |s.rows| && exists j :: 0 <= j < n && IsApprovalOf(s.log[j], id, hash, s.rows[id].requestedBy)
  }

  predicate IsApprovalOf(e: Event, id: nat, hash: Text, requester: Person) {
    e.ApprovedEvent? && e.id == id && e.hash == hash && e.who != requester
  }

  predicate EventOk(s: State, n: nat)
    requires n < |s.log|
  {
    match s.log[n]
    case RequestedEvent(id, who, hash) =>
      id < |s.rows| && s.rows[id].requestedBy == who && s.rows[id].payloadHash == hash
    case ApprovedEvent(id, who, hash, at) =>
      id < |s.rows| && s.rows[id].approvedBy == Some(who) && s.rows[id].payloadHash == hash
        && s.rows[id].decidedAt == Some(at)
    case SentEvent(id, _, payload) => ApprovedBefore(s, n, id, HashPayload(payload))
    case ExecutedEvent(id, _) => id < |s.rows| && s.rows[id].status == Status.Executed
    case _ => true
  }

  predicate Inv(s: State) {
    && (forall r :: r in s.rows ==> RowOk(r))
    && (forall c :: c in s.calls ==> CallOk(s.rows, s.calls[c]))
    && (forall n :: 0 <= n < |s.log| ==> EventOk(s, n))
    && (forall id :: 0 <= id < |s.rows| && s.rows[id].approvedBy.Some? ==>
          ApprovedBefore(s, |s.log|, id, s.rows[id].payloadHash))
    && (forall i, j :: 0 <= i < j < |s.log| && s.log[i].ExecutedEvent? && s.log[j].ExecutedEvent? ==>
          s.log[i].id != s.log[j].id)
  }

  // ---------------------------------------------------------------- one step

  /** Every step only moves rows forward and only adds to the log. */
  predicate Extends(s: State, t: State) {
    && |s.rows| <= |t.rows| && s.log <= t.log
    && forall id :: 0 <= id < |s.rows| ==> Forward(s.rows[id], t.rows[id])
  }

  /** One row replaced by a later version of itself, one event added or none. */
  predicate Replaces(s: State, t: State, id: nat) {
    && id < |s.rows| && |t.rows| == |s.rows|
    && t.rows == s.rows[id := t.rows[id]]
    && Forward(s.rows[id], t.rows[id]) && RowOk(t.rows[id])
    && s.log <= t.log && |t.log| <= |s.log| + 1
  }

  lemma {:induction false} CommitReplaces(s: State, c: nat)
    requires Inv(s) && c in s.calls
    ensures Replaces(s, CommitCall(s, c).state, s.calls[c].id)
  {
    assert CallOk(s.rows, s.calls[c]);
    var id := s.calls[c].id;
    assert s.rows[id] in s.rows;
    assert RowOk(s.rows[id]);
    assert s.rows == s.rows[id := s.rows[id]];
  }

  lemma {:induction false} RecordReplaces(s: State, c: nat)
    requires Inv(s) && c in s.calls && s.calls[c].Sent? && s.calls[c].id < |s.rows|
    ensures Replaces(s, RecordExecuted(s, c).state, s.calls[c].id)
  {
    assert CallOk(s.rows, s.calls[c]);
    var id := s.calls[c].id;
    assert s.rows[id] in s.rows;
    assert RowOk(s.rows[id]);
    assert s.rows == s.rows[id := s.rows[id]];
  }

  lemma {:induction false} ReplacingExtends(s: State, t: State, id: nat)
    requires Replaces(s, t, id)
    requires forall r :: r in s.rows ==> RowOk(r)
    ensures Extends(s, t) && forall r :: r in t.rows ==> RowOk(r)
  {
  }

  /** Which rows a step touches. */
  lemma {:induction false} StepExtends(s: State, step: Step)
    requires Inv(s)
    ensures Extends(s, Next(s, step).state)
    ensures forall r :: r in Next(s, step).state.rows ==> RowOk(r)
  {
    var t := Next(s, step).state;
    match step
    case Commit(c) =>
      if Due(s, step) {
        CommitReplaces(s, c);
        ReplacingExtends(s, t, s.calls[c].id);
      }
    case Record(c) =>
      if Due(s, step) {
        RecordReplaces(s, c);
        ReplacingExtends(s, t, s.calls[c].id);
      }
    case EditPayload(id, _) =>
      if id < |s.rows| { assert s.rows[id] in s.rows; ReplacingExtends(s, t, id); }
    case Request(_, _, _, _, _, _, _, _, _) => RequestExtends(s, step);
    case _ => OtherStepsKeepRows(s, step);
  }

  lemma OtherStepsKeepRows(s: State, step: Step)
    requires !step.Commit? && !step.Record? && !step.EditPayload? && !step.Request?
    ensures Next(s, step).state.rows == s.rows && s.log <= Next(s, step).state.log
  {
  }

  lemma {:induction false} RequestExtends(s: State, step: Step)
    requires Inv(s) && step.Request?
    ensures Extends(s, Next(s, step).state)
    ensures forall r :: r in Next(s, step).state.rows ==> RowOk(r)
  {
  }

  /** Later rows keep what an operation in flight knows. */
  lemma {:induction false} ForwardKeepsCall(s: State, t: State, call: Call)
    requires Extends(s, t) && CallOk(s.rows, call)
    ensures CallOk(t.rows, call)
  {
    assert Forward(s.rows[call.id], t.rows[call.id]);
  }

  predicate Starts(step: Step) {
    step.StartApprove? || step.StartReject? || step.StartCancel? || step.StartExecute?
  }

  /** A turn that changes no row, and no call but perhaps one that suits the rows. */
  predicate OnlyCalls(s: State, t: State, c: nat) {
    && t.rows == s.rows && t.log == s.log
    && (t.calls == s.calls || (c in t.calls && t.calls == s.calls[c := t.calls[c]] && CallOk(s.rows, t.calls[c])))
  }

  lemma LoadedRowOk(s: State, id: nat)
    requires Inv(s) && id < |s.rows|
    ensures RowOk(s.rows[id])
  {
    assert s.rows[id] in s.rows;
  }

  lemma ApproveStarts(s: State, c: nat, id: nat, who: Person, hash: Text, at: Time)
    requires Inv(s)
    ensures OnlyCalls(s, BeginApprove(s, c, id, who, hash, at).state, c)
  {
    if id < |s.rows| { LoadedRowOk(s, id); }
  }

  lemma RejectStarts(s: State, c: nat, id: nat, who: Person, at: Time)
    requires Inv(s)
    ensures OnlyCalls(s, BeginReject(s, c, id, who, at).state, c)
  {
    if id < |s.rows| { LoadedRowOk(s, id); }
  }

  lemma CancelStarts(s: State, c: nat, id: nat, who: Person, at: Time)
    requires Inv(s)
    ensures OnlyCalls(s, BeginCancel(s, c, id, who, at).state, c)
  {
    if id < |s.rows| { LoadedRowOk(s, id); }
  }

  lemma ExecuteStarts(s: State, c: nat, id: nat, who: Person, roleVersion: Option<nat>, enabled: bool, at: Time)
    requires Inv(s)
    ensures OnlyCalls(s, BeginExecute(s, c, id, who, roleVersion, enabled, at).state, c)
  {
    if id < |s.rows| { LoadedRowOk(s, id); }
  }

  lemma {:induction false} StartedCallOk(s: State, step: Step)
    requires Inv(s) && Due(s, step) && Starts(step)
    ensures OnlyCalls(s, Next(s, step).state, step.c)
  {
    match step
    case StartApprove(c, id, who, hash, at) => ApproveStarts(s, c, id, who, hash, at);
    case StartReject(c, id, who, at) => RejectStarts(s, c, id, who, at);
    case StartCancel(c, id, who, at) => CancelStarts(s, c, id, who, at);
    case StartExecute(c, id, who, roleVersion, enabled, at) => ExecuteStarts(s, c, id, who, roleVersion, enabled, at);
  }

  lemma {:induction false} ContinuedCallOk(s: State, step: Step, c: nat)
    requires Inv(s) && !Starts(step) && c in Next(s, step).state.calls
    ensures CallOk(s.rows, Next(s, step).state.calls[c])
  {
    if c in s.calls { assert CallOk(s.rows, s.calls[c]); }
  }

  lemma {:induction false} StepKeepsCalls(s: State, step: Step)
    requires Inv(s)
    ensures var t := Next(s, step).state; forall c :: c in t.calls ==> CallOk(t.rows, t.calls[c])
  {
    var t := Next(s, step).state;
    StepExtends(s, step);
    forall c | c in t.calls ensures CallOk(t.rows, t.calls[c]) {
      if !Starts(step) { ContinuedCallOk(s, step, c); }
      else if Due(s, step) { StartedCallOk(s, step); }
      ForwardKeepsCall(s, t, t.calls[c]);
    }
  }

  // ---------------------------------------------------------------- the log

  lemma {:induction false} ExtendsKeepsApproval(s: State, t: State, n: nat, id: nat, hash: Text)
    requires Extends(s, t) && n <= |s.log| && ApprovedBefore(s, n, id, hash)
    ensures ApprovedBefore(t, n, id, hash)
  {
    var j :| 0 <= j < n && IsApprovalOf(s.log[j], id, hash, s.rows[id].requestedBy);
    assert Forward(s.rows[id], t.rows[id]);
    assert t.log[j] == s.log[j];
    assert IsApprovalOf(t.log[j], id, hash, t.rows[id].requestedBy);
  }

  lemma {:induction false} ExtendsKeepsEvents(s: State, t: State, n: nat)
    requires Extends(s, t) && n < |s.log| && EventOk(s, n)
    ensures EventOk(t, n)
  {
    var e := s.log[n];
    assert t.log[n] == e;
    if e.SentEvent? { ExtendsKeepsApproval(s, t, n, e.id, HashPayload(e.payload)); }
    else if !e.RejectedEvent? && !e.CancelledEvent? { assert Forward(s.rows[e.id], t.rows[e.id]); }
  }

  lemma {:induction false} SentEventOk(s: State, c: nat, accepted: bool)
    requires Inv(s) && c in s.calls && s.calls[c].Cleared?
    ensures var t := CallExecutor(s, c, accepted).state; |t.log| == |s.log| + 1 && EventOk(t, |s.log|)
  {
    var t, call := CallExecutor(s, c, accepted).state, s.calls[c];
    assert CallOk(s.rows, call);
    assert Extends(s, t);
    ExtendsKeepsApproval(s, t, |s.log|, call.id, s.rows[call.id].payloadHash);
  }

  lemma {:induction false} CommittedEventOk(s: State, c: nat)
    requires Inv(s) && c in s.calls && s.calls[c].id < |s.rows| && |CommitCall(s, c).state.log| > |s.log|
    ensures var t := CommitCall(s, c).state; |t.log| == |s.log| + 1 && EventOk(t, |s.log|)
  {
    assert CallOk(s.rows, s.calls[c]);
  }

  lemma {:induction false} NewEventOk(s: State, step: Step)
    requires Inv(s) && |Next(s, step).state.log| > |s.log|
    ensures |Next(s, step).state.log| == |s.log| + 1 && EventOk(Next(s, step).state, |s.log|)
  {
    match step
    case Commit(c) => CommittedEventOk(s, c);
    case Record(c) => assert CallOk(s.rows, s.calls[c]);
    case Send(c, accepted) => SentEventOk(s, c, accepted);
    case _ =>
  }

  /** A step that records an execution finds the request approved, so none was recorded before. */
  lemma {:induction false} ExecutedOnce(s: State, step: Step)
    requires Inv(s)
    ensures var t := Next(s, step).state;
      forall i, j :: 0 <= i < j < |t.log| && t.log[i].ExecutedEvent? && t.log[j].ExecutedEvent? ==>
        t.log[i].id != t.log[j].id
  {
    var t := Next(s, step).state;
    StepExtends(s, step);
    if |t.log| > |s.log| {
      NewEventOk(s, step);
      forall i | 0 <= i < |s.log| && s.log[i].ExecutedEvent? && t.log[|s.log|].ExecutedEvent?
        ensures s.log[i].id != t.log[|s.log|].id
      {
        assert EventOk(s, i);
      }
    }
  }

  /** An approved row has its approval in the log. */
  lemma {:induction false} ApprovalsAreLogged(s: State, step: Step)
    requires Inv(s)
    ensures var t := Next(s, step).state;
      forall id :: 0 <= id < |t.rows| && t.rows[id].approvedBy.Some? ==>
        ApprovedBefore(t, |t.log|, id, t.rows[id].payloadHash)
  {
    var t := Next(s, step).state;
    StepExtends(s, step);
    forall id | 0 <= id < |t.rows| && t.rows[id].approvedBy.Some?
      ensures ApprovedBefore(t, |t.log|, id, t.rows[id].payloadHash)
    {
      if id < |s.rows| && s.rows[id].approvedBy.Some? {
        assert Forward(s.rows[id], t.rows[id]);
        ExtendsKeepsApproval(s, t, |s.log|, id, t.rows[id].payloadHash);
        var j :| 0 <= j < |s.log| && IsApprovalOf(t.log[j], id, t.rows[id].payloadHash, t.rows[id].requestedBy);
      } else {
        NewApprovalLogged(s, step, id);
      }
    }
  }

  lemma {:induction false} CommittedApprovalLogged(s: State, c: nat, id: nat)
    requires Inv(s) && c in s.calls && id < |s.rows| && s.rows[id].approvedBy.None?
    requires s.calls[c].id < |s.rows| && CommitCall(s, c).state.rows[id].approvedBy.Some?
    ensures var t := CommitCall(s, c).state; ApprovedBefore(t, |t.log|, id, t.rows[id].payloadHash)
  {
    var t := CommitCall(s, c).state;
    assert CallOk(s.rows, s.calls[c]);
    assert IsApprovalOf(t.log[|s.log|], id, t.rows[id].payloadHash, t.rows[id].requestedBy);
  }

  lemma {:induction false} OnlyCommitsApprove(s: State, step: Step, id: nat)
    requires !step.Commit? && id < |Next(s, step).state.rows|
    ensures Next(s, step).state.rows[id].approvedBy == if id < |s.rows| then s.rows[id].approvedBy else None
  {
  }

  lemma {:induction false} NewApprovalLogged(s: State, step: Step, id: nat)
    requires Inv(s) && id < |Next(s, step).state.rows| && Next(s, step).state.rows[id].approvedBy.Some?
    requires id < |s.rows| ==> s.rows[id].approvedBy.None?
    ensures var t := Next(s, step).state; ApprovedBefore(t, |t.log|, id, t.rows[id].payloadHash)
  {
    if step.Commit? {
      if Due(s, step) { CommittedApprovalLogged(s, step.c, id); }
    } else {
      OnlyCommitsApprove(s, step, id);
    }
  }

  lemma {:induction false} StepKeepsEvents(s: State, step: Step)
    requires Inv(s)
    ensures var t := Next(s, step).state; forall n :: 0 <= n < |t.log| ==> EventOk(t, n)
  {
    var t := Next(s, step).state;
    StepExtends(s, step);
    if |t.log| > |s.log| { NewEventOk(s, step); }
    forall n | 0 <= n < |s.log| ensures EventOk(t, n) {
      ExtendsKeepsEvents(s, t, n);
    }
  }

  lemma {:induction false} StepKeepsInv(s: State, step: Step)
    requires Inv(s)
    ensures Inv(Next(s, step).state)
  {
    StepExtends(s, step);
    StepKeepsCalls(s, step);
    StepKeepsEvents(s, step);
    ApprovalsAreLogged(s, step);
    ExecutedOnce(s, step);
  }

  // ---------------------------------------------------------------- every run

  lemma {:induction false} ExtendsIsTransitive(s: State, t: State, u: State)
    requires Extends(s, t) && Extends(t, u)
    ensures Extends(s, u)
  {
    forall id | 0 <= id < |s.rows| ensures Forward(s.rows[id], u.rows[id]) {
      assert Forward(s.rows[id], t.rows[id]) && Forward(t.rows[id], u.rows[id]);
    }
  }

  /** In every interleaving, rows only move forward, closed requests never change, and the log only grows. */
  lemma {:induction false} RunExtends(s: State, steps: seq<Step>)
    requires Inv(s)
    ensures Inv(After(s, steps)) && Extends(s, After(s, steps))
    decreases |steps|
  {
    if steps != [] {
      var t := Next(s, steps[0]).state;
      StepKeepsInv(s, steps[0]);
      StepExtends(s, steps[0]);
      RunExtends(t, steps[1..]);
      ExtendsIsTransitive(s, t, After(t, steps[1..]));
    }
  }

  lemma InitialInv(staff: map<Person, Staff>)
    ensures Inv(Initial(staff))
  {
  }

  /** Before event n, someone other than the requester approved, in time, exactly the hash of `payload`. */
  predicate ApprovedInTime(s: State, n: nat, id: nat, payload: Json)
    requires n <= |s.log|
  {
    && id < |s.rows|
    && (exists j :: 0 <= j < n && IsApprovalOf(s.log[j], id, HashPayload(payload), s.rows[id].requestedBy)
                    && s.log[j].at < s.rows[id].expiresAt)
  }

  /**
   * The two-person rule: in every interleaving each executor call follows the approval of the very payload it carries.
   */
  lemma {:induction false} TwoPersonRule(staff: map<Person, Staff>, steps: seq<Step>, n: nat)
    requires n < |After(Initial(staff), steps).log| && After(Initial(staff), steps).log[n].SentEvent?
    ensures var s := After(Initial(staff), steps); ApprovedInTime(s, n, s.log[n].id, s.log[n].payload)
  {
    InitialInv(staff);
    RunExtends(Initial(staff), steps);
    var s := After(Initial(staff), steps);
    assert EventOk(s, n);
    var id := s.log[n].id;
    var j :| 0 <= j < n && IsApprovalOf(s.log[j], id, HashPayload(s.log[n].payload), s.rows[id].requestedBy);
    assert EventOk(s, j);
    assert s.rows[id] in s.rows;
    assert RowOk(s.rows[id]);
  }

  /** "Executed" is recorded at most once for a request, and only on one whose row says so. */
  lemma {:induction false} ExecutedIsRecordedOnce(staff: map<Person, Staff>, steps: seq<Step>, n: nat, m: nat)
    requires var s := After(Initial(staff), steps);
      n < |s.log| && m < |s.log| && s.log[n].ExecutedEvent? && s.log[m].ExecutedEvent? && s.log[n].id == s.log[m].id
    ensures n == m
    ensures var s := After(Initial(staff), steps);
      s.log[n].id < |s.rows| && s.rows[s.log[n].id].status == Status.Executed && s.rows[s.log[n].id].approvedBy.Some?
  {
    InitialInv(staff);
    RunExtends(Initial(staff), steps);
    var s := After(Initial(staff), steps);
    assert EventOk(s, n);
    assert s.rows[s.log[n].id] in s.rows;
  }

  /** What was sent is, field by field, what was requested, even if the payload column was edited in between. */
  lemma {:induction false} SentIsRequested(staff: map<Person, Staff>, steps: seq<Step>, i: nat, n: nat, p: Payload)
    requires var s := After(Initial(staff), steps);
      && i < |s.log| && n < |s.log| && s.log[i].RequestedEvent? && s.log[n].SentEvent? && s.log[i].id == s.log[n].id
      && s.log[i].hash == HashPayload(ToJson(p)) && WellFormed(s.log[n].payload)
    ensures Meaning(After(Initial(staff), steps).log[n].payload) == Meaning(ToJson(p))
  {
    InitialInv(staff);
    RunExtends(Initial(staff), steps);
    var s := After(Initial(staff), steps);
    assert EventOk(s, i) && EventOk(s, n);
    var id := s.log[n].id;
    var j :| 0 <= j < n && IsApprovalOf(s.log[j], id, HashPayload(s.log[n].payload), s.rows[id].requestedBy);
    assert EventOk(s, j);
    PayloadIsWellFormed(p);
    CanonicalForm.PrintsAgreeExactly(s.log[n].payload, ToJson(p));
  }

  lemma PayloadIsWellFormed(p: Payload)
    ensures WellFormed(ToJson(p))
  {
    var names := Keys(ToJson(p).fields);
    assert names == [Units("action"), Units("targetType"), Units("targetId"), Units("amountMinor"), Units("currency"),
                     Units("revokeEntitlement"), Units("businessId")];
    assert Units("targetType")[0] != Units("businessId")[0] && Units("targetId")[0] != Units("currency")[0];
  }

  lemma {:induction false} MemberAt(fields: seq<Field>, i: nat)
    requires Distinct(Keys(fields)) && i < |fields|
    ensures fields[i].key in Keys(fields) && IndexOf(fields, fields[i].key) == i
    ensures Meaning(Object(fields)).members[fields[i].key] == Meaning(fields[i].value)
  {
    assert Keys(fields)[i] == fields[i].key;
    assert Keys(fields)[IndexOf(fields, fields[i].key)] == fields[i].key;
  }

  lemma {:induction false} MembersAgree(f: seq<Field>, g: seq<Field>)
    requires Distinct(Keys(f)) && Keys(f) == Keys(g) && Meaning(Object(f)) == Meaning(Object(g))
    ensures |f| == |g| && forall i :: 0 <= i < |f| ==> Meaning(f[i].value) == Meaning(g[i].value)
  {
    assert |Keys(f)| == |f| && |Keys(g)| == |g|;
    forall i | 0 <= i < |f| ensures Meaning(f[i].value) == Meaning(g[i].value) {
      MemberAt(f, i);
      MemberAt(g, i);
      assert Keys(f)[i] == f[i].key && Keys(g)[i] == g[i].key;
    }
  }

  lemma PayloadKeysAreFixed(p: Payload, q: Payload)
    ensures Keys(ToJson(p).fields) == Keys(ToJson(q).fields)
  {
    var f, g := ToJson(p).fields, ToJson(q).fields;
    forall i | 0 <= i < 7 ensures f[i].key == g[i].key { }
  }

  lemma ValueOfField(p: Payload)
    ensures ToJson(p).Object? && |ToJson(p).fields| == 7
    ensures ToJson(p).fields[0].value == String(ActionName(p.action))
    ensures ToJson(p).fields[2].value == String(p.targetId)
    ensures ToJson(p).fields[3].value == (if p.amountMinor.Some? then String(p.amountMinor.value) else Null)
    ensures ToJson(p).fields[4].value == String(p.currency)
    ensures ToJson(p).fields[5].value == Bool(p.revokeEntitlement)
    ensures ToJson(p).fields[6].value == String(p.businessId)
  {
  }

  lemma ActionNamesDiffer(a: Action, b: Action)
    requires ActionName(a) == ActionName(b)
    ensures a == b
  {
    assert |ActionName(a)| == if a.SubscriptionChargeRefund? then 26 else 19;
    assert |ActionName(b)| == if b.SubscriptionChargeRefund? then 26 else 19;
  }

  lemma {:induction false} SameValuesSameFields(f: seq<Field>, g: seq<Field>, p: Payload, q: Payload)
    requires |f| == |g| == 7 && forall i :: 0 <= i < 7 ==> Meaning(f[i].value) == Meaning(g[i].value)
    requires f[0].value == String(ActionName(p.action)) && g[0].value == String(ActionName(q.action))
    requires f[2].value == String(p.targetId) && g[2].value == String(q.targetId)
    requires f[3].value == (if p.amountMinor.Some? then String(p.amountMinor.value) else Null)
    requires g[3].value == (if q.amountMinor.Some? then String(q.amountMinor.value) else Null)
    requires f[4].value == String(p.currency) && g[4].value == String(q.currency)
    requires f[5].value == Bool(p.revokeEntitlement) && g[5].value == Bool(q.revokeEntitlement)
    requires f[6].value == String(p.businessId) && g[6].value == String(q.businessId)
    ensures p == q
  {
    assert Meaning(f[0].value) == Meaning(g[0].value) && Meaning(f[2].value) == Meaning(g[2].value);
    assert Meaning(f[3].value) == Meaning(g[3].value) && Meaning(f[4].value) == Meaning(g[4].value);
    assert Meaning(f[5].value) == Meaning(g[5].value) && Meaning(f[6].value) == Meaning(g[6].value);
    ActionNamesDiffer(p.action, q.action);
  }

  /** Payloads that mean the same agree in every field. */
  lemma {:induction false} PayloadsAgreeFieldByField(p: Payload, q: Payload)
    requires Meaning(ToJson(p)) == Meaning(ToJson(q))
    ensures p == q
  {
    PayloadIsWellFormed(p);
    PayloadKeysAreFixed(p, q);
    ValueOfField(p);
    ValueOfField(q);
    MembersAgree(ToJson(p).fields, ToJson(q).fields);
    SameValuesSameFields(ToJson(p).fields, ToJson(q).fields, p, q);
  }

  /** A payload read back with its keys in another order still passes the approver's hash check. */
  lemma KeyOrderNeverBlocksApproval(row: Row, who: Person, p: Payload)
    requires row.payloadHash == HashPayload(ToJson(p))
    requires WellFormed(row.payload) && Meaning(row.payload) == Meaning(ToJson(p))
    ensures ApproveProblem(row, who, row.payloadHash) != Some(PayloadChanged)
  {
    PayloadIsWellFormed(p);
    CanonicalForm.PrintsAgreeExactly(row.payload, ToJson(p));
  }

  // ---------------------------------------------------------------- one open request per payment

  predicate OneOpen(rows: seq<Row>) {
    forall i, j :: 0 <= i < j < |rows| && IsOpen(rows[i].status) && IsOpen(rows[j].status) ==>
      rows[i].action != rows[j].action || rows[i].targetId != rows[j].targetId
  }

  lemma {:induction false} RequestKeepsOneOpen(s: State, step: Step)
    requires OneOpen(s.rows) && step.Request?
    ensures OneOpen(MakeRequest(s, step).state.rows)
  {
    var rows := MakeRequest(s, step).state.rows;
    forall i | 0 <= i < |s.rows| && |rows| > |s.rows| && IsOpen(s.rows[i].status)
      ensures s.rows[i].action != step.action || s.rows[i].targetId != step.targetId
    {
      assert s.rows[i] in s.rows;
    }
  }

  lemma {:induction false} ForwardKeepsOneOpen(s: State, t: State)
    requires Extends(s, t) && |t.rows| == |s.rows| && OneOpen(s.rows)
    ensures OneOpen(t.rows)
  {
    forall i | 0 <= i < |t.rows|
      ensures SameFrozen(s.rows[i], t.rows[i]) && (IsOpen(t.rows[i].status) ==> IsOpen(s.rows[i].status))
    {
      assert Forward(s.rows[i], t.rows[i]);
    }
  }

  lemma {:induction false} StepKeepsOneOpen(s: State, step: Step)
    requires Inv(s) && OneOpen(s.rows)
    ensures OneOpen(Next(s, step).state.rows)
  {
    if step.Request? {
      RequestKeepsOneOpen(s, step);
    } else {
      StepExtends(s, step);
      OnlyRequestsAddRows(s, step);
      ForwardKeepsOneOpen(s, Next(s, step).state);
    }
  }

  lemma OnlyRequestsAddRows(s: State, step: Step)
    requires !step.Request?
    ensures |Next(s, step).state.rows| == |s.rows|
  {
  }

  lemma {:induction false} OneOpenRequestPerPayment(s: State, steps: seq<Step>)
    requires Inv(s) && OneOpen(s.rows)
    ensures OneOpen(After(s, steps).rows)
    decreases |steps|
  {
    if steps != [] {
      StepKeepsInv(s, steps[0]);
      StepKeepsOneOpen(s, steps[0]);
      OneOpenRequestPerPayment(Next(s, steps[0]).state, steps[1..]);
    }
  }

  // ---------------------------------------------------------------- closed, and yet sent

  /**
   * An execution past its checks: it read the row while it was approved, and nothing it does later looks at the row
   * again.
   */
  /** The actor may be allowed by the time they are looked at again. */
  predicate MayBeAllowed(staff: map<Person, Staff>, who: Person, roleVersion: Option<nat>) {
    who in staff && roleVersion.Some? ==>
      || staff[who].roleVersion < roleVersion.value
      || (staff[who].roleVersion == roleVersion.value && staff[who].mayExecute)
  }

  predicate CanSend(staff: map<Person, Staff>, call: Call) {
    || call.Cleared?
    || (call.Loaded? && HashPayload(call.row.payload) == call.row.payloadHash
        && MayBeAllowed(staff, call.who, call.roleVersion))
  }

  predicate Underway(s: State, id: nat) {
    exists c :: c in s.calls && s.calls[c].id == id && CanSend(s.staff, s.calls[c])
  }

  predicate SentAmong(events: seq<Event>, id: nat) {
    exists n :: 0 <= n < |events| && events[n].SentEvent? && events[n].id == id
  }

  /** Whether the executor is called for this request somewhere in a run. */
  predicate Sends(s: State, steps: seq<Step>, id: nat)
    requires Inv(s)
  {
    RunExtends(s, steps);
    SentAmong(After(s, steps).log[|s.log|..], id)
  }

  lemma {:induction false} QuietStart(s: State, step: Step, id: nat)
    requires Inv(s) && id < |s.rows| && !IsOpen(s.rows[id].status) && Starts(step) && Due(s, step)
    ensures var t := Next(s, step).state; step.c in t.calls && t.calls[step.c].id == id ==>
      !CanSend(t.staff, t.calls[step.c])
  {
  }

  lemma {:induction false} QuietContinuation(s: State, step: Step, id: nat, c: nat)
    requires !Starts(step) && !Underway(s, id) && c in Next(s, step).state.calls
    requires Next(s, step).state.calls[c].id == id
    ensures !CanSend(Next(s, step).state.staff, Next(s, step).state.calls[c])
  {
    assert c in s.calls && (s.calls[c].id == id ==> !CanSend(s.staff, s.calls[c]));
  }

  lemma {:induction false} QuietStays(s: State, step: Step, id: nat)
    requires Inv(s) && id < |s.rows| && !IsOpen(s.rows[id].status) && !Underway(s, id)
    ensures !Underway(Next(s, step).state, id)
  {
    var t := Next(s, step).state;
    if Starts(step) && Due(s, step) {
      StartedCallOk(s, step);
      QuietStart(s, step, id);
    }
    forall c | c in t.calls && t.calls[c].id == id ensures !CanSend(t.staff, t.calls[c]) {
      if !Starts(step) { QuietContinuation(s, step, id, c); }
      else if c in s.calls && t.calls[c] == s.calls[c] { assert !CanSend(s.staff, s.calls[c]); }
    }
  }

  lemma OnlyClearedCallsSend(s: State, step: Step)
    requires |Next(s, step).state.log| == |s.log| + 1 && s.log <= Next(s, step).state.log
    ensures var e := Next(s, step).state.log[|s.log|];
      e.SentEvent? ==> step.Send? && step.c in s.calls && s.calls[step.c].Cleared? && s.calls[step.c].id == e.id
  {
  }

  lemma {:induction false} QuietSendsNothing(s: State, step: Step, id: nat)
    requires Inv(s) && !Underway(s, id)
    ensures s.log <= Next(s, step).state.log && !SentAmong(Next(s, step).state.log[|s.log|..], id)
  {
    forall c | c in s.calls && s.calls[c].id == id ensures !CanSend(s.staff, s.calls[c]) { }
    StepExtends(s, step);
    if |Next(s, step).state.log| > |s.log| {
      NewEventOk(s, step);
      OnlyClearedCallsSend(s, step);
    }
  }

  lemma SentAmongParts(a: seq<Event>, b: seq<Event>, id: nat)
    requires !SentAmong(a, id) && !SentAmong(b, id)
    ensures !SentAmong(a + b, id)
  {
  }

  lemma {:induction false} QuietRun(s: State, steps: seq<Step>, id: nat)
    requires Inv(s) && id < |s.rows| && !IsOpen(s.rows[id].status) && !Underway(s, id)
    ensures !Sends(s, steps, id)
    decreases |steps|
  {
    if steps != [] {
      var t := Next(s, steps[0]).state;
      StepKeepsInv(s, steps[0]);
      StepExtends(s, steps[0]);
      assert Forward(s.rows[id], t.rows[id]);
      QuietStays(s, steps[0], id);
      QuietSendsNothing(s, steps[0], id);
      QuietRun(t, steps[1..], id);
      RunExtends(t, steps[1..]);
      var end := After(t, steps[1..]).log;
      SentAmongParts(t.log[|s.log|..], end[|t.log|..], id);
      assert end[|s.log|..] == t.log[|s.log|..] + end[|t.log|..];
    }
  }

  /**
   * A closed request (cancelled, say) can still be sent exactly when an execution of it is under way: cleared to send,
   * or past its first read, its payload still matching the hash, and its actor one who may yet be allowed to run it.
   */
  lemma {:induction false} ClosedIsSentExactlyWhen(s: State, id: nat)
    requires Inv(s) && id < |s.rows| && !IsOpen(s.rows[id].status)
    ensures (exists steps :: Sends(s, steps, id)) <==> Underway(s, id)
  {
    if Underway(s, id) {
      var c :| c in s.calls && s.calls[c].id == id && CanSend(s.staff, s.calls[c]);
      LateSend(s, c);
    } else {
      forall steps ensures !Sends(s, steps, id) { QuietRun(s, steps, id); }
    }
  }

  lemma RunOfThree(s: State, a: Step, b: Step, c: Step)
    ensures After(s, [a]) == Next(s, a).state
    ensures After(s, [a, b, c]) == Next(Next(Next(s, a).state, b).state, c).state
  {
    assert [a, b, c][1..] == [b, c] && [b, c][1..] == [c] && [c][1..] == [];
    assert After(s, [a, b, c]) == After(Next(s, a).state, [b, c]);
    assert After(Next(s, a).state, [b, c]) == After(Next(Next(s, a).state, b).state, [c]);
  }

  lemma ClearedIsSent(s: State, c: nat)
    requires Inv(s) && c in s.calls && s.calls[c].Cleared?
    ensures After(s, [Send(c, true)]).log == s.log + [SentEvent(s.calls[c].id, s.calls[c].who, s.calls[c].row.payload)]
  {
    RunOfThree(s, Send(c, true), Send(c, true), Send(c, true));
  }

  lemma LoadedIsSent(s: State, c: nat) returns (steps: seq<Step>)
    requires Inv(s) && c in s.calls && s.calls[c].Loaded? && CanSend(s.staff, s.calls[c])
    ensures After(s, steps).log == s.log + [SentEvent(s.calls[c].id, s.calls[c].who, s.calls[c].row.payload)]
  {
    var call := s.calls[c];
    var version := if call.roleVersion.Some? then call.roleVersion.value
                   else if call.who in s.staff then s.staff[call.who].roleVersion + 1 else 0;
    var allowed := Staff(false, version, true);
    var admitted := Next(s, SetStaff(call.who, allowed)).state;
    AdmittedIsCleared(admitted, c);
    steps := [SetStaff(call.who, allowed), Revalidate(c), Send(c, true)];
    RunOfThree(s, SetStaff(call.who, allowed), Revalidate(c), Send(c, true));
  }

  lemma AdmittedIsCleared(s: State, c: nat)
    requires c in s.calls && s.calls[c].Loaded? && CanSend(s.staff, s.calls[c])
      && ActorAllowed(s.staff, s.calls[c].who, s.calls[c].roleVersion)
    ensures var call := s.calls[c];
      Next(s, Revalidate(c)).state == s.(calls := s.calls[c := Cleared(call.id, call.row, call.who, call.at)])
  {
  }

  lemma {:induction false} LateSend(s: State, c: nat)
    requires Inv(s) && c in s.calls && CanSend(s.staff, s.calls[c])
    ensures exists steps :: Sends(s, steps, s.calls[c].id)
  {
    var steps := [Send(c, true)];
    if s.calls[c].Cleared? {
      ClearedIsSent(s, c);
    } else {
      steps := LoadedIsSent(s, c);
    }
    assert After(s, steps).log[|s.log|..][0].SentEvent?;
    assert Sends(s, steps, s.calls[c].id);
  }
}
