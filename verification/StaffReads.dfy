/**
 * Staff transactions side by side. Inside a transaction the reads come first, and other transactions may commit between
 * them and the writes: the database is left at its default isolation (src/admin/staffAdmin.ts, no isolation level set).
 */
module StaffReads {
  import opened Prelude
  import opened StaffAdmin
  import opened StaffSafety
  import opened StaffHistory

  /** Operations whose transaction reads accounts or a transfer and then writes by what it read. */
  predicate ReadsFirst(op: Op) { op.ChangeRole? || op.SetStaffDisabled? || op.AcceptTransfer? || op.CancelTransfer? }

  function PlanFrom(seen: Db, db: Db, op: Op): Tx { Plan(if ReadsFirst(op) then seen else db, op) }

  /** The operation, its reads made when the tables were `seen`, its writes applied to them as they are now. */
  function ExecuteFrom(seen: Db, db: Db, op: Op): (Db, Result<(), StaffError>) {
    match PlanFrom(seen, db, op)
    case Refuse(error) => (db, Err(error))
    case Run(writes, thrown) =>
      var end := ApplyAll(db, writes);
      if end.Err? then (db, Err(MapError(op, end.error)))
      else if thrown.Some? then (db, Err(thrown.value))
      else (end.value, Ok(()))
  }

  /** An operation under way, and the tables as its reads found them. */
  datatype Call = Call(op: Op, seen: Db)

  function AfterCalls(db: Db, calls: seq<Call>): Db
    decreases |calls|
  {
    if calls == [] then db else AfterCalls(ExecuteFrom(calls[0].seen, db, calls[0].op).0, calls[1..])
  }

  /** Reads that are still current make it the operation of one transaction at a time. */
  lemma CurrentReadsAreSerial(db: Db, op: Op)
    ensures ExecuteFrom(db, db, op) == Execute(db, op)
  {
  }

  // ---------------------------------------------------------------- an active owner, whatever was read

  /** In every run, however old each reading is, there is an active owner after every single row write. */
  lemma {:induction false} AlwaysAnOwner(db: Db, calls: seq<Call>, next: Call)
    requires HasOwner(db)
    ensures HasOwner(AfterCalls(db, calls))
    ensures var now := AfterCalls(db, calls); var plan := PlanFrom(next.seen, now, next.op);
      plan.Run? ==> OwnerThroughout(now, plan.writes)
    decreases |calls|
  {
    if calls == [] {
      var plan := PlanFrom(next.seen, db, next.op);
      if plan.Run? { WritesKeepOwner(db, plan.writes); }
    } else {
      var plan := PlanFrom(calls[0].seen, db, calls[0].op);
      if plan.Run? { WritesKeepOwner(db, plan.writes); }
      AlwaysAnOwner(ExecuteFrom(calls[0].seen, db, calls[0].op).0, calls[1..], next);
    }
  }

  // ---------------------------------------------------------------- the history

  /** Someone's rows no longer follow one another. */
  ghost predicate Broken(db: Db, seed: map<Id, User>) {
    exists u: Id :: Replay(db.history, u, RoleOf(seed, u)).None?
  }

  lemma {:induction false} ReplayStaysBroken(a: seq<RoleChange>, b: seq<RoleChange>, u: Id, start: Option<Role>)
    requires Replay(a, u, start).None?
    ensures Replay(a + b, u, start).None?
  {
    assert (a + b)[1..] == a[1..] + b && (a + b)[0] == a[0];
    if a[0].user != u {
      ReplayStaysBroken(a[1..], b, u, start);
    } else if a[0].from == start {
      ReplayStaysBroken(a[1..], b, u, Some(a[0].to));
    }
  }

  lemma {:induction false} HistoryOnlyGrows(db: Db, writes: seq<Write>)
    requires ApplyAll(db, writes).Ok?
    ensures db.history <= ApplyAll(db, writes).value.history
    decreases |writes|
  {
    if writes != [] { HistoryOnlyGrows(Apply(db, writes[0]).value, writes[1..]); }
  }

  lemma {:induction false} BrokenStays(db: Db, end: Db, seed: map<Id, User>)
    requires Broken(db, seed) && db.history <= end.history
    ensures Broken(end, seed) && !HistoryOk(end, seed)
  {
    var u: Id :| Replay(db.history, u, RoleOf(seed, u)).None?;
    ReplayStaysBroken(db.history, end.history[|db.history|..], u, RoleOf(seed, u));
    assert db.history + end.history[|db.history|..] == end.history;
  }

  /** A role set together with a row that names another role than the one replaced. */
  predicate StartsWithStaleMove(db: Db, writes: seq<Write>) {
    && |writes| >= 2 && writes[0].SetRole? && writes[1].AddRoleChange?
    && writes[1].change.user == writes[0].user && writes[0].user in db.users
    && writes[1].change.from != Some(db.users[writes[0].user].role)
  }

  lemma {:induction false} StaleMoveBreaks(db: Db, writes: seq<Write>, seed: map<Id, User>)
    requires HistoryOk(db, seed) && StartsWithStaleMove(db, writes) && ApplyAll(db, writes).Ok?
    ensures Broken(ApplyAll(db, writes).value, seed)
  {
    var u := writes[0].user;
    var d1 := Apply(db, writes[0]).value;
    assert ApplyAll(db, writes) == ApplyAll(d1, writes[1..]) && writes[1..][0] == writes[1];
    var d2 := Apply(d1, writes[1]).value;
    assert ApplyAll(d1, writes[1..]) == ApplyAll(d2, writes[2..]) by { assert writes[1..][1..] == writes[2..]; }
    HistoryOnlyGrows(d2, writes[2..]);
    ReplayAppends(db.history, writes[1].change, u, RoleOf(seed, u));
    assert Replay(db.history, u, RoleOf(seed, u)) == Some(RoleOf(db.users, u));
    assert Broken(d2, seed);
    BrokenStays(d2, ApplyAll(d2, writes[2..]).value, seed);
  }

  predicate HasRole(users: map<Id, User>, u: Id, role: Role) { u in users && users[u].role == role }

  /** The roles an operation read and records are still those it replaces. */
  predicate ReadsHold(seen: Db, db: Db, op: Op) {
    match op
    case ChangeRole(target, _, _) => target in seen.users && HasRole(db.users, target, seen.users[target].role)
    case BootstrapOwner(user, account) => HasRole(db.users, user, account.role)
    case AcceptTransfer(index, _, _) =>
      index < |seen.transfers| && (var t := seen.transfers[index];
        && t.to in seen.users && HasRole(db.users, t.to, seen.users[t.to].role)
        && (HasRole(seen.users, t.from, SuperAdmin) ==> HasRole(db.users, t.from, SuperAdmin)))
    case _ => true
  }

  lemma {:induction false} OneMoveExactlyWhen(db: Db, writes: seq<Write>, seed: map<Id, User>, from: Role)
    requires HistoryOk(db, seed) && ApplyAll(db, writes).Ok? && |writes| == 3 && MovesNoRole(writes[2])
    requires writes[0].SetRole? && from != writes[0].role
    requires writes[1].AddRoleChange? && writes[1].change.user == writes[0].user
      && writes[1].change.to == writes[0].role
    requires writes[1].change.from == Some(from)
    ensures HasRole(db.users, writes[0].user, from) ==> HistoryOk(ApplyAll(db, writes).value, seed)
    ensures !HasRole(db.users, writes[0].user, from) ==> Broken(ApplyAll(db, writes).value, seed)
  {
    if HasRole(db.users, writes[0].user, from) {
      assert writes[2..] == [writes[2]];
      OneMoveKeepsHistory(db, writes, seed);
    } else {
      assert Apply(db, writes[0]).Ok?;
      StaleMoveBreaks(db, writes, seed);
    }
  }

  lemma {:induction false} RoleChangeExactlyWhen(seen: Db, db: Db, seed: map<Id, User>, op: Op)
    requires HistoryOk(db, seed) && (op.ChangeRole? || op.BootstrapOwner?) && ExecuteFrom(seen, db, op).1.Ok?
    ensures ReadsHold(seen, db, op) ==> HistoryOk(ExecuteFrom(seen, db, op).0, seed)
    ensures !ReadsHold(seen, db, op) ==> Broken(ExecuteFrom(seen, db, op).0, seed)
  {
    var writes := PlanFrom(seen, db, op).writes;
    OneMoveExactlyWhen(db, writes, seed, if op.ChangeRole? then seen.users[op.target].role else op.account.role);
  }

  /** The two moves of an acceptance, or the one when the person handing over is no owner. */
  lemma {:induction false} AcceptMoves(seen: Db, db: Db, index: nat, who: Id, at: Time) returns (writes: seq<Write>)
    requires TransfersOk(seen) && ExecuteFrom(seen, db, AcceptTransfer(index, who, at)).1.Ok?
    ensures index < |seen.transfers| && ApplyAll(db, writes).Ok?
    ensures ApplyAll(db, writes).value == ExecuteFrom(seen, db, AcceptTransfer(index, who, at)).0
    ensures var t := seen.transfers[index];
      && t.from != t.to && t.to in seen.users && t.from in seen.users && t.to in db.users
      && |writes| >= 4 && writes[0] == SetRole(t.to, SuperAdmin, false) && seen.users[t.to].role != SuperAdmin
      && writes[1].AddRoleChange? && writes[1].change.user == t.to && writes[1].change.to == SuperAdmin
      && writes[1].change.from == Some(seen.users[t.to].role)
      && (if HasRole(seen.users, t.from, SuperAdmin)
          then |writes| == 6 && writes[2] == SetRole(t.from, Operator,
              false) && MovesNoRole(writes[4]) && MovesNoRole(writes[5])
               && writes[3] == AddRoleChange(RoleChange(t.from, Some(SuperAdmin), Operator, Some(t.to)))
          else |writes| == 4 && MovesNoRole(writes[2]) && MovesNoRole(writes[3]))
  {
    writes := PlanFrom(seen, db, AcceptTransfer(index, who, at)).writes;
    assert seen.transfers[index] in seen.transfers;
    assert Apply(db, writes[0]).Ok?;
    var d1 := Apply(db, writes[0]).value;
    assert ApplyAll(db, writes) == ApplyAll(d1, writes[1..]) && writes[1..][0] == writes[1];
    assert Apply(d1, writes[1]).Ok?;
  }

  lemma {:induction false} AcceptExactlyWhen(seen: Db, db: Db, seed: map<Id, User>, index: nat, who: Id, at: Time)
    requires HistoryOk(db, seed) && TransfersOk(seen) && ExecuteFrom(seen, db, AcceptTransfer(index, who, at)).1.Ok?
    ensures var op := AcceptTransfer(index, who, at);
      && (ReadsHold(seen, db, op) ==> HistoryOk(ExecuteFrom(seen, db, op).0, seed))
      && (!ReadsHold(seen, db, op) ==> Broken(ExecuteFrom(seen, db, op).0, seed))
  {
    var writes := AcceptMoves(seen, db, index, who, at);
    var t := seen.transfers[index];
    if !HasRole(db.users, t.to, seen.users[t.to].role) {
      StaleMoveBreaks(db, writes, seed);
    } else if !HasRole(seen.users, t.from, SuperAdmin) {
      assert writes[2..] == [writes[2], writes[3]];
      OneMoveKeepsHistory(db, writes, seed);
    } else {
      var mid := MoveFirst(db, writes, seed);
      var rest := writes[2..];
      assert |rest| == 4 && rest[0] == writes[2] && rest[1] == writes[3] && rest[2..] == [writes[4], writes[5]];
      assert Apply(mid, rest[0]).Ok?;
      if HasRole(db.users, t.from, SuperAdmin) {
        OneMoveKeepsHistory(mid, rest, seed);
      } else {
        StaleMoveBreaks(mid, rest, seed);
      }
    }
  }

  lemma {:induction false} CallExactlyWhen(seen: Db, db: Db, seed: map<Id, User>, op: Op)
    requires HistoryOk(db, seed) && TransfersOk(seen) && ExecuteFrom(seen, db, op).1.Ok?
    ensures ReadsHold(seen, db, op) ==> HistoryOk(ExecuteFrom(seen, db, op).0, seed)
    ensures !ReadsHold(seen, db, op) ==> Broken(ExecuteFrom(seen, db, op).0, seed)
  {
    match op
    case ChangeRole(_, _, _) => RoleChangeExactlyWhen(seen, db, seed, op);
    case BootstrapOwner(_, _) => RoleChangeExactlyWhen(seen, db, seed, op);
    case AcceptTransfer(index, who, at) => AcceptExactlyWhen(seen, db, seed, index, who, at);
    case AcceptInvitation(_, _, _, _, _) => AcceptInvitationKeepsHistory(db, seed, op);
    case _ => RestKeepsHistory(db, PlanFrom(seen, db, op).writes, seed);
  }

  /** Every transaction that goes through records the roles it replaces. */
  predicate AllReadsHold(db: Db, calls: seq<Call>)
    decreases |calls|
  {
    calls != [] ==>
      && (ExecuteFrom(calls[0].seen, db, calls[0].op).1.Ok? ==> ReadsHold(calls[0].seen, db, calls[0].op))
      && AllReadsHold(ExecuteFrom(calls[0].seen, db, calls[0].op).0, calls[1..])
  }

  lemma {:induction false} BrokenForEver(db: Db, seed: map<Id, User>, calls: seq<Call>)
    requires Broken(db, seed)
    ensures !HistoryOk(AfterCalls(db, calls), seed)
    decreases |calls|
  {
    if calls == [] {
      BrokenStays(db, db, seed);
    } else {
      var plan := PlanFrom(calls[0].seen, db, calls[0].op);
      if plan.Run? && ApplyAll(db, plan.writes).Ok? { HistoryOnlyGrows(db, plan.writes); }
      var next := ExecuteFrom(calls[0].seen, db, calls[0].op).0;
      BrokenStays(db, next, seed);
      BrokenForEver(next, seed, calls[1..]);
    }
  }

  /**
   * In every run of transactions side by side, replaying each person's role changes from their first role ends at their
   * current role exactly when every role change, acceptance and bootstrap that went through recorded the very roles it
   * replaced: the roles it had read were still those of the accounts when it wrote.
   */
  lemma {:induction false} HistoryIsUnbrokenExactlyWhen(db: Db, seed: map<Id, User>, calls: seq<Call>)
    requires HistoryOk(db, seed) && forall c :: c in calls ==> TransfersOk(c.seen)
    ensures HistoryOk(AfterCalls(db, calls), seed) <==> AllReadsHold(db, calls)
    decreases |calls|
  {
    if calls != [] {
      var seen, op := calls[0].seen, calls[0].op;
      var next := ExecuteFrom(seen, db, op).0;
      assert calls[0] in calls;
      if ExecuteFrom(seen, db, op).1.Ok? { CallExactlyWhen(seen, db, seed, op); }
      if ExecuteFrom(seen, db, op).1.Ok? && !ReadsHold(seen, db, op) {
        BrokenForEver(next, seed, calls[1..]);
      } else {
        HistoryIsUnbrokenExactlyWhen(next, seed, calls[1..]);
      }
    }
  }

  /** Two people change the same person's role at once: both read the old role, and the second row names it again. */
  lemma {:induction false} TwoChangesAtOnceBreak(db: Db, seed: map<Id, User>, target: Id, who: Id, a: Role, b: Role)
    requires HistoryOk(db, seed) && TransfersOk(db) && target in db.users && target != who
    requires !db.users[target].disabled && db.users[target].role != SuperAdmin
    requires a != db.users[target].role && b != db.users[target].role && a != SuperAdmin
    ensures var calls := [Call(ChangeRole(target, a, who), db), Call(ChangeRole(target, b, who), db)];
      !HistoryOk(AfterCalls(db, calls), seed)
  {
    var first, second := Call(ChangeRole(target, a, who), db), Call(ChangeRole(target, b, who), db);
    var calls := [first, second];
    assert calls[1..] == [second];
    RoleChangeRuns(db, db, target, a, who);
    var next := ExecuteFrom(db, db, first.op).0;
    RoleChangeRuns(db, next, target, b, who);
    HistoryIsUnbrokenExactlyWhen(db, seed, calls);
  }

  lemma {:induction false} RoleChangeRuns(seen: Db, db: Db, target: Id, role: Role, who: Id)
    requires target in seen.users && target != who && !seen.users[target].disabled && seen.users[target].role != role
    requires target in db.users && db.users[target].role != SuperAdmin
    ensures var end := ExecuteFrom(seen, db, ChangeRole(target, role, who));
      end.1.Ok? && HasRole(end.0.users, target, role)
  {
    var writes := Plan(seen, ChangeRole(target, role, who)).writes;
    var d1 := Apply(db, writes[0]).value;
    assert ApplyAll(db, writes) == ApplyAll(d1, writes[1..]) && writes[1..][0] == writes[1];
    var d2 := Apply(d1, writes[1]).value;
    assert ApplyAll(d1, writes[1..]) == ApplyAll(d2, writes[2..]) by { assert writes[1..][1..] == writes[2..]; }
    assert writes[2..] == [writes[2]];
    OneWrite(d2, writes[2]);
  }

  // ---------------------------------------------------------------- the last-owner guard

  /**
   * An acceptance whose reads are no longer current runs into the last-owner guard exactly when the person named was
   * disabled meanwhile and the one handing over, an owner then and now, is the only active owner there is.
   */
  lemma {:induction false} AcceptMeetsTheGuardExactlyWhen(seen: Db, db: Db, index: nat, who: Id, at: Time)
    requires TransfersOk(seen) && seen.users.Keys <= db.users.Keys // accounts are never deleted
    requires Plan(seen, AcceptTransfer(index, who, at)).Run? && Plan(seen, AcceptTransfer(index, who, at)).thrown.None?
    ensures var t := seen.transfers[index];
      ExecuteFrom(seen, db, AcceptTransfer(index, who, at)).1 == Err(LastActiveOwner) <==>
        && seen.users[t.to].role != SuperAdmin && seen.users[t.from].role == SuperAdmin
        && db.users[t.to].disabled && ActiveOwner(db.users, t.from)
        && forall v :: v in db.users && v != t.from ==> !ActiveOwner(db.users, v)
  {
    var t, writes := seen.transfers[index], Plan(seen, AcceptTransfer(index, who, at)).writes;
    assert t in seen.transfers;
    var d1 := Apply(db, writes[0]).value;
    assert ApplyAll(db, writes) == ApplyAll(d1,
        writes[1..]) && writes[1..][0] == writes[1] && writes[1..][1..] == writes[2..];
    if seen.users[t.to].role != SuperAdmin {
      var d2 := Apply(d1, writes[1]).value;
      assert ApplyAll(db, writes) == ApplyAll(d2, writes[2..]);
      if seen.users[t.from].role == SuperAdmin {
        assert writes[2..][0] == SetRole(t.from, Operator, false);
        var third := Apply(d2, writes[2]);
        if third.Ok? { NoGuardLater(third.value, writes[2..][1..]); }
        PromotedOnly(db, d2, t.to, t.from);
      } else {
        NoGuardLater(d2, writes[2..]);
      }
    }
  }

  lemma {:induction false} PromotedOnly(db: Db, end: Db, to: Id, from: Id)
    requires to in db.users && from in db.users && from != to && end.users.Keys == db.users.Keys
    requires end.users[to].role == SuperAdmin && end.users[to].disabled == db.users[to].disabled
    requires forall u :: u in db.users && u != to ==> end.users[u] == db.users[u]
    ensures (exists v :: v in end.users && v != from && ActiveOwner(end.users, v)) <==>
      !db.users[to].disabled || exists v :: v in db.users && v != from && ActiveOwner(db.users, v)
  {
    if v :| v in end.users && v != from && ActiveOwner(end.users, v) { assert v != to ==> ActiveOwner(db.users, v); }
    if v :| v in db.users && v != from && ActiveOwner(db.users, v) { assert ActiveOwner(end.users, v); }
    if !db.users[to].disabled { assert ActiveOwner(end.users, to); }
  }

  lemma {:induction false} NoGuardLater(db: Db, writes: seq<Write>)
    requires forall w :: w in writes ==> !w.SetRole? && !w.SetDisabled?
    ensures ApplyAll(db, writes) != Err(LastOwner)
    decreases |writes|
  {
    if writes != [] {
      assert writes[0] in writes;
      if Apply(db, writes[0]).Ok? { NoGuardLater(Apply(db, writes[0]).value, writes[1..]); }
    }
  }

  /** The person named is disabled while their acceptance is under way, and the only owner cannot hand over. */
  lemma {:induction false} DisabledMeanwhileMeetsTheGuard(db: Db, index: nat, who: Id, at: Time, admin: Id)
    requires TransfersOk(db) && Execute(db, AcceptTransfer(index, who, at)).1.Ok? && admin != who
    requires ActiveOwner(db.users, db.transfers[index].from)
    requires forall v :: v in db.users && v != db.transfers[index].from ==> !ActiveOwner(db.users, v)
    ensures var later := Execute(db, SetStaffDisabled(who, true, admin));
      later.1.Ok? && ExecuteFrom(db, later.0, AcceptTransfer(index, who, at)).1 == Err(LastActiveOwner)
  {
    TransferSucceedsExactlyWhen(db, index, who, at);
    var op := SetStaffDisabled(who, true, admin);
    var writes := Plan(db, op).writes;
    var d1 := Apply(db, writes[0]).value;
    assert ApplyAll(db, writes) == ApplyAll(d1, writes[1..]);
    TailNeverFails(d1, writes[1..]);
    AccountsLeft(d1, writes[1..]);
    AcceptMeetsTheGuardExactlyWhen(db, Execute(db, op).0, index, who, at);
  }

  lemma {:induction false} AccountsLeft(db: Db, writes: seq<Write>)
    requires ApplyAll(db, writes).Ok? && forall w :: w in writes ==> w.RevokeSessionsOf? || w.AddAudit?
    ensures ApplyAll(db, writes).value.users == db.users
    decreases |writes|
  {
    if writes != [] {
      assert writes[0] in writes;
      AccountsLeft(Apply(db, writes[0]).value, writes[1..]);
    }
  }

  // ---------------------------------------------------------------- decisions, whatever was read

  predicate LeavesTransfers(w: Write) { !w.SetTransfer? && !w.ExpireTransfers? && !w.AddTransfer? }

  /** One transfer is decided, and nothing else is done to the table. */
  predicate Decides(writes: seq<Write>, index: nat) {
    && (exists w :: w in writes && w.SetTransfer?)
    && forall w :: w in writes ==> (w.SetTransfer? && w.index == index) || LeavesTransfers(w)
  }

  /** However the row was read, the trigger looks at it as it is. */
  lemma {:induction false} OnlyOpenOnesAreDecided(db: Db, writes: seq<Write>, index: nat)
    requires Decides(writes, index) && ApplyAll(db, writes).Ok?
    ensures index < |db.transfers| && db.transfers[index].status == Initiated
    decreases |writes|
  {
    assert writes[0] in writes;
    if !writes[0].SetTransfer? {
      var w :| w in writes && w.SetTransfer?;
      assert w in writes[1..];
      OnlyOpenOnesAreDecided(Apply(db, writes[0]).value, writes[1..], index);
    }
  }

  lemma {:induction false} DecisionDecides(seen: Db, op: Op)
    requires (op.AcceptTransfer? || op.CancelTransfer?) && Plan(seen, op).Run?
    ensures Decides(Plan(seen, op).writes, op.index)
  {
    var writes := Plan(seen, op).writes;
    assert writes[if op.CancelTransfer? || |writes| == 1 then 0 else |writes| - 2].SetTransfer?;
  }

  /**
   * A transfer decided meanwhile is never decided again: whatever an acceptance or a cancellation had read, it fails.
   */
  lemma {:induction false} DecidedIsRefused(seen: Db, db: Db, op: Op)
    requires op.AcceptTransfer? || op.CancelTransfer?
    requires op.index < |db.transfers| && db.transfers[op.index].status != Initiated
    ensures ExecuteFrom(seen, db, op).1.Err? && ExecuteFrom(seen, db, op).0 == db
  {
    if Plan(seen, op).Run? && ApplyAll(db, Plan(seen, op).writes).Ok? {
      DecisionDecides(seen, op);
      OnlyOpenOnesAreDecided(db, Plan(seen, op).writes, op.index);
    }
  }

  /** Writes planned on old reads are as careful with the invitations, as they touch none. */
  lemma {:induction false} OldPlanIsCareful(seen: Db, db: Db, op: Op)
    requires PlanFrom(seen, db, op).Run?
    ensures Careful(db, PlanFrom(seen, db, op).writes)
  {
    OperationIsCareful(if ReadsFirst(op) then seen else db, op);
    if ReadsFirst(op) { NoInvitationIsSet(seen, op); }
  }

  lemma {:induction false} NoInvitationIsSet(seen: Db, op: Op)
    requires ReadsFirst(op) && Plan(seen, op).Run?
    ensures forall w :: w in Plan(seen, op).writes ==> !w.SetInvitation?
  {
  }

  lemma {:induction false} CallIsLater(seen: Db, db: Db, op: Op)
    requires TransfersOk(db)
    ensures Later(db, ExecuteFrom(seen, db, op).0) && TransfersOk(ExecuteFrom(seen, db, op).0)
  {
    if ExecuteFrom(seen, db, op).1.Ok? {
      OldPlanIsCareful(seen, db, op);
      WritesAreLater(db, db, PlanFrom(seen, db, op).writes);
    }
  }

  /** In every run of transactions side by side, decided transfers and closed invitations never change again. */
  lemma {:induction false} DecisionsAreFinal(db: Db, calls: seq<Call>)
    requires TransfersOk(db)
    ensures Later(db, AfterCalls(db, calls)) && TransfersOk(AfterCalls(db, calls))
    decreases |calls|
  {
    if calls != [] {
      var next := ExecuteFrom(calls[0].seen, db, calls[0].op).0;
      CallIsLater(calls[0].seen, db, calls[0].op);
      DecisionsAreFinal(next, calls[1..]);
      LaterIsTransitive(db, next, AfterCalls(db, calls));
    }
  }
}
