/** Role history, the last owner, and one-use invitations, over every run of staff operations. */
module StaffSafety {
  import opened Prelude
  import opened StaffAdmin

  // ---------------------------------------------------------------- an active owner after every single row write

  /** There is an owner after each write of a transaction, whether or not a later one fails. */
  predicate OwnerThroughout(db: Db, writes: seq<Write>)
    decreases |writes|
  {
    && HasOwner(db)
    && (writes != [] && Apply(db, writes[0]).Ok? ==> OwnerThroughout(Apply(db, writes[0]).value, writes[1..]))
  }

  lemma {:induction false} WriteKeepsOwner(db: Db, w: Write)
    requires HasOwner(db) && Apply(db, w).Ok?
    ensures HasOwner(Apply(db, w).value)
  {
    var next := Apply(db, w).value;
    var u :| u in db.users && ActiveOwner(db.users, u);
    if !ActiveOwner(next.users, u) {
      var v :| v in db.users && v != u && ActiveOwner(db.users, v);
      assert ActiveOwner(next.users, v);
    }
  }

  lemma {:induction false} WritesKeepOwner(db: Db, writes: seq<Write>)
    requires HasOwner(db)
    ensures OwnerThroughout(db, writes)
    ensures ApplyAll(db, writes).Ok? ==> HasOwner(ApplyAll(db, writes).value)
    decreases |writes|
  {
    if writes != [] && Apply(db, writes[0]).Ok? {
      WriteKeepsOwner(db, writes[0]);
      WritesKeepOwner(Apply(db, writes[0]).value, writes[1..]);
    }
  }

  /** In every run there is an active owner, after every operation and after every single row write inside one. */
  lemma {:induction false} AlwaysAnOwner(db: Db, ops: seq<Op>, op: Op)
    requires HasOwner(db)
    ensures HasOwner(After(db, ops))
    ensures Plan(After(db, ops), op).Run? ==> OwnerThroughout(After(db, ops), Plan(After(db, ops), op).writes)
    decreases |ops|
  {
    if ops == [] {
      if Plan(db, op).Run? { WritesKeepOwner(db, Plan(db, op).writes); }
    } else {
      if Plan(db, ops[0]).Run? { WritesKeepOwner(db, Plan(db, ops[0]).writes); }
      AlwaysAnOwner(Execute(db, ops[0]).0, ops[1..], op);
    }
  }

  // ---------------------------------------------------------------- who needs the guard

  /** A role change or a disabling is refused by the guard exactly when it would take the only active owner away. */
  lemma {:induction false} GuardFiresExactlyWhen(db: Db, op: Op)
    requires (op.ChangeRole? || op.SetStaffDisabled?) && Plan(db, op).Run?
    ensures Execute(db, op).1 == Err(LastActiveOwner) <==>
      && ActiveOwner(db.users, op.target)
      && (op.SetStaffDisabled? ==> op.disabled)
      && forall v :: v in db.users && v != op.target ==> !ActiveOwner(db.users, v)
  {
    var writes := Plan(db, op).writes;
    var first := Apply(db, writes[0]);
    if first.Ok? { TailNeverFails(first.value, writes[1..]); }
  }

  lemma {:induction false} TailNeverFails(db: Db, writes: seq<Write>)
    requires forall w :: w in writes ==>
      w.RevokeSessionsOf? || w.AddAudit? || (w.AddRoleChange? && w.change.from != Some(w.change.to))
    ensures ApplyAll(db, writes).Ok?
    decreases |writes|
  {
    if writes != [] {
      assert writes[0] in writes;
      TailNeverFails(Apply(db, writes[0]).value, writes[1..]);
    }
  }

  /** Transfers are between two different people (an invariant of the table). */
  predicate TransfersOk(db: Db) { forall t :: t in db.transfers ==> t.from != t.to }

  /**
   * Accepting a transfer, its reads still current, never runs into the last-owner guard, in any state: the new owner is
   * in place before the old one steps aside.
   */
  lemma {:induction false} AcceptNeverNeedsTheGuard(db: Db, index: nat, who: Id, at: Time)
    requires TransfersOk(db)
    ensures Execute(db, AcceptTransfer(index, who, at)).1 != Err(LastActiveOwner)
  {
    var op := AcceptTransfer(index, who, at);
    if Plan(db, op).Run? && Plan(db, op).thrown.None? { AcceptRuns(db, index, who, at); }
    else if Plan(db, op).Run? { OneWrite(db, Plan(db, op).writes[0]); }
  }

  /** The writes of an acceptance, one after the other. */
  lemma {:induction false} AcceptRuns(db: Db, index: nat, who: Id, at: Time)
    requires TransfersOk(db) && PlanAcceptTransfer(db, index, who, at).Run?
      && PlanAcceptTransfer(db, index, who, at).thrown.None?
    ensures var t := db.transfers[index];
      var end := ApplyAll(db, PlanAcceptTransfer(db, index, who, at).writes);
      if db.users[t.to].role == SuperAdmin then end == Err(CheckViolated)
      else end.Ok? && ActiveOwner(end.value.users, t.to) && t.from in end.value.users
           && end.value.transfers == db.transfers[index := t.(status := Accepted, decidedAt := Some(at))]
           && end.value.users[t.from].role ==
             (if db.users[t.from].role == SuperAdmin then Operator else db.users[t.from].role)
  {
    var t := db.transfers[index];
    assert t in db.transfers;
    var writes := PlanAcceptTransfer(db, index, who, at).writes;
    var d1 := Apply(db, writes[0]).value;
    assert ActiveOwner(d1.users, t.to);
    var d2 := Apply(d1, writes[1]);
    assert ApplyAll(db, writes) == ApplyAll(d1, writes[1..]);
    assert writes[1..][0] == writes[1];
    if d2.Ok? {
      assert writes[1..][1..] == writes[2..];
      assert ApplyAll(db, writes) == ApplyAll(d2.value, writes[2..]);
      if db.users[t.from].role == SuperAdmin {
        DemoteRuns(d2.value, writes[2..], t.from, t.to, index, t.(status := Accepted, decidedAt := Some(at)));
      } else {
        SettleRuns(d2.value, writes[2..], index, t.(status := Accepted, decidedAt := Some(at)));
      }
    }
  }

  lemma OneWrite(db: Db, w: Write)
    ensures ApplyAll(db, [w]) == Apply(db, w)
  {
    assert [w][1..] == [];
  }

  lemma {:induction false} SettleRuns(db: Db, writes: seq<Write>, index: nat, t: Transfer)
    requires |writes| == 2 && writes[0] == SetTransfer(index, t) && writes[1].AddAudit? && index < |db.transfers|
    requires TransferGuard(db.transfers[index], t)
    ensures ApplyAll(db, writes).Ok?
    ensures ApplyAll(db, writes).value.users == db.users
      && ApplyAll(db, writes).value.transfers == db.transfers[index := t]
  {
    var next := Apply(db, writes[0]).value;
    assert ApplyAll(db, writes) == ApplyAll(next, writes[1..]);
    assert writes[1..] == [writes[1]];
    OneWrite(next, writes[1]);
  }

  lemma {:induction false} DemoteRuns(db: Db, writes: seq<Write>, from: Id, to: Id, index: nat, t: Transfer)
    requires |writes| == 4 && writes[0] == SetRole(from, Operator, false) && writes[1].AddRoleChange?
    requires writes[1].change.from == Some(SuperAdmin) && writes[1].change.to == Operator
    requires writes[2] == SetTransfer(index, t) && writes[3].AddAudit? && index < |db.transfers|
    requires TransferGuard(db.transfers[index], t)
    requires from != to && from in db.users && ActiveOwner(db.users, to)
    ensures ApplyAll(db, writes).Ok?
    ensures var end := ApplyAll(db, writes).value;
      && end.transfers == db.transfers[index := t] && to in end.users && end.users[to] == db.users[to]
      && from in end.users && end.users[from].role == Operator
  {
    var d1 := Apply(db, writes[0]).value;
    assert ApplyAll(db, writes) == ApplyAll(d1, writes[1..]);
    var d2 := Apply(d1, writes[1]).value;
    assert writes[1..][0] == writes[1] && writes[1..][1..] == writes[2..];
    assert ApplyAll(d1, writes[1..]) == ApplyAll(d2, writes[2..]);
    SettleRuns(d2, writes[2..], index, t);
  }

  /**
   * A transfer goes through exactly when it is open, accepted in time by the person named, both accounts are there,
   * theirs is active, and they are not an owner already: then the history row would say "owner to owner", which the
   * table refuses.
   */
  lemma {:induction false} TransferSucceedsExactlyWhen(db: Db, index: nat, who: Id, at: Time)
    requires TransfersOk(db)
    ensures Execute(db, AcceptTransfer(index, who, at)).1.Ok? <==>
      && index < |db.transfers| && db.transfers[index].status == Initiated && db.transfers[index].to == who
        && at < db.transfers[index].expiresAt
      && db.transfers[index].from in db.users && who in db.users && !db.users[who].disabled
        && db.users[who].role != SuperAdmin
  {
    var op := AcceptTransfer(index, who, at);
    if Plan(db, op).Run? && Plan(db, op).thrown.None? { AcceptRuns(db, index, who, at); }
    else if Plan(db, op).Run? { OneWrite(db, Plan(db, op).writes[0]); }
  }

  /** The EXPIRED written by a late acceptance is rolled back with the error: the transfer stays open. */
  lemma LateAcceptanceChangesNothing(db: Db, index: nat, who: Id, at: Time)
    requires index < |db.transfers| && db.transfers[index].status == Initiated && db.transfers[index].to == who
    requires db.transfers[index].expiresAt <= at
    ensures Execute(db, AcceptTransfer(index, who, at)) == (db, Err(TransferExpired))
  {
    OneWrite(db, Plan(db, AcceptTransfer(index, who, at)).writes[0]);
  }
}
