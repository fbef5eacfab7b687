/** What each staff operation comes to: when it goes through, and every table as it leaves it. */
module StaffOutcomes {
  import opened Prelude
  import opened StaffAdmin
  import opened StaffSafety
  import opened StaffHistory

  // ---------------------------------------------------------------- writes one after the other

  function Then(r: Result<Db, DbError>, w: Write): Result<Db, DbError> { if r.Err? then r else Apply(r.value, w) }

  lemma TwoWrites(db: Db, a: Write, b: Write)
    ensures ApplyAll(db, [a, b]) == Then(Apply(db, a), b)
  {
    assert [a, b][1..] == [b] && [b][1..] == [];
    if Apply(db, a).Ok? { assert ApplyAll(Apply(db, a).value, [b]) == Apply(Apply(db, a).value, b); }
  }

  lemma ThreeWrites(db: Db, a: Write, b: Write, c: Write)
    ensures ApplyAll(db, [a, b, c]) == Then(Then(Apply(db, a), b), c)
  {
    assert [a, b, c][1..] == [b, c];
    if Apply(db, a).Ok? { TwoWrites(Apply(db, a).value, b, c); }
  }

  lemma FourWrites(db: Db, a: Write, b: Write, c: Write, d: Write)
    ensures ApplyAll(db, [a, b, c, d]) == Then(Then(Then(Apply(db, a), b), c), d)
  {
    assert [a, b, c, d][1..] == [b, c, d];
    if Apply(db, a).Ok? { ThreeWrites(Apply(db, a).value, b, c, d); }
  }

  /** Whatever is refused changes nothing. */
  lemma RefusedChangesNothing(db: Db, op: Op)
    requires Execute(db, op).1.Err?
    ensures Execute(db, op).0 == db
  {
  }

  // ---------------------------------------------------------------- invitations

  predicate IsOpen(i: Invitation, at: Time) { i.acceptedAt == None && i.revokedAt == None && at < i.expiresAt }

  predicate HasAccount(users: map<Id, User>, email: Email) { exists u :: u in users && users[u].email == email }

  /**
   * An acceptance goes through exactly when the invitation is open both as it was read and as it is, the password is
   * strong and nobody has the address. The new account has the role that was offered, and the history says who did.
   */
  lemma {:induction false} InvitationAcceptedExactlyWhen(
      db: Db, index: nat, seen: Invitation, newId: Id, strongPassword: bool, at: Time)
    ensures var (end, r) := Execute(db, AcceptInvitation(index, seen, newId, strongPassword, at));
      && (r.Ok? <==>
            && index < |db.invitations| && IsOpen(seen, at) && IsOpen(db.invitations[index], at) && strongPassword
            && newId !in db.users && !HasAccount(db.users, seen.email))
      && (r.Ok? ==>
            end == db.(
              users := db.users[newId := User(seen.email, seen.role, 1, false, true)],
              invitations := db.invitations[index :=
                db.invitations[index].(acceptedAt := Some(at), acceptedBy := Some(newId))],
              history := db.history + [RoleChange(newId, None, seen.role, Some(seen.invitedBy))],
              audit := db.audit + [Audit(Some(newId), InvitationAccepted, newId)]))
  {
    var op := AcceptInvitation(index, seen, newId, strongPassword, at);
    if Plan(db, op).Run? && Plan(db, op).thrown.None? {
      var w := Plan(db, op).writes;
      FourWrites(db, w[0], w[1], w[2], w[3]);
    }
  }

  /** Whatever happens between reading an invitation and accepting it, the account made is the one that was offered. */
  lemma {:induction false} AcceptedAsOffered(
      db: Db, ops: seq<Op>, index: nat, newId: Id, strongPassword: bool, at: Time)
    requires TransfersOk(db) && index < |db.invitations|
    requires var now := After(db, ops);
      Execute(now, AcceptInvitation(index, db.invitations[index], newId, strongPassword, at)).1.Ok?
    ensures var now := After(db, ops); var i := db.invitations[index];
      var end := Execute(now, AcceptInvitation(index, i, newId, strongPassword, at)).0;
      && index < |now.invitations| && SameOffer(now.invitations[index], i)
      && end.users == now.users[newId := User(i.email, i.role, 1, false, true)]
      && end.history == now.history + [RoleChange(newId, None, i.role, Some(i.invitedBy))]
  {
    DecisionsAreFinal(db, ops);
    InvitationAcceptedExactlyWhen(After(db, ops), index, db.invitations[index], newId, strongPassword, at);
  }

  /** The invitations of an address that have run out are closed when a new one is made. */
  predicate ClosedOverdue(before: seq<Invitation>, after: seq<Invitation>, email: Email, at: Time) {
    && |after| == |before|
    && forall i :: 0 <= i < |before| ==>
      after[i] == if before[i].email == email && before[i].acceptedAt == None && before[i].revokedAt == None
                     && before[i].expiresAt <= at
                  then before[i].(revokedAt := Some(at)) else before[i]
  }

  /** An invitation is made exactly for an address without an account and without an open invitation; for three days. */
  lemma {:induction false} InvitationMadeExactlyWhen(
      db: Db, email: Email, role: Role, token: Token, who: Id, at: Time)
    ensures var (end, r) := Execute(db, CreateInvitation(email, role, token, who, at)); var n := |db.invitations|;
      && (r.Ok? <==>
            && !HasAccount(db.users, email)
            && !exists i :: i in db.invitations && i.email == email && IsOpen(i, at))
      && (r.Ok? ==>
            && |end.invitations| == n + 1 && ClosedOverdue(db.invitations, end.invitations[..n], email, at)
            && end.invitations[n] == Invitation(email, role, token, who, at + 72 * 60 * 60 * 1000, None, None, None)
            && end == db.(invitations := end.invitations,
                          audit := db.audit + [Audit(Some(who), InvitationCreated, n)]))
  {
    var op := CreateInvitation(email, role, token, who, at);
    if Plan(db, op).Run? {
      var w := Plan(db, op).writes;
      ThreeWrites(db, w[0], w[1], w[2]);
      var swept := Apply(db, w[0]).value.invitations;
      forall k | 0 <= k < |swept| && OpenInvitation(swept[k]) && swept[k].email == email
        ensures db.invitations[k] in db.invitations && IsOpen(db.invitations[k], at)
      {
      }
      forall k | 0 <= k < |db.invitations| && IsOpen(db.invitations[k], at) ensures swept[k] in swept { }
    }
  }

  lemma {:induction false} InvitationRevokedExactlyWhen(db: Db, index: nat, who: Id, at: Time)
    ensures var (end, r) := Execute(db, RevokeInvitation(index, who, at));
      && (r.Ok? <==>
            && index < |db.invitations|
            && db.invitations[index].acceptedAt == None && db.invitations[index].revokedAt == None)
      && (r.Ok? ==>
            end == db.(invitations := db.invitations[index := db.invitations[index].(revokedAt := Some(at))],
                       audit := db.audit + [Audit(Some(who), InvitationRevoked, index)]))
  {
    var op := RevokeInvitation(index, who, at);
    if Plan(db, op).Run? {
      var w := Plan(db, op).writes;
      TwoWrites(db, w[0], w[1]);
    }
  }

  // ---------------------------------------------------------------- roles and status

  predicate OthersOwn(users: map<Id, User>, u: Id) {
    exists v :: v in users && v != u && users[v].role == SuperAdmin && !users[v].disabled
  }

  /**
   * A role change goes through exactly on an active account of someone else whose role differs, unless it would leave
   * no active owner. The version of the role moves on by one.
   */
  lemma {:induction false} RoleChangedExactlyWhen(db: Db, target: Id, role: Role, who: Id)
    ensures var (end, r) := Execute(db, ChangeRole(target, role, who));
      && (r.Ok? <==>
            && target != who && target in db.users && !db.users[target].disabled && db.users[target].role != role
            && (db.users[target].role == SuperAdmin ==> OthersOwn(db.users, target)))
      && (r.Ok? ==>
            var before := db.users[target];
            end == db.(
              users := db.users[target := before.(role := role, roleVersion := before.roleVersion + 1)],
              history := db.history + [RoleChange(target, Some(before.role), role, Some(who))],
              audit := db.audit + [Audit(Some(who), RoleChanged, target)]))
  {
    var op := ChangeRole(target, role, who);
    if Plan(db, op).Run? {
      var w := Plan(db, op).writes;
      ThreeWrites(db, w[0], w[1], w[2]);
      assert OthersOwn(db.users, target) <==> exists v :: v in db.users && v != target && ActiveOwner(db.users, v);
    }
  }

  /** Exactly the sessions of one person are ended. */
  predicate SessionsEnded(before: seq<Session>, after: seq<Session>, u: Id) {
    && |after| == |before|
    && forall i :: 0 <= i < |before| ==> after[i] == Session(before[i].owner, before[i].revoked || before[i].owner == u)
  }

  /** Disabling an account ends all its sessions with it; nobody disables themselves, nor the only active owner. */
  lemma {:induction false} DisabledExactlyWhen(db: Db, target: Id, who: Id)
    ensures var (end, r) := Execute(db, SetStaffDisabled(target, true, who));
      && (r.Ok? <==>
            && target != who && target in db.users && !db.users[target].disabled
            && (db.users[target].role == SuperAdmin ==> OthersOwn(db.users, target)))
      && (r.Ok? ==>
            && SessionsEnded(db.sessions, end.sessions, target)
            && end == db.(users := db.users[target := db.users[target].(disabled := true)], sessions := end.sessions,
                          audit := db.audit + [Audit(Some(who), StaffDisabled, target)]))
  {
    var op := SetStaffDisabled(target, true, who);
    if Plan(db, op).Run? {
      var w := Plan(db, op).writes;
      ThreeWrites(db, w[0], w[1], w[2]);
      assert OthersOwn(db.users, target) <==> exists v :: v in db.users && v != target && ActiveOwner(db.users, v);
    }
  }

  lemma {:induction false} EnabledExactlyWhen(db: Db, target: Id, who: Id)
    ensures var (end, r) := Execute(db, SetStaffDisabled(target, false, who));
      && (r.Ok? <==> target in db.users && db.users[target].disabled)
      && (r.Ok? ==>
            end == db.(users := db.users[target := db.users[target].(disabled := false)],
                       audit := db.audit + [Audit(Some(who), StaffEnabled, target)]))
  {
    var op := SetStaffDisabled(target, false, who);
    if Plan(db, op).Run? {
      var w := Plan(db, op).writes;
      TwoWrites(db, w[0], w[1]);
    }
  }

  // ---------------------------------------------------------------- ownership

  predicate ClosedLate(before: seq<Transfer>, after: seq<Transfer>, from: Id, at: Time) {
    && |after| == |before|
    && forall i :: 0 <= i < |before| ==>
      after[i] == if before[i].from == from && before[i].status == Initiated && before[i].expiresAt <= at
                  then before[i].(status := Expired, decidedAt := Some(at)) else before[i]
  }

  /** A transfer is started exactly by an active owner, to another active account, with none still open; for a day. */
  lemma {:induction false} TransferStartedExactlyWhen(db: Db, from: Id, to: Id, at: Time)
    ensures var (end, r) := Execute(db, InitiateTransfer(from, to, at)); var n := |db.transfers|;
      && (r.Ok? <==>
            && from in db.users && db.users[from].role == SuperAdmin && !db.users[from].disabled
            && to in db.users && !db.users[to].disabled && to != from
            && !exists t :: t in db.transfers && t.from == from && t.status == Initiated && at < t.expiresAt)
      && (r.Ok? ==>
            && |end.transfers| == n + 1 && ClosedLate(db.transfers, end.transfers[..n], from, at)
            && end.transfers[n] == Transfer(from, to, at + 24 * 60 * 60 * 1000, Initiated, None)
            && end == db.(transfers := end.transfers, audit := db.audit + [Audit(Some(from), TransferStarted, n)]))
  {
    var op := InitiateTransfer(from, to, at);
    if Plan(db, op).Run? {
      var w := Plan(db, op).writes;
      ThreeWrites(db, w[0], w[1], w[2]);
      var swept := Apply(db, w[0]).value.transfers;
      forall k | 0 <= k < |swept| && swept[k].status == Initiated && swept[k].from == from
        ensures db.transfers[k] in db.transfers && at < db.transfers[k].expiresAt
      {
      }
      forall k | 0 <= k < |db.transfers| && at < db.transfers[k].expiresAt ensures swept[k] in swept { }
    }
  }

  function WithRole(u: User, role: Role): User { u.(role := role, roleVersion := u.roleVersion + 1) }

  /** The new owner moves up, the old one down if they still are one, each with a row of history. */
  function HandedOver(db: Db, index: nat, at: Time): Db
    requires index < |db.transfers| && db.transfers[index].from in db.users && db.transfers[index].to in db.users
  {
    var t := db.transfers[index];
    var stepsDown := db.users[t.from].role == SuperAdmin;
    var users := db.users[t.to := WithRole(db.users[t.to], SuperAdmin)];
    var up := RoleChange(t.to, Some(db.users[t.to].role), SuperAdmin, Some(t.from));
    var down := RoleChange(t.from, Some(SuperAdmin), Operator, Some(t.to));
    Db(if stepsDown then users[t.from := WithRole(db.users[t.from], Operator)] else users,
       db.history + if stepsDown then [up, down] else [up],
       db.invitations, db.transfers[index := t.(status := Accepted, decidedAt := Some(at))], db.sessions,
       db.audit + [Audit(Some(t.to), StaffAdmin.Action.TransferAccepted, index)])
  }

  lemma SixWrites(db: Db, a: Write, b: Write, c: Write, d: Write, e: Write, f: Write)
    ensures ApplyAll(db, [a, b, c, d, e, f]) == Then(Then(Then(Then(Then(Apply(db, a), b), c), d), e), f)
  {
    assert [a, b, c, d, e, f][1..] == [b, c, d, e, f] && [b, c, d, e, f][1..] == [c, d, e, f];
    if Apply(db, a).Ok? {
      var next := Apply(db, a).value;
      assert ApplyAll(db, [a, b, c, d, e, f]) == ApplyAll(next, [b, c, d, e, f]);
      if Apply(next, b).Ok? { FourWrites(Apply(next, b).value, c, d, e, f); }
    }
  }

  lemma {:induction false} OwnerStays(db: Db, index: nat, who: Id, at: Time)
    requires TransfersOk(db) && PlanAcceptTransfer(db, index, who, at).Run?
    requires PlanAcceptTransfer(db, index, who, at).thrown.None?
    requires db.users[db.transfers[index].from].role != SuperAdmin
    ensures var end := ApplyAll(db, PlanAcceptTransfer(db, index, who, at).writes);
      end.Ok? ==> end.value == HandedOver(db, index, at)
  {
    assert db.transfers[index] in db.transfers;
    var w := PlanAcceptTransfer(db, index, who, at).writes;
    assert w == [w[0], w[1], w[2], w[3]];
    FourWrites(db, w[0], w[1], w[2], w[3]);
  }

  lemma {:induction false} OwnerStepsDown(db: Db, index: nat, who: Id, at: Time)
    requires TransfersOk(db) && PlanAcceptTransfer(db, index, who, at).Run?
    requires PlanAcceptTransfer(db, index, who, at).thrown.None?
    requires db.users[db.transfers[index].from].role == SuperAdmin
    ensures var end := ApplyAll(db, PlanAcceptTransfer(db, index, who, at).writes);
      end.Ok? ==> end.value == HandedOver(db, index, at)
  {
    var t := db.transfers[index];
    assert t in db.transfers;
    var w := PlanAcceptTransfer(db, index, who, at).writes;
    assert w == [w[0], w[1], w[2], w[3], w[4], w[5]];
    SixWrites(db, w[0], w[1], w[2], w[3], w[4], w[5]);
    var up := Then(Apply(db, w[0]), w[1]);
    if up.Ok? {
      assert up.value.users == db.users[t.to := WithRole(db.users[t.to], SuperAdmin)];
      assert up.value.users[t.from] == db.users[t.from];
    }
  }

  /** An acceptance that goes through hands the ownership over, and settles the transfer with it. */
  lemma TransferHandsOver(db: Db, index: nat, who: Id, at: Time)
    requires TransfersOk(db) && Execute(db, AcceptTransfer(index, who, at)).1.Ok?
    ensures index < |db.transfers| && db.transfers[index].to == who
    ensures who in db.users && db.transfers[index].from in db.users && db.transfers[index].from != who
    ensures Execute(db, AcceptTransfer(index, who, at)).0 == HandedOver(db, index, at)
  {
    var w := Plan(db, AcceptTransfer(index, who, at)).writes;
    assert db.transfers[index] in db.transfers;
    if db.users[db.transfers[index].from].role == SuperAdmin {
      OwnerStepsDown(db, index, who, at);
    } else {
      OwnerStays(db, index, who, at);
    }
  }

  lemma {:induction false} TransferCancelledExactlyWhen(db: Db, index: nat, who: Id, at: Time)
    ensures var (end, r) := Execute(db, CancelTransfer(index, who, at));
      && (r.Ok? <==>
            && index < |db.transfers| && db.transfers[index].status == Initiated
            && who in {db.transfers[index].from, db.transfers[index].to})
      && (r.Ok? ==>
            end == db.(
              transfers := db.transfers[index := db.transfers[index].(status := Cancelled, decidedAt := Some(at))],
              audit := db.audit + [Audit(Some(who), TransferCancelled, index)]))
  {
    var op := CancelTransfer(index, who, at);
    if Plan(db, op).Run? {
      var w := Plan(db, op).writes;
      TwoWrites(db, w[0], w[1]);
    }
  }

  /** The bootstrap makes an account an owner that, when it was read, was active and was none. */
  lemma {:induction false} OwnerBootstrappedExactlyWhen(db: Db, user: Id, account: User)
    ensures var (end, r) := Execute(db, BootstrapOwner(user, account));
      && (r.Ok? <==> !account.disabled && account.role != SuperAdmin && user in db.users)
      && (r.Ok? ==>
            var before := db.users[user];
            end == db.(
              users := db.users[user := before.(role := SuperAdmin, mfaRequired := true,
                roleVersion := before.roleVersion + if before.role == SuperAdmin then 0 else 1)],
              history := db.history + [RoleChange(user, Some(account.role), SuperAdmin, None)],
              audit := db.audit + [Audit(None, OwnerBootstrapped, user)]))
  {
    var op := BootstrapOwner(user, account);
    if Plan(db, op).Run? {
      var w := Plan(db, op).writes;
      ThreeWrites(db, w[0], w[1], w[2]);
    }
  }
}
