/**
 * The staff operations on tables that change in place, each inside one transaction (src/admin/staffAdmin.ts,
 * src/admin/ownerBootstrap.ts).
 */
module StaffDesk {
  import opened Prelude
  import opened StaffAdmin

  class Desk {
    var users: map<Id, User>
    var history: seq<RoleChange>
    var invitations: seq<Invitation>
    var transfers: seq<Transfer>
    var sessions: seq<Session>
    var audit: seq<Audit>

    function Now(): Db
      reads this
    {
      Db(users, history, invitations, transfers, sessions, audit)
    }

    method Restore(db: Db)
      modifies this
      ensures Now() == db
    {
      users, history, invitations := db.users, db.history, db.invitations;
      transfers, sessions, audit := db.transfers, db.sessions, db.audit;
    }

    /** Applies the writes in turn; the first one refused, or an error thrown at the end, undoes them all. */
    method Transaction(op: Op, writes: seq<Write>, thrown: Option<StaffError>) returns (r: Result<(), StaffError>)
      modifies this
      ensures var end := ApplyAll(old(Now()), writes);
        (Now(), r) == if end.Err? then (old(Now()), Err(MapError(op, end.error)))
                      else if thrown.Some? then (old(Now()), Err(thrown.value))
                      else (end.value, Ok(()))
    {
      var before := Now();
      var i := 0;
      while i < |writes|
        invariant 0 <= i <= |writes|
        invariant ApplyAll(Now(), writes[i..]) == ApplyAll(before, writes)
      {
        var next := Apply(Now(), writes[i]);
        assert writes[i..][1..] == writes[i + 1..];
        if next.Err? {
          Restore(before);
          return Err(MapError(op, next.error));
        }
        Restore(next.value);
        i := i + 1;
      }
      if thrown.Some? {
        Restore(before);
        return Err(thrown.value);
      }
      return Ok(());
    }

    method ChangeRole(target: Id, role: Role, who: Id) returns (r: Result<(), StaffError>)
      modifies this
      ensures (Now(), r) == Execute(old(Now()), Op.ChangeRole(target, role, who))
    {
      if target == who { return Err(SelfChange); }
      if target !in users { return Err(NotFound); }
      var account := users[target];
      if account.disabled { return Err(AccountDisabled); }
      if account.role == role { return Err(NoChange); }
      r := Transaction(Op.ChangeRole(target, role, who), [
        SetRole(target, role, false),
        AddRoleChange(RoleChange(target, Some(account.role), role, Some(who))),
        AddAudit(Audit(Some(who), RoleChanged, target))
      ], None);
    }

    method SetStaffDisabled(target: Id, disabled: bool, who: Id) returns (r: Result<(), StaffError>)
      modifies this
      ensures (Now(), r) == Execute(old(Now()), Op.SetStaffDisabled(target, disabled, who))
    {
      if disabled && target == who { return Err(SelfChange); }
      if target !in users { return Err(NotFound); }
      if users[target].disabled == disabled { return Err(NoChange); }
      var op := Op.SetStaffDisabled(target, disabled, who);
      if disabled {
        r := Transaction(op, [SetDisabled(target, true), RevokeSessionsOf(target),
          AddAudit(Audit(Some(who), StaffDisabled, target))], None);
      } else {
        r := Transaction(op, [SetDisabled(target, false), AddAudit(Audit(Some(who), StaffEnabled, target))], None);
      }
    }

    method AcceptInvitation(index: nat, seen: Invitation, newId: Id, strongPassword: bool, at: Time)
      returns (r: Result<(), StaffError>)
      modifies this
      ensures (Now(), r) == Execute(old(Now()), Op.AcceptInvitation(index, seen, newId, strongPassword, at))
    {
      if index >= |invitations| || !IsRedeemable(seen, at) { return Err(InvitationInvalid); }
      if !strongPassword { return Err(WeakPassword); }
      var op := Op.AcceptInvitation(index, seen, newId, strongPassword, at);
      if !IsRedeemable(invitations[index], at) {
        r := Transaction(op, [], Some(InvitationInvalid));
      } else {
        r := Transaction(op, [
          SetInvitation(index, invitations[index].(acceptedAt := Some(at), acceptedBy := Some(newId))),
          CreateUser(newId, User(seen.email, seen.role, 1, false, true)),
          AddRoleChange(RoleChange(newId, None, seen.role, Some(seen.invitedBy))),
          AddAudit(Audit(Some(newId), InvitationAccepted, newId))
        ], None);
      }
    }

    method AcceptTransfer(index: nat, who: Id, at: Time) returns (r: Result<(), StaffError>)
      modifies this
      ensures (Now(), r) == Execute(old(Now()), Op.AcceptTransfer(index, who, at))
    {
      if index >= |transfers| || transfers[index].status != Initiated { return Err(NotFound); }
      var t := transfers[index];
      if t.to != who { return Err(NotYou); }
      var op := Op.AcceptTransfer(index, who, at);
      if t.expiresAt <= at {
        r := Transaction(op, [SetTransfer(index, t.(status := Expired, decidedAt := Some(at)))], Some(TransferExpired));
        return;
      }
      if t.from !in users || t.to !in users || users[t.to].disabled { return Err(NotPossible); }
      var promote := [SetRole(t.to, SuperAdmin, false),
          AddRoleChange(RoleChange(t.to, Some(users[t.to].role), SuperAdmin, Some(t.from)))];
      var demote := [];
      if users[t.from].role == SuperAdmin {
        demote := [SetRole(t.from, Operator, false),
            AddRoleChange(RoleChange(t.from, Some(SuperAdmin), Operator, Some(t.to)))];
      }
      var settle := [SetTransfer(index, t.(status := Accepted, decidedAt := Some(at))),
        AddAudit(Audit(Some(t.to), TransferAccepted, index))];
      r := Transaction(op, promote + demote + settle, None);
    }

    method CancelTransfer(index: nat, who: Id, at: Time) returns (r: Result<(), StaffError>)
      modifies this
      ensures (Now(), r) == Execute(old(Now()), Op.CancelTransfer(index, who, at))
    {
      if index >= |transfers| || transfers[index].status != Initiated { return Err(NotFound); }
      var t := transfers[index];
      if t.from != who && t.to != who { return Err(NotYou); }
      r := Transaction(Op.CancelTransfer(index, who, at),
        [SetTransfer(index, t.(status := Cancelled, decidedAt := Some(at))),
            AddAudit(Audit(Some(who), TransferCancelled, index))], None);
    }

    method InitiateTransfer(from: Id, to: Id, at: Time) returns (r: Result<(), StaffError>)
      modifies this
      ensures (Now(), r) == Execute(old(Now()), Op.InitiateTransfer(from, to, at))
    {
      if from !in users || users[from].role != SuperAdmin || users[from].disabled { return Err(NotOwner); }
      if to !in users || users[to].disabled { return Err(NotFound); }
      if to == from { return Err(SelfChange); }
      r := Transaction(Op.InitiateTransfer(from, to, at), [
        ExpireTransfers(from, at),
        AddTransfer(Transfer(from, to, at + OWNERSHIP_TRANSFER_TTL_MS, Initiated, None)),
        AddAudit(Audit(Some(from), TransferStarted, |transfers|))
      ], None);
    }

    method CreateInvitation(email: Email, role: Role, token: Token, invitedBy: Id, at: Time)
      returns (r: Result<(), StaffError>)
      modifies this
      ensures (Now(), r) == Execute(old(Now()), Op.CreateInvitation(email, role, token, invitedBy, at))
    {
      if exists u :: u in users && users[u].email == email { return Err(AlreadyStaff); }
      r := Transaction(Op.CreateInvitation(email, role, token, invitedBy, at), [
        RevokeExpiredInvitations(email, at),
        AddInvitation(Invitation(email, role, token, invitedBy, at + INVITATION_TTL_MS, None, None, None)),
        AddAudit(Audit(Some(invitedBy), InvitationCreated, |invitations|))
      ], None);
    }

    method RevokeInvitation(index: nat, who: Id, at: Time) returns (r: Result<(), StaffError>)
      modifies this
      ensures (Now(), r) == Execute(old(Now()), Op.RevokeInvitation(index, who, at))
    {
      if index >= |invitations| || !OpenInvitation(invitations[index]) { return Err(NotFound); }
      r := Transaction(Op.RevokeInvitation(index, who, at),
        [SetInvitation(index, invitations[index].(revokedAt := Some(at))),
            AddAudit(Audit(Some(who), InvitationRevoked, index))], None);
    }

    /** The account is read first; the transaction that follows does not read it again. */
    method BootstrapOwner(user: Id, account: User) returns (r: Result<(), StaffError>)
      modifies this
      ensures (Now(), r) == Execute(old(Now()), Op.BootstrapOwner(user, account))
    {
      if account.disabled { return Err(AccountDisabled); }
      if account.role == SuperAdmin { return Err(AlreadyOwner); }
      r := Transaction(Op.BootstrapOwner(user, account), [
        SetRole(user, SuperAdmin, true),
        AddRoleChange(RoleChange(user, Some(account.role), SuperAdmin, None)),
        AddAudit(Audit(None, OwnerBootstrapped, user))
      ], None);
    }
  }
}
