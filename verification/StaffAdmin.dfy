/**
 Staff accounts, invitations and ownership (src/admin/staffAdmin.ts, src/admin/ownerBootstrap.ts). An operation reads
 the tables and yields the row writes of its transaction; the writes are applied one by one under the database's own
 guards.
 */
module StaffAdmin {
  import opened Prelude

  type Id = nat
  type Email = nat
  type Token = nat
  type Time = int

  datatype Role = SuperAdmin | Operator | Support | Analyst | FinanceAdmin | Moderator

  datatype User = User(email: Email, role: Role, roleVersion: nat, disabled: bool, mfaRequired: bool)

  datatype RoleChange = RoleChange(user: Id, from: Option<Role>, to: Role, changedBy: Option<Id>)

  datatype Invitation = Invitation(
    email: Email, role: Role, token: Token, invitedBy: Id, expiresAt: Time,
    acceptedAt: Option<Time>, acceptedBy: Option<Id>, revokedAt: Option<Time>)

  datatype TransferStatus = Initiated | Accepted | Cancelled | Expired

  datatype Transfer = Transfer(from: Id, to: Id, expiresAt: Time, status: TransferStatus, decidedAt: Option<Time>)

  datatype Session = Session(owner: Id, revoked: bool)

  datatype Audit = Audit(actor: Option<Id>, action: Action, entity: nat)

  datatype Action =
    | InvitationCreated | InvitationRevoked | InvitationAccepted | RoleChanged | StaffDisabled | StaffEnabled
    | TransferStarted | TransferAccepted | TransferCancelled | OwnerBootstrapped

  datatype Db = Db(
    users: map<Id, User>, history: seq<RoleChange>, invitations: seq<Invitation>, transfers: seq<Transfer>,
    sessions: seq<Session>, audit: seq<Audit>)

  const INVITATION_TTL_MS: Time := 72 * 60 * 60000
  const OWNERSHIP_TRANSFER_TTL_MS: Time := 24 * 60 * 60000

  // ---------------------------------------------------------------- single row writes and the database's guards

  datatype Write =
    | SetRole(user: Id, role: Role, requireMfa: bool)
    | SetDisabled(user: Id, disabled: bool)
    | CreateUser(user: Id, account: User)
    | RevokeSessionsOf(user: Id)
    | AddRoleChange(change: RoleChange)
    | SetInvitation(index: nat, invitation: Invitation)
    | RevokeExpiredInvitations(email: Email, at: Time)
    | AddInvitation(invitation: Invitation)
    | SetTransfer(index: nat, transfer: Transfer)
    | ExpireTransfers(from: Id, at: Time)
    | AddTransfer(transfer: Transfer)
    | AddAudit(entry: Audit)

  datatype DbError = LastOwner | CheckViolated | Duplicate | Missing

  predicate ActiveOwner(users: map<Id, User>, u: Id) {
    u in users && users[u].role == SuperAdmin && !users[u].disabled
  }

  predicate HasOwner(db: Db) { exists u :: u in db.users && ActiveOwner(db.users, u) }

  /** The trigger on accounts: the last active owner is neither demoted nor disabled. */
  predicate OwnerGuard(users: map<Id, User>, u: Id, after: User) {
    ActiveOwner(users, u) && (after.role != SuperAdmin || after.disabled) ==>
      exists v :: v in users && v != u && ActiveOwner(users, v)
  }

  /**
   * The trigger on transfers: a decided one never changes, and who hands over to whom, and until when, is never
   * edited.
   */
  predicate TransferGuard(before: Transfer, after: Transfer) {
    && before.status == Initiated
    && after.from == before.from && after.to == before.to && after.expiresAt == before.expiresAt
  }

  predicate OpenInvitation(i: Invitation) { i.acceptedAt.None? && i.revokedAt.None? }

  predicate IsRedeemable(i: Invitation, at: Time) { OpenInvitation(i) && i.expiresAt > at }

  function UpdateUser(db: Db, u: Id, after: User): Result<Db, DbError> {
    if u !in db.users then Err(Missing)
    else if !OwnerGuard(db.users, u, after) then Err(LastOwner)
    else Ok(db.(users := db.users[u := after]))
  }

  function Apply(db: Db, w: Write): Result<Db, DbError> {
    match w
    case SetRole(u, role, requireMfa) =>
      if u !in db.users then Err(Missing)
      else
        var bump := if db.users[u].role != role then 1 else 0;
        UpdateUser(db, u, User(db.users[u].email, role, db.users[u].roleVersion + bump, db.users[u].disabled,
          db.users[u].mfaRequired || requireMfa))
    case SetDisabled(u, disabled) =>
      if u !in db.users then Err(Missing) else UpdateUser(db, u, db.users[u].(disabled := disabled))
    case CreateUser(u, account) =>
      if u in db.users || (exists v :: v in db.users && db.users[v].email == account.email) then Err(Duplicate)
      else Ok(db.(users := db.users[u := account]))
    case RevokeSessionsOf(u) =>
      Ok(db.(sessions := seq(|db.sessions|, i requires 0 <= i < |db.sessions| =>
        if db.sessions[i].owner == u then db.sessions[i].(revoked := true) else db.sessions[i])))
    case AddRoleChange(change) =>
      if change.from == Some(change.to) then Err(CheckViolated) else Ok(db.(history := db.history + [change]))
    case SetInvitation(i, invitation) =>
      if i >= |db.invitations| then Err(Missing) else Ok(db.(invitations := db.invitations[i := invitation]))
    case RevokeExpiredInvitations(email, at) =>
      Ok(db.(invitations := seq(|db.invitations|, i requires 0 <= i < |db.invitations| =>
        var inv := db.invitations[i];
        if inv.email == email && OpenInvitation(inv) && inv.expiresAt <= at then inv.(revokedAt := Some(at)) else inv)))
    case AddInvitation(invitation) =>
      if exists i :: i in db.invitations && i.email == invitation.email && OpenInvitation(i) then Err(Duplicate)
      else Ok(db.(invitations := db.invitations + [invitation]))
    case SetTransfer(i, transfer) =>
      if i >= |db.transfers| then Err(Missing)
      else if !TransferGuard(db.transfers[i], transfer) then Err(CheckViolated)
      else Ok(db.(transfers := db.transfers[i := transfer]))
    case ExpireTransfers(from, at) =>
      Ok(db.(transfers := seq(|db.transfers|, i requires 0 <= i < |db.transfers| =>
        var t := db.transfers[i];
        if t.from == from && t.status == Initiated && t.expiresAt <= at then
          t.(status := Expired, decidedAt := Some(at)) else t)))
    case AddTransfer(transfer) =>
      if transfer.from == transfer.to then Err(CheckViolated)
      else if exists t :: t in db.transfers && t.from == transfer.from && t.status == Initiated then Err(Duplicate)
      else Ok(db.(transfers := db.transfers + [transfer]))
    case AddAudit(entry) => Ok(db.(audit := db.audit + [entry]))
  }

  function ApplyAll(db: Db, writes: seq<Write>): Result<Db, DbError>
    decreases |writes|
  {
    if writes == [] then Ok(db)
    else
      var next := Apply(db, writes[0]);
      if next.Err? then next else ApplyAll(next.value, writes[1..])
  }

  // ---------------------------------------------------------------- operations

  datatype StaffError =
    | AlreadyStaff | InvitationExists | NotFound | InvitationInvalid | WeakPassword | SelfChange | AccountDisabled
    | NoChange | NotOwner | NotYou | TransferExpired | NotPossible | TransferOpen | LastActiveOwner | DatabaseRefused
    | AlreadyOwner

  datatype Op =
    | CreateInvitation(email: Email, role: Role, token: Token, invitedBy: Id, at: Time)
    | RevokeInvitation(index: nat, who: Id, at: Time)
    | AcceptInvitation(index: nat, seen: Invitation, newId: Id, strongPassword: bool, at: Time)
    | ChangeRole(target: Id, role: Role, who: Id)
    | SetStaffDisabled(target: Id, disabled: bool, who: Id)
    | InitiateTransfer(from: Id, to: Id, at: Time)
    | AcceptTransfer(index: nat, who: Id, at: Time)
    | CancelTransfer(index: nat, who: Id, at: Time)
    | BootstrapOwner(user: Id, account: User)

  /** A transaction: refused before any write, or writes followed by an error thrown inside it or by a commit. */
  datatype Tx = Refuse(error: StaffError) | Run(writes: seq<Write>, thrown: Option<StaffError>)

  /** The invitation is looked up before the transaction; inside it, the claim looks at the row as it is now. */
  function PlanAcceptInvitation(db: Db, index: nat, seen: Invitation, newId: Id, strongPassword: bool, at: Time): Tx {
    if index >= |db.invitations| || !IsRedeemable(seen, at) then Refuse(InvitationInvalid)
    else if !strongPassword then Refuse(WeakPassword)
    else if !IsRedeemable(db.invitations[index], at) then Run([], Some(InvitationInvalid))
    else Run([
      SetInvitation(index, db.invitations[index].(acceptedAt := Some(at), acceptedBy := Some(newId))),
      CreateUser(newId, User(seen.email, seen.role, 1, false, true)),
      AddRoleChange(RoleChange(newId, None, seen.role, Some(seen.invitedBy))),
      AddAudit(Audit(Some(newId), InvitationAccepted, newId))
    ], None)
  }

  function PlanAcceptTransfer(db: Db, index: nat, who: Id, at: Time): Tx {
    if index >= |db.transfers| || db.transfers[index].status != Initiated then Refuse(NotFound)
    else
      var t := db.transfers[index];
      if t.to != who then Refuse(NotYou)
      else if t.expiresAt <= at then
        // written and then thrown away: the error leaves the transaction
        Run([SetTransfer(index, t.(status := Expired, decidedAt := Some(at)))], Some(TransferExpired))
      else if t.from !in db.users || t.to !in db.users || db.users[t.to].disabled then Refuse(NotPossible)
      else
        var promote := [SetRole(t.to, SuperAdmin, false),
            AddRoleChange(RoleChange(t.to, Some(db.users[t.to].role), SuperAdmin, Some(t.from)))];
        var demote := if db.users[t.from].role != SuperAdmin then [] else
          [SetRole(t.from, Operator, false), AddRoleChange(RoleChange(t.from, Some(SuperAdmin), Operator, Some(t.to)))];
        Run(promote + demote + [SetTransfer(index, t.(status := Accepted, decidedAt := Some(at))),
          AddAudit(Audit(Some(t.to), TransferAccepted, index))], None)
  }

  /** The checks of an operation and the writes of its transaction. */
  function Plan(db: Db, op: Op): Tx {
    match op
    case CreateInvitation(email, role, token, invitedBy, at) =>
      if exists u :: u in db.users && db.users[u].email == email then Refuse(AlreadyStaff)
      else Run([
        RevokeExpiredInvitations(email, at),
        AddInvitation(Invitation(email, role, token, invitedBy, at + INVITATION_TTL_MS, None, None, None)),
        AddAudit(Audit(Some(invitedBy), InvitationCreated, |db.invitations|))
      ], None)
    case RevokeInvitation(index, who, at) =>
      if index >= |db.invitations| || !OpenInvitation(db.invitations[index]) then Refuse(NotFound)
      else
        Run([SetInvitation(index, db.invitations[index].(revokedAt := Some(at))),
          AddAudit(Audit(Some(who), InvitationRevoked, index))], None)
    case AcceptInvitation(index, seen, newId, strongPassword, at) =>
      PlanAcceptInvitation(db, index, seen, newId, strongPassword, at)
    case ChangeRole(target, role, who) =>
      if target == who then Refuse(SelfChange)
      else if target !in db.users then Refuse(NotFound)
      else if db.users[target].disabled then Refuse(AccountDisabled)
      else if db.users[target].role == role then Refuse(NoChange)
      else Run([
        SetRole(target, role, false),
        AddRoleChange(RoleChange(target, Some(db.users[target].role), role, Some(who))),
        AddAudit(Audit(Some(who), RoleChanged, target))
      ], None)
    case SetStaffDisabled(target, disabled, who) =>
      if disabled && target == who then Refuse(SelfChange)
      else if target !in db.users then Refuse(NotFound)
      else if db.users[target].disabled == disabled then Refuse(NoChange)
      else if disabled then
        Run([SetDisabled(target, true), RevokeSessionsOf(target), AddAudit(Audit(Some(who), StaffDisabled, target))],
          None)
      else Run([SetDisabled(target, false), AddAudit(Audit(Some(who), StaffEnabled, target))], None)
    case InitiateTransfer(from, to, at) =>
      if !ActiveOwner(db.users, from) then Refuse(NotOwner)
      else if to !in db.users || db.users[to].disabled then Refuse(NotFound)
      else if to == from then Refuse(SelfChange)
      else Run([
        ExpireTransfers(from, at),
        AddTransfer(Transfer(from, to, at + OWNERSHIP_TRANSFER_TTL_MS, Initiated, None)),
        AddAudit(Audit(Some(from), TransferStarted, |db.transfers|))
      ], None)
    case AcceptTransfer(index, who, at) => PlanAcceptTransfer(db, index, who, at)
    case CancelTransfer(index, who, at) =>
      if index >= |db.transfers| || db.transfers[index].status != Initiated then Refuse(NotFound)
      else if db.transfers[index].from != who && db.transfers[index].to != who then Refuse(NotYou)
      else
        Run([SetTransfer(index, db.transfers[index].(status := Cancelled, decidedAt := Some(at))),
          AddAudit(Audit(Some(who), TransferCancelled, index))], None)
    case BootstrapOwner(user, account) =>
      // the account is read before the transaction starts, and that reading is what the history records
      if account.disabled then Refuse(AccountDisabled)
      else if account.role == SuperAdmin then Refuse(AlreadyOwner)
      else Run([
        SetRole(user, SuperAdmin, true),
        AddRoleChange(RoleChange(user, Some(account.role), SuperAdmin, None)),
        AddAudit(Audit(None, OwnerBootstrapped, user))
      ], None)
  }

  function MapError(op: Op, e: DbError): StaffError {
    if e == LastOwner then LastActiveOwner
    else if e == Duplicate && op.CreateInvitation? then InvitationExists
    else if e == Duplicate && op.AcceptInvitation? then AlreadyStaff
    else if e == Duplicate && op.InitiateTransfer? then TransferOpen
    else DatabaseRefused
  }

  /** All or nothing: the writes take effect only if none is refused and nothing is thrown. */
  function Execute(db: Db, op: Op): (Db, Result<(), StaffError>) {
    match Plan(db, op)
    case Refuse(error) => (db, Err(error))
    case Run(writes, thrown) =>
      var end := ApplyAll(db, writes);
      if end.Err? then (db, Err(MapError(op, end.error)))
      else if thrown.Some? then (db, Err(thrown.value))
      else (end.value, Ok(()))
  }

  function After(db: Db, ops: seq<Op>): Db
    decreases |ops|
  {
    if ops == [] then db else After(Execute(db, ops[0]).0, ops[1..])
  }
}
