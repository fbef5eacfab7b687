/** The role history replays to the present, and decided invitations and transfers are final. */
module StaffHistory {
  import opened Prelude
  import opened StaffAdmin
  import opened StaffSafety

  // ---------------------------------------------------------------- replay

  /**
   * The role after replaying a person's rows from their first role; none if a row does not start where the one before
   * ended.
   */
  function Replay(history: seq<RoleChange>, u: Id, start: Option<Role>): Option<Option<Role>> {
    if history == [] then Some(start)
    else if history[0].user != u then Replay(history[1..], u, start)
    else if history[0].from != start then None
    else Replay(history[1..], u, Some(history[0].to))
  }

  /** How often a person's role was changed after the first. */
  function Changes(history: seq<RoleChange>, u: Id): nat {
    if history == [] then 0
    else (if history[0].user == u && history[0].from.Some? then 1 else 0) + Changes(history[1..], u)
  }

  function RoleOf(users: map<Id, User>, u: Id): Option<Role> { if u in users then Some(users[u].role) else None }

  function FirstVersion(seed: map<Id, User>, u: Id): nat { if u in seed then seed[u].roleVersion else 1 }

  /**
   * From the accounts there were at first, every person's rows lead to their role now, and their version counts the
   * changes.
   */
  ghost predicate HistoryOk(db: Db, seed: map<Id, User>) {
    && (forall u: Id :: Replay(db.history, u, RoleOf(seed, u)) == Some(RoleOf(db.users, u)))
    && (forall u :: u in db.users ==> db.users[u].roleVersion == FirstVersion(seed, u) + Changes(db.history, u))
    && (forall u :: u !in db.users ==> Changes(db.history, u) == 0 && u !in seed)
  }

  lemma {:induction false} ReplayAppends(history: seq<RoleChange>, c: RoleChange, u: Id, start: Option<Role>)
    ensures Changes(history + [c], u) == Changes(history, u) + if c.user == u && c.from.Some? then 1 else 0
    ensures var before := Replay(history, u, start);
      Replay(history + [c], u, start)
        == if before.None? || c.user != u then before else if c.from != before.value then None else Some(Some(c.to))
  {
    if history == [] {
      assert history + [c] == [c] && [c][1..] == [];
    } else {
      assert (history + [c])[1..] == history[1..] + [c];
      ReplayAppends(history[1..], c, u, if history[0].user == u then Some(history[0].to) else start);
    }
  }

  /** One account changed together with its row. */
  predicate Moves(db: Db, end: Db, c: RoleChange, after: User) {
    && end.users == db.users[c.user := after] && end.history == db.history + [c]
    && after.role == c.to
    && (c.user in db.users ==> c.from.Some? && after.roleVersion == db.users[c.user].roleVersion + 1)
    && (c.user !in db.users ==> c.from.None? && after.roleVersion == 1)
  }

  lemma {:induction false} MoveKeepsHistory(db: Db, end: Db, seed: map<Id, User>, c: RoleChange, after: User)
    requires HistoryOk(db, seed) && Moves(db, end, c, after)
    requires c.from == RoleOf(db.users, c.user)
    ensures HistoryOk(end, seed)
  {
    forall u: Id ensures Replay(end.history, u, RoleOf(seed, u)) == Some(RoleOf(end.users, u)) {
      ReplayAppends(db.history, c, u, RoleOf(seed, u));
      assert Replay(db.history, u, RoleOf(seed, u)) == Some(RoleOf(db.users, u));
    }
    forall u ensures Changes(end.history, u) == Changes(db.history, u) + if c.user == u && c.from.Some? then 1 else 0 {
      ReplayAppends(db.history, c, u, None);
    }
  }

  /** Roles, versions and history as they were. */
  predicate RolesUntouched(db: Db, end: Db) {
    && end.history == db.history && end.users.Keys == db.users.Keys
    && (forall u :: u in db.users ==>
          end.users[u].role == db.users[u].role && end.users[u].roleVersion == db.users[u].roleVersion)
  }

  lemma {:induction false} UntouchedKeepsHistory(db: Db, end: Db, seed: map<Id, User>)
    requires HistoryOk(db, seed) && RolesUntouched(db, end)
    ensures HistoryOk(end, seed)
  {
    forall u: Id ensures Replay(end.history, u, RoleOf(seed, u)) == Some(RoleOf(end.users, u)) {
      assert Replay(db.history, u, RoleOf(seed, u)) == Some(RoleOf(db.users, u));
    }
  }

  predicate MovesNoRole(w: Write) { !w.SetRole? && !w.CreateUser? && !w.AddRoleChange? }

  lemma {:induction false} OtherWritesTouchNoRole(db: Db, writes: seq<Write>)
    requires (forall w :: w in writes ==> MovesNoRole(w)) && ApplyAll(db, writes).Ok?
    ensures RolesUntouched(db, ApplyAll(db, writes).value)
    decreases |writes|
  {
    if writes != [] {
      assert writes[0] in writes;
      OtherWritesTouchNoRole(Apply(db, writes[0]).value, writes[1..]);
    }
  }

  /** A role set and its row added at the head of a list of writes. */
  predicate StartsWithMove(db: Db, writes: seq<Write>) {
    && |writes| >= 2 && writes[0].SetRole? && writes[1].AddRoleChange?
    && writes[1].change.user == writes[0].user && writes[1].change.to == writes[0].role
    && writes[0].user in db.users && db.users[writes[0].user].role != writes[0].role
    && writes[1].change.from == Some(db.users[writes[0].user].role)
  }

  lemma {:induction false} MoveFirst(db: Db, writes: seq<Write>, seed: map<Id, User>) returns (mid: Db)
    requires HistoryOk(db, seed) && StartsWithMove(db, writes) && ApplyAll(db, writes).Ok?
    ensures HistoryOk(mid, seed) && ApplyAll(db, writes) == ApplyAll(mid, writes[2..])
    ensures mid.users.Keys == db.users.Keys
    ensures forall u :: u in db.users && u != writes[0].user ==> mid.users[u] == db.users[u]
  {
    var first := Apply(db, writes[0]).value;
    mid := Apply(first, writes[1]).value;
    assert writes[1..][0] == writes[1] && writes[1..][1..] == writes[2..];
    MoveKeepsHistory(db, mid, seed, writes[1].change, mid.users[writes[0].user]);
  }

  lemma {:induction false} RestKeepsHistory(db: Db, writes: seq<Write>, seed: map<Id, User>)
    requires HistoryOk(db, seed) && ApplyAll(db, writes).Ok? && forall w :: w in writes ==> MovesNoRole(w)
    ensures HistoryOk(ApplyAll(db, writes).value, seed)
  {
    OtherWritesTouchNoRole(db, writes);
    UntouchedKeepsHistory(db, ApplyAll(db, writes).value, seed);
  }

  lemma {:induction false} OneMoveKeepsHistory(db: Db, writes: seq<Write>, seed: map<Id, User>)
    requires HistoryOk(db, seed) && StartsWithMove(db, writes) && ApplyAll(db, writes).Ok?
    requires forall w :: w in writes[2..] ==> MovesNoRole(w)
    ensures HistoryOk(ApplyAll(db, writes).value, seed)
  {
    var mid := MoveFirst(db, writes, seed);
    RestKeepsHistory(mid, writes[2..], seed);
  }

  lemma {:induction false} TwoMovesKeepHistory(db: Db, writes: seq<Write>, seed: map<Id, User>)
    requires HistoryOk(db, seed) && StartsWithMove(db, writes) && ApplyAll(db, writes).Ok?
    requires |writes| >= 4 && StartsWithMove(db, writes[2..]) && writes[2].user != writes[0].user
    requires forall w :: w in writes[4..] ==> MovesNoRole(w)
    ensures HistoryOk(ApplyAll(db, writes).value, seed)
  {
    var mid := MoveFirst(db, writes, seed);
    assert writes[2..][2..] == writes[4..] && writes[2..][0] == writes[2];
    OneMoveKeepsHistory(mid, writes[2..], seed);
  }

  // ---------------------------------------------------------------- operations

  /** A bootstrap whose reading of the account is still current when its transaction runs. */
  predicate Current(db: Db, op: Op) {
    op.BootstrapOwner? ==> op.user in db.users && db.users[op.user].role == op.account.role
  }

  lemma {:induction false} AcceptTransferKeepsHistory(db: Db, seed: map<Id, User>, index: nat, who: Id, at: Time)
    requires HistoryOk(db, seed) && TransfersOk(db) && Execute(db, AcceptTransfer(index, who, at)).1.Ok?
    ensures HistoryOk(Execute(db, AcceptTransfer(index, who, at)).0, seed)
  {
    var writes := PlanAcceptTransfer(db, index, who, at).writes;
    var t := db.transfers[index];
    assert t in db.transfers;
    AcceptRuns(db, index, who, at);
    if db.users[t.from].role == SuperAdmin {
      assert writes[2..][0] == writes[2] && writes[2..][1] == writes[3];
      assert writes[4..] == [writes[4], writes[5]];
      TwoMovesKeepHistory(db, writes, seed);
    } else {
      assert writes[2..] == [writes[2], writes[3]];
      OneMoveKeepsHistory(db, writes, seed);
    }
  }

  lemma {:induction false} ChangeRoleKeepsHistory(db: Db, seed: map<Id, User>, op: Op)
    requires HistoryOk(db, seed) && op.ChangeRole? && Execute(db, op).1.Ok?
    ensures HistoryOk(Execute(db, op).0, seed)
  {
    var writes := Plan(db, op).writes;
    assert writes[2..] == [writes[2]];
    OneMoveKeepsHistory(db, writes, seed);
  }

  lemma {:induction false} BootstrapKeepsHistory(db: Db, seed: map<Id, User>, op: Op)
    requires HistoryOk(db, seed) && op.BootstrapOwner? && Current(db, op) && Execute(db, op).1.Ok?
    ensures HistoryOk(Execute(db, op).0, seed)
  {
    var writes := Plan(db, op).writes;
    assert writes[2..] == [writes[2]];
    OneMoveKeepsHistory(db, writes, seed);
  }

  lemma {:induction false} AcceptInvitationKeepsHistory(db: Db, seed: map<Id, User>, op: Op)
    requires HistoryOk(db, seed) && op.AcceptInvitation? && Execute(db, op).1.Ok?
    ensures HistoryOk(Execute(db, op).0, seed)
  {
    var writes := Plan(db, op).writes;
    var d1 := Apply(db, writes[0]).value;
    assert ApplyAll(db, writes) == ApplyAll(d1, writes[1..]) && writes[1..][0] == writes[1];
    var d2 := Apply(d1, writes[1]).value;
    assert ApplyAll(d1, writes[1..]) == ApplyAll(d2, writes[2..]) by { assert writes[1..][1..] == writes[2..]; }
    var d3 := Apply(d2, writes[2]).value;
    assert ApplyAll(d2, writes[2..]) == ApplyAll(d3,
        writes[3..]) by { assert writes[2..][0] == writes[2] && writes[2..][1..] == writes[3..]; }
    MoveKeepsHistory(db, d3, seed, writes[2].change, d3.users[op.newId]);
    OtherWritesTouchNoRole(d3, writes[3..]);
    UntouchedKeepsHistory(d3, ApplyAll(d3, writes[3..]).value, seed);
  }

  lemma {:induction false} OtherOperationsKeepHistory(db: Db, seed: map<Id, User>, op: Op)
    requires HistoryOk(db, seed) && Execute(db, op).1.Ok?
    requires !op.AcceptTransfer? && !op.AcceptInvitation? && !op.ChangeRole? && !op.BootstrapOwner?
    ensures HistoryOk(Execute(db, op).0, seed)
  {
    RestKeepsHistory(db, Plan(db, op).writes, seed);
  }

  lemma {:induction false} OperationKeepsHistory(db: Db, seed: map<Id, User>, op: Op)
    requires HistoryOk(db, seed) && TransfersOk(db) && Current(db, op)
    ensures HistoryOk(Execute(db, op).0, seed)
  {
    if Execute(db, op).1.Ok? {
      match op
      case AcceptTransfer(index, who, at) => AcceptTransferKeepsHistory(db, seed, index, who, at);
      case AcceptInvitation(_, _, _, _, _) => AcceptInvitationKeepsHistory(db, seed, op);
      case ChangeRole(_, _, _) => ChangeRoleKeepsHistory(db, seed, op);
      case BootstrapOwner(_, _) => BootstrapKeepsHistory(db, seed, op);
      case _ => OtherOperationsKeepHistory(db, seed, op);
    }
  }

  // ---------------------------------------------------------------- transfers and invitations

  /** Who is invited, as what, by whom and until when. */
  predicate SameOffer(a: Invitation, b: Invitation) {
    a.email == b.email && a.role == b.role && a.invitedBy == b.invitedBy && a.expiresAt == b.expiresAt
  }

  /** A later version of the tables: what was decided stays decided, and who hands over to whom is never edited. */
  predicate Later(db: Db, end: Db) {
    && |db.transfers| <= |end.transfers| && |db.invitations| <= |end.invitations|
    && (forall i :: 0 <= i < |db.transfers| ==>
          && end.transfers[i].from == db.transfers[i].from && end.transfers[i].to == db.transfers[i].to
          && (db.transfers[i].status != Initiated ==> end.transfers[i] == db.transfers[i]))
    && (forall i :: 0 <= i < |db.invitations| ==>
          && SameOffer(end.invitations[i], db.invitations[i])
          && (!OpenInvitation(db.invitations[i]) ==> end.invitations[i] == db.invitations[i]))
  }

  /** A write that leaves closed invitations alone; for transfers a trigger of the database sees to it. */
  predicate Respects(db: Db, w: Write) {
    w.SetInvitation? && w.index < |db.invitations| ==>
      && OpenInvitation(db.invitations[w.index])
      && SameOffer(w.invitation, db.invitations[w.index])
  }

  lemma {:induction false} WriteIsLater(db: Db, w: Write)
    requires Respects(db, w) && Apply(db, w).Ok?
    ensures Later(db, Apply(db, w).value)
    ensures TransfersOk(db) ==> TransfersOk(Apply(db, w).value)
  {
  }

  lemma {:induction false} LaterIsTransitive(a: Db, b: Db, c: Db)
    requires Later(a, b) && Later(b, c)
    ensures Later(a, c)
  {
  }

  predicate LeavesTables(w: Write) {
    !w.SetTransfer? && !w.SetInvitation? && !w.ExpireTransfers? && !w.RevokeExpiredInvitations?
  }

  /** The shape of every transaction: one careful edit of a decided table at most, before anything is added to it. */
  predicate Careful(db: Db, writes: seq<Write>) {
    && (forall w :: w in writes ==> Respects(db, w))
    && (forall i, j :: 0 <= i < j < |writes| ==> LeavesTables(writes[i]) || LeavesTables(writes[j]))
    && (forall i, j :: 0 <= i < j < |writes| && !LeavesTables(writes[j]) ==>
          !writes[i].AddTransfer? && !writes[i].AddInvitation?)
  }

  /** At most one write of a transaction edits a decided table, and it comes where the table is still as it was read. */
  lemma {:induction false} WritesAreLater(db: Db, now: Db, writes: seq<Write>)
    requires now.transfers == db.transfers && now.invitations == db.invitations && TransfersOk(now)
    requires Careful(db, writes) && ApplyAll(now, writes).Ok?
    ensures Later(now, ApplyAll(now, writes).value) && TransfersOk(ApplyAll(now, writes).value)
    decreases |writes|
  {
    if writes != [] {
      var next := Apply(now, writes[0]).value;
      assert writes[0] in writes;
      WriteIsLater(now, writes[0]);
      if LeavesTables(writes[0]) && !writes[0].AddTransfer? && !writes[0].AddInvitation? {
        WritesAreLater(db, next, writes[1..]);
        LaterIsTransitive(now, next, ApplyAll(now, writes).value);
      } else {
        forall w | w in writes[1..] ensures LeavesTables(w) {
          var j :| 0 <= j < |writes[1..]| && writes[1..][j] == w;
          assert writes[j + 1] == w;
        }
        PlainWritesAreLater(next, writes[1..]);
        LaterIsTransitive(now, next, ApplyAll(now, writes).value);
      }
    }
  }

  lemma {:induction false} PlainWritesAreLater(db: Db, writes: seq<Write>)
    requires (forall w :: w in writes ==> LeavesTables(w)) && ApplyAll(db, writes).Ok? && TransfersOk(db)
    ensures Later(db, ApplyAll(db, writes).value) && TransfersOk(ApplyAll(db, writes).value)
    decreases |writes|
  {
    if writes != [] {
      var next := Apply(db, writes[0]).value;
      assert writes[0] in writes;
      WriteIsLater(db, writes[0]);
      PlainWritesAreLater(next, writes[1..]);
      LaterIsTransitive(db, next, ApplyAll(db, writes).value);
    }
  }

  lemma {:induction false} AcceptTransferIsCareful(db: Db, index: nat, who: Id, at: Time)
    requires PlanAcceptTransfer(db, index, who, at).Run?
    ensures Careful(db, PlanAcceptTransfer(db, index, who, at).writes)
  {
    var writes := PlanAcceptTransfer(db, index, who, at).writes;
    assert |writes| == 1 || |writes| == 4 || |writes| == 6;
    forall i | 0 <= i < |writes|
      ensures !LeavesTables(writes[i]) ==> writes[i].SetTransfer? && (|writes| == 1 || i == |writes| - 2)
    {
    }
  }

  lemma {:induction false} OperationIsCareful(db: Db, op: Op)
    requires Plan(db, op).Run?
    ensures Careful(db, Plan(db, op).writes)
  {
    match op
    case AcceptTransfer(index, who, at) => AcceptTransferIsCareful(db, index, who, at);
    case _ =>
  }

  lemma {:induction false} OperationIsLater(db: Db, op: Op)
    requires TransfersOk(db)
    ensures Later(db, Execute(db, op).0) && TransfersOk(Execute(db, op).0)
  {
    if Execute(db, op).1.Ok? {
      OperationIsCareful(db, op);
      WritesAreLater(db, db, Plan(db, op).writes);
    }
  }

  // ---------------------------------------------------------------- every run

  /** Bootstraps in a run act on what they read. */
  predicate AllCurrent(db: Db, ops: seq<Op>)
    decreases |ops|
  {
    ops != [] ==> Current(db, ops[0]) && AllCurrent(Execute(db, ops[0]).0, ops[1..])
  }

  /** In every run of transactions one at a time the role history is unbroken and ends at each person's role. */
  lemma {:induction false} HistoryIsUnbroken(db: Db, seed: map<Id, User>, ops: seq<Op>)
    requires HistoryOk(db, seed) && TransfersOk(db) && AllCurrent(db, ops)
    ensures HistoryOk(After(db, ops), seed)
    decreases |ops|
  {
    if ops != [] {
      OperationKeepsHistory(db, seed, ops[0]);
      OperationIsLater(db, ops[0]);
      HistoryIsUnbroken(Execute(db, ops[0]).0, seed, ops[1..]);
    }
  }

  lemma {:induction false} DecisionsAreFinal(db: Db, ops: seq<Op>)
    requires TransfersOk(db)
    ensures Later(db, After(db, ops)) && TransfersOk(After(db, ops))
    decreases |ops|
  {
    if ops != [] {
      OperationIsLater(db, ops[0]);
      DecisionsAreFinal(Execute(db, ops[0]).0, ops[1..]);
      LaterIsTransitive(db, Execute(db, ops[0]).0, After(db, ops));
    }
  }

  /** An invitation redeemed once is never redeemed again, whatever a second caller had read before. */
  lemma {:induction false} InvitationWorksOnce(db: Db, first: Op, ops: seq<Op>, second: Op)
    requires TransfersOk(db) && first.AcceptInvitation? && second.AcceptInvitation? && first.index == second.index
    requires Execute(db, first).1.Ok?
    ensures !Execute(After(Execute(db, first).0, ops), second).1.Ok?
    ensures var now := After(Execute(db, first).0, ops).invitations;
      first.index < |now| && now[first.index].acceptedBy == Some(first.newId)
  {
    var writes := Plan(db, first).writes;
    var d1 := Apply(db, writes[0]).value;
    var end := Execute(db, first).0;
    OperationIsLater(db, first);
    assert forall w :: w in writes[1..] ==> LeavesTables(w);
    PlainWritesAreLater(d1, writes[1..]);
    assert end.invitations[first.index].acceptedBy == Some(first.newId)
      && !OpenInvitation(end.invitations[first.index]);
    DecisionsAreFinal(end, ops);
  }

  /** A bootstrap keeps the history whole exactly when the role it read is still the role it replaces. */
  lemma {:induction false} BootstrapKeepsHistoryExactlyWhen(db: Db, seed: map<Id, User>, user: Id, account: User)
    requires HistoryOk(db, seed) && TransfersOk(db) && user in db.users
      && Execute(db, BootstrapOwner(user, account)).1.Ok?
    ensures HistoryOk(Execute(db, BootstrapOwner(user, account)).0, seed) <==> db.users[user].role == account.role
  {
    var op := BootstrapOwner(user, account);
    if db.users[user].role == account.role {
      OperationKeepsHistory(db, seed, op);
    } else {
      var writes := Plan(db, op).writes;
      var end := Execute(db, op).0;
      var d1 := Apply(db, writes[0]).value;
      assert ApplyAll(db, writes) == ApplyAll(d1, writes[1..]) && writes[1..][0] == writes[1];
      var d2 := Apply(d1, writes[1]).value;
      assert ApplyAll(d1, writes[1..]) == ApplyAll(d2, writes[2..]) by { assert writes[1..][1..] == writes[2..]; }
      OtherWritesTouchNoRole(d2, writes[2..]);
      ReplayAppends(db.history, writes[1].change, user, RoleOf(seed, user));
      assert Replay(db.history, user, RoleOf(seed, user)) == Some(RoleOf(db.users, user));
    }
  }
}
