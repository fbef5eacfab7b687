/**
 * Server-side admin sessions (src/admin/adminSessions.ts). Times are milliseconds. A request first reads the row and
 * is judged; the write that notes when the session was last seen lands later, or never, as does everyone else's.
 */
module AdminSessions {
  import opened Prelude

  type Time = int
  type Person = nat

  const TOUCH_INTERVAL_MS := 60_000

  datatype Policy = Policy(idleMs: int, absoluteMs: int, preMfaMs: int, reauthMs: int)

  datatype Session = Session(
    admin: Person,
    createdAt: Time,
    lastSeenAt: Time,
    absoluteExpiresAt: Time,
    mfaVerifiedAt: Option<Time>,
    reauthAt: Option<Time>,
    revokedAt: Option<Time>)

  datatype Reason = NoSuchSession | Revoked | Expired | Idle | MfaTimeout

  datatype Verdict = Accepted | Refused(reason: Reason)

  function Created(admin: Person, policy: Policy, mfaVerified: bool, now: Time): Session {
    var proved := if mfaVerified then Some(now) else None;
    Session(admin, now, now, now + policy.absoluteMs, proved, proved, None)
  }

  function Judge(row: Session, policy: Policy, mfaApplies: bool, now: Time): Verdict {
    if row.revokedAt.Some? then Refused(Revoked)
    else if now >= row.absoluteExpiresAt then Refused(Expired)
    else if now - row.lastSeenAt > policy.idleMs then Refused(Idle)
    else if mfaApplies && row.mfaVerifiedAt.None? && now - row.createdAt > policy.preMfaMs then Refused(MfaTimeout)
    else Accepted
  }

  predicate TouchDue(row: Session, now: Time) { now - row.lastSeenAt >= TOUCH_INTERVAL_MS }

  function Touched(row: Session, at: Time): Session { if row.revokedAt.None? then row.(lastSeenAt := at) else row }

  function Ended(row: Session, at: Time): Session { if row.revokedAt.None? then row.(revokedAt := Some(at)) else row }

  predicate ReauthIsFresh(row: Session, policy: Policy, now: Time) {
    row.reauthAt.Some? && now - row.reauthAt.value <= policy.reauthMs
  }

  /** The table, changed in place. */
  class SessionTable {
    var rows: map<nat, Session>

    constructor ()
      ensures rows == map[]
    {
      rows := map[];
    }

    method CreateAdminSession(id: nat, admin: Person, policy: Policy, mfaVerified: bool, now: Time)
      requires id !in rows
      modifies this
      ensures rows == old(rows)[id := Created(admin, policy, mfaVerified, now)]
    {
      var proved := if mfaVerified then Some(now) else None;
      rows := rows[id := Session(admin, now, now, now + policy.absoluteMs, proved, proved, None)];
    }

    /** The read and the verdict; `touch` says that a write of `now` is on its way. */
    method LoadSession(id: nat, policy: Policy, mfaApplies: bool, now: Time) returns (verdict: Verdict, touch: bool)
      ensures id !in rows ==> verdict == Refused(NoSuchSession) && !touch
      ensures id in rows ==> verdict == Judge(rows[id], policy, mfaApplies, now)
      ensures id in rows ==> (touch <==> verdict.Accepted? && TouchDue(rows[id], now))
    {
      if id !in rows { return Refused(NoSuchSession), false; }
      var row := rows[id];
      if row.revokedAt.Some? { return Refused(Revoked), false; }
      if now >= row.absoluteExpiresAt { return Refused(Expired), false; }
      if now - row.lastSeenAt > policy.idleMs { return Refused(Idle), false; }
      if mfaApplies && row.mfaVerifiedAt.None? && now - row.createdAt > policy.preMfaMs {
        return Refused(MfaTimeout), false;
      }
      return Accepted, now - row.lastSeenAt >= TOUCH_INTERVAL_MS;
    }

    method LandTouch(id: nat, at: Time)
      modifies this
      ensures rows == if id in old(rows) then old(rows)[id := Touched(old(rows)[id], at)] else old(rows)
    {
      if id in rows {
        if rows[id].revokedAt.None? { rows := rows[id := rows[id].(lastSeenAt := at)]; }
      }
    }

    method RevokeAdminSession(id: nat, now: Time) returns (ended: bool)
      modifies this
      ensures rows == if id in old(rows) then old(rows)[id := Ended(old(rows)[id], now)] else old(rows)
      ensures ended <==> id in old(rows) && old(rows)[id].revokedAt.None?
    {
      ended := false;
      if id in rows {
        if rows[id].revokedAt.None? {
          rows := rows[id := rows[id].(revokedAt := Some(now))];
          ended := true;
        }
      }
    }

    /** Ends every live session of one admin but the one to keep, and counts them. */
    method RevokeAllAdminSessions(admin: Person, except: Option<nat>, now: Time) returns (count: nat)
      modifies this
      ensures rows.Keys == old(rows).Keys
      ensures forall id :: id in rows ==>
        rows[id] == if id in old(Living(admin, except)) then Ended(old(rows)[id], now) else old(rows)[id]
      ensures count == |old(Living(admin, except))|
    {
      var left := Living(admin, except);
      ghost var all := left;
      count := 0;
      while left != {}
        invariant left <= all && count == |all| - |left|
        invariant rows.Keys == old(rows).Keys
        invariant forall id :: id in rows ==>
          rows[id] == if id in all - left then Ended(old(rows)[id], now) else old(rows)[id]
        decreases left
      {
        var id :| id in left;
        rows := rows[id := rows[id].(revokedAt := Some(now))];
        left := left - {id};
        count := count + 1;
      }
    }

    function Living(admin: Person, except: Option<nat>): set<nat>
      reads this
    {
      set id | id in rows && rows[id].admin == admin && rows[id].revokedAt.None? && except != Some(id)
    }

    method MarkSessionMfaVerified(id: nat, now: Time)
      requires id in rows
      modifies this
      ensures rows == old(rows)[id := old(rows)[id].(mfaVerifiedAt := Some(now), reauthAt := Some(now))]
    {
      rows := rows[id := rows[id].(mfaVerifiedAt := Some(now), reauthAt := Some(now))];
    }

    method MarkSessionReauth(id: nat, now: Time)
      requires id in rows
      modifies this
      ensures rows == old(rows)[id := old(rows)[id].(reauthAt := Some(now))]
    {
      rows := rows[id := rows[id].(reauthAt := Some(now))];
    }
  }
}
