/**
 * What rotation is for: a refresh that nothing disturbs succeeds exactly when its token is usable and
 * its user active, and then the new token is usable in the same session and the old one no longer is.
 */
module Rotation {
  import opened Wrappers
  import opened Tokens
  import opened TokenTable
  import opened SessionProtocol
  import opened ProtocolInvariants
  import opened SessionSafety
  import opened SoloRuns
  import SessionCalls

  /** The row consume() would accept the token for, if there is one. */
  ghost function AcceptedRow(cfg: Config, rows: Table, raw: RawToken, now: Millis): Option<Row> {
    match TryVerify(cfg, raw, now)
    case None => None
    case Some(payload) =>
      var found := FindByHash(rows, payload.tenantId, Sha256(raw));
      if found.Some? && found.value.expiresAt > now && found.value.Live() then found else None
  }

  lemma UsableIsAccepted(s: State, raw: RawToken)
    ensures Usable(s, raw) <==> AcceptedRow(s.cfg, s.rows, raw, s.now).Some?
    ensures Usable(s, raw) ==>
        FamilyOf(s, raw) == AcceptedRow(s.cfg, s.rows, raw, s.now).value.session.familyId
  {
  }

  /** The session the token is accepted for has an active user. */
  ghost predicate MayRefresh(cfg: Config, rows: Table, users: SessionCalls.Accounts, raw: RawToken, now: Millis) {
    var row := AcceptedRow(cfg, rows, raw, now);
    row.Some? && ActiveInTenant(users, row.value.session.userId, row.value.session.tenantId)
  }

  /** issue() leaves a usable token of the session, and makes no other token usable. */
  lemma IssuedIsAccepted(cfg: Config, rows: Table, session: Session, draw: SessionCalls.Draw, now: Millis)
    requires SessionCalls.Unused(rows, draw) && cfg.lifetime > 0
    ensures
      var (rows', token) := SessionCalls.Issue(cfg, rows, session, draw, AllAt(now), true);
      && token.Some?
      && AcceptedRow(cfg, rows', token.value, now) == Some(NewRow(draw.row, session, token.value))
  {
    var raw := Sign(cfg, session.userId, session.tenantId, draw.jti, now);
    var row := NewRow(draw.row, session, raw);
    var rows' := SessionCalls.Issue(cfg, rows, session, draw, AllAt(now), true).0;
    ExpiryTestsAgree(raw, now);
    assert rows'[draw.row] == row && Matches(row, session.tenantId, Sha256(raw));
    assert forall id :: id in rows' && rows'[id].tokenHash == Sha256(raw) ==> id == draw.row;
  }

  /** A token whose rows are all revoked stays unusable when another is issued. */
  lemma SpentStaysSpent(cfg: Config, rows: Table, session: Session, draw: SessionCalls.Draw, raw: RawToken, now: Millis)
    requires SessionCalls.Unused(rows, draw) && raw.Jwt? && raw.payload.jti != draw.jti
    requires forall id :: id in rows && rows[id].tokenHash == Sha256(raw) ==> !rows[id].Live()
    ensures AcceptedRow(cfg, SessionCalls.Issue(cfg, rows, session, draw, AllAt(now), true).0, raw, now).None?
  {
  }

  lemma ClaimSpends(rows: Table, tenant: Uuid, raw: RawToken, draw: SessionCalls.Draw, now: Millis)
    requires WellFormed(rows) && SessionCalls.Unused(rows, draw) && FindByHash(rows, tenant, Sha256(raw)).Some?
    ensures
      var rows' := TokenTable.Claim(rows, tenant, FindByHash(rows, tenant, Sha256(raw)).value.id, now);
      && SessionCalls.Unused(rows', draw)
      && forall id :: id in rows' && rows'[id].tokenHash == Sha256(raw) ==> !rows'[id].Live()
  {
  }

  lemma RefreshRotates(cfg: Config, rows: Table, users: SessionCalls.Accounts, raw: RawToken,
                       draw: SessionCalls.Draw, now: Millis)
    requires WellFormed(rows) && SessionCalls.Unused(rows, draw)
    requires cfg.lifetime > 0 && MayRefresh(cfg, rows, users, raw, now)
    ensures
      var (rows', token) := SessionCalls.Refresh(cfg, rows, users, raw, draw, AllAt(now), true);
      && token.Some?
      && AcceptedRow(cfg, rows', token.value, now).Some?
      && AcceptedRow(cfg, rows', token.value, now).value.session == AcceptedRow(cfg, rows, raw, now).value.session
      && AcceptedRow(cfg, rows', raw, now).None?
  {
    var row := AcceptedRow(cfg, rows, raw, now).value;
    var tenant := raw.payload.tenantId;
    var claimed := TokenTable.Claim(rows, tenant, row.id, now);
    ClaimSpends(rows, tenant, raw, draw, now);
    assert SessionCalls.Consume(cfg, rows, raw, AllAt(now)) == (claimed, Some(row.session));
    IssuedIsAccepted(cfg, claimed, row.session, draw, now);
    SpentStaysSpent(cfg, claimed, row.session, draw, raw, now);
  }

  lemma RefreshRefuses(cfg: Config, rows: Table, users: SessionCalls.Accounts, raw: RawToken,
                       draw: SessionCalls.Draw, now: Millis)
    requires WellFormed(rows) && !MayRefresh(cfg, rows, users, raw, now)
    ensures SessionCalls.Refresh(cfg, rows, users, raw, draw, AllAt(now), true).1.None?
  {
  }

  lemma ReachableTable(s: State, uuids: seq<Uuid>)
    requires Inv(s) && |uuids| == 7 && Unused(s, uuids)
    ensures WellFormed(s.rows) && SessionCalls.Unused(s.rows, SessionCalls.Draw(uuids[4], uuids[6]))
  {
    TableIsWellFormed(s);
    forall id | id in s.rows
      ensures s.rows[id].tokenHash.raw.Jwt? ==> s.rows[id].tokenHash.raw.payload.jti != uuids[4]
      ensures id != uuids[6]
    {
      assert GoodRow(s, s.rows[id].AsCreated());
    }
  }

  /** How a refresh of the token should leave things: rotated, if it may be, or refused. */
  ghost predicate RefreshedOrRefused(s: State, end: State, r: RequestId, raw: RawToken) {
    && r in end.requests && end.requests[r].Done?
    && (end.requests[r].answer.Some? <==> MayRefresh(s.cfg, s.rows, s.users, raw, s.now))
    && (end.requests[r].answer.Some? ==>
          var next := end.requests[r].answer.value;
          && Usable(s, raw) && Usable(end, next) && !Usable(end, raw)
          && FamilyOf(end, next) == FamilyOf(s, raw))
  }

  lemma EndsRefreshed(s: State, end: State, r: RequestId, raw: RawToken, draw: SessionCalls.Draw)
    requires WellFormed(s.rows) && SessionCalls.Unused(s.rows, draw) && s.cfg.lifetime > 0
    requires end.cfg == s.cfg && end.now == s.now && r in end.requests
    requires
      var (rows, answer) := SessionCalls.Refresh(s.cfg, s.rows, s.users, raw, draw, AllAt(s.now), true);
      end.rows == rows && end.requests[r] == Done(answer)
    ensures RefreshedOrRefused(s, end, r, raw)
  {
    UsableIsAccepted(s, raw);
    if MayRefresh(s.cfg, s.rows, s.users, raw, s.now) {
      RefreshRotates(s.cfg, s.rows, s.users, raw, draw, s.now);
      UsableIsAccepted(end, raw);
      UsableIsAccepted(end, end.requests[r].answer.value);
    } else {
      RefreshRefuses(s.cfg, s.rows, s.users, raw, draw, s.now);
    }
  }

  /**
   * From every reachable state, a refresh that runs alone succeeds if and only if its token is usable
   * and its user active. The new token is then the session's usable one and the old one is spent.
   */
  lemma RefreshAloneSucceedsIff(s: State, r: RequestId, raw: RawToken, uuids: seq<Uuid>)
    requires Reachable(s) && s.cfg.lifetime > 0
    requires r !in s.requests && |uuids| == 7 && Unused(s, uuids)
    ensures RefreshedOrRefused(s, Run(Step(s, StartRefresh(r, raw)), Alone(r, uuids)), r, raw)
  {
    ReachableInv(s);
    ReachableTable(s, uuids);
    SoloRefreshIsTheCall(s, r, raw, uuids);
    AloneLeavesOthers(Step(s, StartRefresh(r, raw)), r, uuids);
    EndsRefreshed(s, Run(Step(s, StartRefresh(r, raw)), Alone(r, uuids)), r, raw,
                  SessionCalls.Draw(uuids[4], uuids[6]));
  }
}
