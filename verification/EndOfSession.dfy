/**
 * Reuse detection and logout, end to end: a token presented a second time, or handed in at logout,
 * leaves its session without a live row, and for good unless a rotation was in flight.
 */
module EndOfSession {
  import opened Wrappers
  import opened Tokens
  import opened TokenTable
  import opened SessionProtocol
  import opened ProtocolInvariants
  import opened SessionSafety
  import opened Revocation
  import opened SoloRuns
  import SessionCalls

  /** The token verifies, and this is its row. */
  ghost predicate StoredAs(s: State, raw: RawToken, row: Row) {
    var payload := TryVerify(s.cfg, raw, s.now);
    payload.Some? && FindByHash(s.rows, payload.value.tenantId, Sha256(raw)) == Some(row)
  }

  lemma RowOfToken(s: State, raw: RawToken, row: Row) returns (id: Uuid)
    requires Inv(s) && StoredAs(s, raw, row)
    ensures id in s.rows && s.rows[id] == row && row.session.tenantId == raw.payload.tenantId
    ensures GoodRow(s, row.AsCreated())
  {
    id :| id in s.rows && s.rows[id] == row && Matches(row, raw.payload.tenantId, Sha256(raw));
    assert row.AsCreated() in s.created;
  }

  lemma FamilyIsOfTenant(s: State, raw: RawToken, row: Row, id: Uuid)
    requires Inv(s) && StoredAs(s, raw, row)
    requires id in s.rows && s.rows[id].session.familyId == row.session.familyId
    ensures InFamily(s.rows[id], raw.payload.tenantId, row.session.familyId)
  {
    var own := RowOfToken(s, raw, row);
    assert s.rows[id].AsCreated() in s.created && s.rows[own].AsCreated() in s.created;
  }

  /** How a session's family is left: no live row, and dead unless a request is in flight for it. */
  ghost predicate Ended(s: State, end: State, family: Uuid) {
    !HasLiveRow(end, family) && (Dead(end, family) <==> !Held(s, family))
  }

  /** The request is over, the others as they were, and the family revoked. */
  lemma EndsSession(s: State, end: State, r: RequestId, raw: RawToken, row: Row)
    requires Inv(s) && StoredAs(s, raw, row) && r !in s.requests
    requires r in end.requests && end.requests[r] == Done(None) && LeavesOthers(s, end, r)
    requires end.rows == RevokeFamily(s.rows, raw.payload.tenantId, row.session.familyId, s.now)
    ensures Ended(s, end, row.session.familyId)
  {
    var own := RowOfToken(s, raw, row);
    RevokedOutright(s, end.rows, raw, row);
    HeldByOthers(s, end, r, row.session.familyId);
  }

  lemma RevokedOutright(s: State, rows: Table, raw: RawToken, row: Row)
    requires Inv(s) && StoredAs(s, raw, row)
    requires rows == RevokeFamily(s.rows, raw.payload.tenantId, row.session.familyId, s.now)
    ensures forall id :: id in rows && rows[id].session.familyId == row.session.familyId ==> !rows[id].Live()
  {
    forall id | id in rows && rows[id].session.familyId == row.session.familyId ensures !rows[id].Live() {
      FamilyIsOfTenant(s, raw, row, id);
    }
  }

  lemma HeldByOthers(s: State, end: State, r: RequestId, family: Uuid)
    requires r !in s.requests && r in end.requests && end.requests[r] == Done(None) && LeavesOthers(s, end, r)
    ensures Held(end, family) <==> Held(s, family)
  {
    var others := s.requests - {r};
    assert forall q :: q in others ==> q in end.requests - {r} && end.requests[q] == s.requests[q];
    if Held(s, family) {
      var q :| q in s.requests && s.requests[q].InFlight() && s.requests[q].session.familyId == family;
      assert q in others;
    }
    if Held(end, family) {
      var q :| q in end.requests && end.requests[q].InFlight() && end.requests[q].session.familyId == family;
      assert q in end.requests - {r} && q in others;
    }
  }

  /** The whole refresh of a token whose row is revoked revokes the family. */
  lemma ReuseRevokes(s: State, raw: RawToken, row: Row, draw: SessionCalls.Draw)
    requires Inv(s) && StoredAs(s, raw, row) && row.expiresAt > s.now && !row.Live()
    ensures SessionCalls.Refresh(s.cfg, s.rows, s.users, raw, draw, AllAt(s.now), true) ==
        (RevokeFamily(s.rows, raw.payload.tenantId, row.session.familyId, s.now), None)
  {
    var id := RowOfToken(s, raw, row);
  }

  /**
   * From every reachable state, a refresh that runs alone with a token used before answers nothing and
   * leaves the session no live row, and the family dead if and only if no rotation was in flight.
   */
  lemma ReuseEndsSession(s: State, r: RequestId, raw: RawToken, row: Row, uuids: seq<Uuid>)
    requires Reachable(s) && r !in s.requests && |uuids| == 7 && Unused(s, uuids)
    requires StoredAs(s, raw, row) && row.expiresAt > s.now && !row.Live()
    ensures
      var end := Run(Step(s, StartRefresh(r, raw)), Alone(r, uuids));
      && r in end.requests && end.requests[r] == Done(None)
      && Ended(s, end, row.session.familyId)
  {
    ReachableInv(s);
    SoloRefreshIsTheCall(s, r, raw, uuids);
    AloneLeavesOthers(Step(s, StartRefresh(r, raw)), r, uuids);
    assert Step(s, StartRefresh(r, raw)).requests - {r} == s.requests - {r};
    ReuseRevokes(s, raw, row, SessionCalls.Draw(uuids[4], uuids[6]));
    EndsSession(s, Run(Step(s, StartRefresh(r, raw)), Alone(r, uuids)), r, raw, row);
  }

  /** So does a logout that runs alone, whether or not its token was used before. */
  lemma LogoutEndsSession(s: State, r: RequestId, raw: RawToken, row: Row, uuids: seq<Uuid>)
    requires Reachable(s) && r !in s.requests && |uuids| == 2 && Unused(s, uuids)
    requires StoredAs(s, raw, row)
    ensures
      var end := Run(Step(s, StartLogout(r, raw)), Alone(r, uuids));
      && r in end.requests && end.requests[r] == Done(None)
      && Ended(s, end, row.session.familyId)
  {
    ReachableInv(s);
    SoloLogoutIsTheCall(s, r, raw, uuids);
    AloneLeavesOthers(Step(s, StartLogout(r, raw)), r, uuids);
    assert Step(s, StartLogout(r, raw)).requests - {r} == s.requests - {r};
    EndsSession(s, Run(Step(s, StartLogout(r, raw)), Alone(r, uuids)), r, raw, row);
  }
}
