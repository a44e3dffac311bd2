/**
 * What the whole calls do, said in the columns of the rows and the claims of the tokens alone: which
 * token is consumed, at which clock reading each test is made, and what is stored.
 */
module CallMeanings {
  import opened Wrappers
  import opened Tokens
  import opened TokenTable
  import SessionCalls
  import SessionProtocol

  /** The token is one of this service's refresh tokens, not past its exp, and this row is its row. */
  ghost predicate Presented(cfg: Config, rows: Table, raw: RawToken, at: Millis, id: Uuid) {
    && raw.Jwt? && raw.signedWith == cfg.refreshSecret && raw.payload.tokenType == Some("refresh")
    && (raw.payload.exp.None? || at < raw.payload.exp.value * 1000)
    && id in rows && rows[id].tokenHash == Sha256(raw) && rows[id].session.tenantId == raw.payload.tenantId
  }

  /** Exactly the unrevoked rows of the family get the revocation time; nothing else changes. */
  ghost predicate FamilyRevoked(rows: Table, rows': Table, tenant: Uuid, family: Uuid, at: Millis) {
    && rows'.Keys == rows.Keys
    && forall id | id in rows ::
         var row := rows[id];
         rows'[id] ==
           if row.session.tenantId == tenant && row.session.familyId == family && row.revokedAt.None?
           then Row(row.id, row.session, row.tokenHash, row.expiresAt, Some(at)) else row
  }

  /** Exactly the user's rows that expired before the given time are gone. */
  ghost predicate Pruned(rows: Table, rows': Table, tenant: Uuid, user: Uuid, at: Millis) {
    && (forall id :: id in rows' <==>
          id in rows &&
          !(rows[id].session.tenantId == tenant && rows[id].session.userId == user && rows[id].expiresAt < at))
    && (forall id | id in rows' :: rows'[id] == rows[id])
  }

  /** The account exists in the session's tenant and is active. */
  ghost predicate MayContinue(users: SessionCalls.Accounts, session: Session) {
    && session.userId in users
    && users[session.userId].tenantId == session.tenantId && users[session.userId].isActive
  }

  // ----- verify and look up -----

  lemma PresentedIff(cfg: Config, rows: Table, raw: RawToken, at: Millis, id: Uuid)
    requires WellFormed(rows)
    ensures Presented(cfg, rows, raw, at, id) <==>
        (TryVerify(cfg, raw, at).Some? && id in rows &&
         FindByHash(rows, raw.payload.tenantId, Sha256(raw)) == Some(rows[id]))
  {
    if TryVerify(cfg, raw, at).Some? || Presented(cfg, rows, raw, at, id) {
      VerifiesIff(cfg, raw, at, raw.payload);
      if id in rows && Matches(rows[id], raw.payload.tenantId, Sha256(raw)) {
        FoundIsUnique(rows, raw.payload.tenantId, Sha256(raw), id);
      }
    }
  }

  lemma FoundIsPresented(cfg: Config, rows: Table, raw: RawToken, at: Millis)
    requires WellFormed(rows) && TryVerify(cfg, raw, at).Some?
    requires FindByHash(rows, raw.payload.tenantId, Sha256(raw)).Some?
    ensures
      var id := FindByHash(rows, raw.payload.tenantId, Sha256(raw)).value.id;
      Presented(cfg, rows, raw, at, id) && FindByHash(rows, raw.payload.tenantId, Sha256(raw)) == Some(rows[id])
  {
    var id :| id in rows && rows[id] == FindByHash(rows, raw.payload.tenantId, Sha256(raw)).value;
    PresentedIff(cfg, rows, raw, at, id);
  }

  // ----- consume -----

  /** consume() accepts the row: unexpired at the check, and unrevoked. */
  ghost predicate Accepts(cfg: Config, rows: Table, raw: RawToken, t: SessionCalls.Times, id: Uuid) {
    Presented(cfg, rows, raw, t.verify, id) && rows[id].expiresAt > t.check && rows[id].revokedAt.None?
  }

  lemma ConsumeOf(cfg: Config, rows: Table, raw: RawToken, t: SessionCalls.Times, id: Uuid)
    requires WellFormed(rows) && Presented(cfg, rows, raw, t.verify, id)
    ensures
      var (rows', consumed) := SessionCalls.Consume(cfg, rows, raw, t);
      var row := rows[id];
      if row.expiresAt <= t.check then consumed.None? && rows' == rows
      else if row.revokedAt.Some? then
        consumed.None? && FamilyRevoked(rows, rows', row.session.tenantId, row.session.familyId, t.write)
      else
        && consumed == Some(row.session)
        && rows' == rows[id := Row(id, row.session, row.tokenHash, row.expiresAt, Some(t.write))]
  {
    PresentedIff(cfg, rows, raw, t.verify, id);
  }

  /**
   * Consuming a token succeeds if and only if its row is unexpired at the check and unrevoked; that
   * row is then revoked at the write. A row that was revoked costs its whole family, at the write. In
   * every other case nothing is consumed and nothing changes.
   */
  lemma ConsumeMeans(cfg: Config, rows: Table, raw: RawToken, t: SessionCalls.Times)
    requires WellFormed(rows)
    ensures
      var (rows', consumed) := SessionCalls.Consume(cfg, rows, raw, t);
      && (consumed.Some? <==> exists id :: Accepts(cfg, rows, raw, t, id))
      && (forall id | Accepts(cfg, rows, raw, t, id) ::
            var row := rows[id];
            && consumed == Some(row.session)
            && rows' == rows[id := Row(id, row.session, row.tokenHash, row.expiresAt, Some(t.write))])
      && (forall id | Presented(cfg, rows, raw, t.verify, id) && rows[id].expiresAt > t.check ::
            rows[id].revokedAt.Some? ==>
              FamilyRevoked(rows, rows', rows[id].session.tenantId, rows[id].session.familyId, t.write))
      && ((forall id | Presented(cfg, rows, raw, t.verify, id) :: rows[id].expiresAt <= t.check) ==> rows' == rows)
  {
    forall id | Presented(cfg, rows, raw, t.verify, id)
      ensures
        var (rows', consumed) := SessionCalls.Consume(cfg, rows, raw, t);
        var row := rows[id];
        if row.expiresAt <= t.check then consumed.None? && rows' == rows
        else if row.revokedAt.Some? then
          consumed.None? && FamilyRevoked(rows, rows', row.session.tenantId, row.session.familyId, t.write)
        else
          && consumed == Some(row.session)
          && rows' == rows[id := Row(id, row.session, row.tokenHash, row.expiresAt, Some(t.write))]
    {
      ConsumeOf(cfg, rows, raw, t, id);
    }
    if SessionCalls.Consume(cfg, rows, raw, t).1.Some? || SessionCalls.Consume(cfg, rows, raw, t).0 != rows {
      FoundIsPresented(cfg, rows, raw, t.verify);
      var id := FindByHash(rows, raw.payload.tenantId, Sha256(raw)).value.id;
      assert SessionCalls.Consume(cfg, rows, raw, t).1.Some? ==> Accepts(cfg, rows, raw, t, id);
    }
  }

  // ----- issue -----

  /**
   * A token is issued unless its exp would be zero: signed at the sign reading, for the session's user
   * and tenant. The prune removes what expired before the prune reading, and the row stored is the
   * token's, live, with its expiry.
   */
  lemma IssueMeans(cfg: Config, rows: Table, session: Session, draw: SessionCalls.Draw, t: SessionCalls.Times)
    requires draw.row !in rows
    ensures
      var (rows', token) := SessionCalls.Issue(cfg, rows, session, draw, t, true);
      var exp := t.sign / 1000 + cfg.lifetime;
      var payload := Payload(session.userId, session.tenantId, Some("refresh"), draw.jti, Some(exp));
      if exp == 0 then token.None? && Pruned(rows, rows', session.tenantId, session.userId, t.prune)
      else
        && token == Some(Jwt(payload, cfg.refreshSecret))
        && draw.row in rows'
        && rows'[draw.row] == Row(draw.row, session, Sha256(token.value), exp * 1000, None)
        && Pruned(rows, rows' - {draw.row}, session.tenantId, session.userId, t.prune)
  {
  }

  // ----- logout -----

  /** A logout revokes the family of the token's row, expired or used as it may be, and nothing else. */
  lemma LogoutMeans(cfg: Config, rows: Table, raw: RawToken, t: SessionCalls.Times)
    requires WellFormed(rows)
    ensures
      var rows' := SessionCalls.Logout(cfg, rows, raw, t);
      && (forall id | Presented(cfg, rows, raw, t.verify, id) ::
            FamilyRevoked(rows, rows', rows[id].session.tenantId, rows[id].session.familyId, t.write))
      && ((forall id :: !Presented(cfg, rows, raw, t.verify, id)) ==> rows' == rows)
  {
    forall id | Presented(cfg, rows, raw, t.verify, id)
      ensures FamilyRevoked(rows, SessionCalls.Logout(cfg, rows, raw, t), rows[id].session.tenantId,
                            rows[id].session.familyId, t.write)
    {
      PresentedIff(cfg, rows, raw, t.verify, id);
    }
    if TryVerify(cfg, raw, t.verify).Some? && FindByHash(rows, raw.payload.tenantId, Sha256(raw)).Some? {
      FoundIsPresented(cfg, rows, raw, t.verify);
    }
  }

  // ----- refresh -----

  /** No row of the family is left unrevoked. */
  ghost predicate Closed(rows: Table, tenant: Uuid, family: Uuid) {
    forall id | id in rows :: rows[id].session.tenantId == tenant && rows[id].session.familyId == family ==>
      rows[id].revokedAt.Some?
  }

  lemma ReusedIsClosed(cfg: Config, rows: Table, users: SessionCalls.Accounts, raw: RawToken, draw: SessionCalls.Draw,
                       t: SessionCalls.Times, id: Uuid)
    requires WellFormed(rows) && Presented(cfg, rows, raw, t.verify, id)
    requires rows[id].expiresAt > t.check && rows[id].revokedAt.Some?
    ensures
      var (rows', token) := SessionCalls.Refresh(cfg, rows, users, raw, draw, t, true);
      token.None? && Closed(rows', rows[id].session.tenantId, rows[id].session.familyId)
  {
    ConsumeOf(cfg, rows, raw, t, id);
  }

  lemma RefreshOf(cfg: Config, rows: Table, users: SessionCalls.Accounts, raw: RawToken, draw: SessionCalls.Draw,
                  t: SessionCalls.Times, id: Uuid)
    requires WellFormed(rows) && Accepts(cfg, rows, raw, t, id) && draw.row !in rows
    ensures
      var (rows', token) := SessionCalls.Refresh(cfg, rows, users, raw, draw, t, true);
      var session := rows[id].session;
      && (token.Some? <==> MayContinue(users, session) && t.sign / 1000 + cfg.lifetime != 0)
      && (!MayContinue(users, session) ==> Closed(rows', session.tenantId, session.familyId))
      && (token.Some? ==>
            draw.row in rows' && rows'[draw.row].session == session && rows'[draw.row].tokenHash == Sha256(token.value))
  {
    ConsumeOf(cfg, rows, raw, t, id);
    IssueMeans(cfg, SessionCalls.Consume(cfg, rows, raw, t).0, rows[id].session, draw, t);
  }

  /**
   * A refresh answers if and only if its token is accepted and its user is in the session's tenant and
   * active. A token that is accepted for any other user, or was used before, closes its family.
   */
  lemma RefreshMeans(cfg: Config, rows: Table, users: SessionCalls.Accounts, raw: RawToken, draw: SessionCalls.Draw,
                     t: SessionCalls.Times)
    requires WellFormed(rows) && draw.row !in rows
    ensures
      var (rows', token) := SessionCalls.Refresh(cfg, rows, users, raw, draw, t, true);
      && (token.Some? <==>
            (exists id :: Accepts(cfg, rows, raw, t, id) && MayContinue(users, rows[id].session)) &&
            t.sign / 1000 + cfg.lifetime != 0)
      && (forall id | Presented(cfg, rows, raw, t.verify, id) && rows[id].expiresAt > t.check ::
            rows[id].revokedAt.Some? ==> Closed(rows', rows[id].session.tenantId, rows[id].session.familyId))
      && (forall id | Accepts(cfg, rows, raw, t, id) ::
            var session := rows[id].session;
            && (!MayContinue(users, session) ==> token.None? && Closed(rows', session.tenantId, session.familyId))
            && (token.Some? ==>
                  && draw.row in rows' && rows'[draw.row].session == session
                  && rows'[draw.row].tokenHash == Sha256(token.value)))
  {
    ConsumeMeans(cfg, rows, raw, t);
    forall id | Presented(cfg, rows, raw, t.verify, id) && rows[id].expiresAt > t.check && rows[id].revokedAt.Some?
      ensures Closed(SessionCalls.Refresh(cfg, rows, users, raw, draw, t, true).0, rows[id].session.tenantId,
                     rows[id].session.familyId)
    {
      ReusedIsClosed(cfg, rows, users, raw, draw, t, id);
    }
    forall id | Accepts(cfg, rows, raw, t, id)
      ensures
        var (rows', token) := SessionCalls.Refresh(cfg, rows, users, raw, draw, t, true);
        var session := rows[id].session;
        && (token.Some? <==> MayContinue(users, session) && t.sign / 1000 + cfg.lifetime != 0)
        && (!MayContinue(users, session) ==> Closed(rows', session.tenantId, session.familyId))
        && (token.Some? ==>
              draw.row in rows' && rows'[draw.row].session == session &&
              rows'[draw.row].tokenHash == Sha256(token.value))
    {
      RefreshOf(cfg, rows, users, raw, draw, t, id);
    }
  }
}
