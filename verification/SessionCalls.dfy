/**
 * The same requests taken whole: what a login, refresh or logout does to the table and answers when
 * no other request runs in between. The flag tells whether issue() prunes, so that a store that
 * never deletes can be compared with the one that does.
 */
module SessionCalls {
  import opened Wrappers
  import opened Tokens
  import opened TokenTable
  import SessionProtocol

  type Accounts = map<Uuid, SessionProtocol.Account>

  /** The clock readings of one request, in program order. */
  datatype Times = Times(verify: Millis, check: Millis, write: Millis, sign: Millis, prune: Millis) {
    predicate After(from: Millis) {
      from <= verify <= check <= write <= sign <= prune
    }
  }

  /** The UUIDs a request draws: the token's jti and the new row's id. */
  datatype Draw = Draw(jti: Uuid, row: Uuid)

  /** Neither the row id nor the token of the draw is in the table yet. */
  ghost predicate Unused(rows: Table, draw: Draw) {
    && draw.row !in rows
    && (forall id :: id in rows && rows[id].tokenHash.raw.Jwt? ==> rows[id].tokenHash.raw.payload.jti != draw.jti)
  }

  /** RefreshTokenService.issue; no token when it throws. */
  function Issue(cfg: Config, rows: Table, session: Session, draw: Draw, t: Times, prune: bool)
    : (Table, Option<RawToken>)
  {
    var raw := Sign(cfg, session.userId, session.tenantId, draw.jti, t.sign);
    var kept := if prune then DeleteExpiredForUser(rows, session.tenantId, session.userId, t.prune) else rows;
    if ExpiresAtOf(raw).None? then (kept, None)
    else (TokenTable.Create(kept, NewRow(draw.row, session, raw)), Some(raw))
  }

  /** RefreshTokenService.consume; no session when it throws. */
  ghost function Consume(cfg: Config, rows: Table, raw: RawToken, t: Times): (Table, Option<Session>) {
    match TryVerify(cfg, raw, t.verify)
    case None => (rows, None)
    case Some(payload) =>
      var tenant := payload.tenantId;
      match FindByHash(rows, tenant, Sha256(raw))
      case None => (rows, None)
      case Some(row) =>
        if row.expiresAt <= t.check then (rows, None)
        else if Claimable(rows, tenant, row.id) then
          (TokenTable.Claim(rows, tenant, row.id, t.write), Some(row.session))
        else (TokenTable.RevokeFamily(rows, tenant, row.session.familyId, t.write), None)
  }

  /** What AuthService.refresh does with the outcome of consume(). */
  function Continue(cfg: Config, rows: Table, users: Accounts, consumed: Option<Session>, draw: Draw, t: Times,
                    prune: bool): (Table, Option<RawToken>)
  {
    match consumed
    case None => (rows, None)
    case Some(session) =>
      if SessionProtocol.ActiveInTenant(users, session.userId, session.tenantId)
      then Issue(cfg, rows, session, draw, t, prune)
      else (TokenTable.RevokeFamily(rows, session.tenantId, session.familyId, t.write), None)
  }

  /** AuthService.refresh. */
  ghost function Refresh(cfg: Config, rows: Table, users: Accounts, raw: RawToken, draw: Draw, t: Times, prune: bool)
    : (Table, Option<RawToken>)
  {
    var (claimed, consumed) := Consume(cfg, rows, raw, t);
    Continue(cfg, claimed, users, consumed, draw, t, prune)
  }

  /** RefreshTokenService.revokeSession. */
  ghost function Logout(cfg: Config, rows: Table, raw: RawToken, t: Times): Table {
    match TryVerify(cfg, raw, t.verify)
    case None => rows
    case Some(payload) =>
      match FindByHash(rows, payload.tenantId, Sha256(raw))
      case None => rows
      case Some(row) => TokenTable.RevokeFamily(rows, payload.tenantId, row.session.familyId, t.write)
  }
}
