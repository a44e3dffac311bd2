/**
 * The refresh_tokens table and the five statements the repository runs on it. The map is keyed by
 * the primary key; every statement is confined to the rows of one tenant by the row policy.
 */
module TokenTable {
  import opened Wrappers
  import opened Tokens

  /** The columns tenant_id, user_id and family_id: whose session a row belongs to. */
  datatype Session = Session(tenantId: Uuid, userId: Uuid, familyId: Uuid)

  datatype Row = Row(
    id: Uuid,
    session: Session,
    tokenHash: TokenHash,
    expiresAt: Millis,
    revokedAt: Option<Millis>
  ) {
    predicate Live() {
      revokedAt.None?
    }

    /** The row as it was inserted. */
    function AsCreated(): Row {
      this.(revokedAt := None)
    }

    function Revoke(at: Millis): Row {
      this.(revokedAt := Some(at))
    }
  }

  type Table = map<Uuid, Row>

  /** The primary key holds, and so does the unique index on token_hash. */
  ghost predicate WellFormed(rows: Table) {
    && (forall id :: id in rows ==> rows[id].id == id)
    && (forall i, j :: i in rows && j in rows && rows[i].tokenHash == rows[j].tokenHash ==> i == j)
  }

  predicate Matches(row: Row, tenant: Uuid, hash: TokenHash) {
    row.session.tenantId == tenant && row.tokenHash == hash
  }

  ghost function FindByHash(rows: Table, tenant: Uuid, hash: TokenHash): (found: Option<Row>)
    ensures found.Some? ==>
      exists id :: id in rows && rows[id] == found.value && Matches(found.value, tenant, hash)
    ensures found.None? ==> forall id :: id in rows ==> !Matches(rows[id], tenant, hash)
  {
    if exists id :: id in rows && Matches(rows[id], tenant, hash) then
      var id :| id in rows && Matches(rows[id], tenant, hash);
      Some(rows[id])
    else
      None
  }

  /** The row issue() inserts for a signed token. */
  function NewRow(id: Uuid, session: Session, raw: RawToken): Row
    requires ExpiresAtOf(raw).Some?
  {
    Row(id, session, Sha256(raw), ExpiresAtOf(raw).value, None)
  }

  function Create(rows: Table, row: Row): Table {
    rows[row.id := row]
  }

  /** updateMany where id and revokedAt is null: it matches one row or none. */
  predicate Claimable(rows: Table, tenant: Uuid, id: Uuid) {
    id in rows && rows[id].session.tenantId == tenant && rows[id].Live()
  }

  function Claim(rows: Table, tenant: Uuid, id: Uuid, at: Millis): Table {
    if Claimable(rows, tenant, id) then rows[id := rows[id].Revoke(at)] else rows
  }

  predicate InFamily(row: Row, tenant: Uuid, family: Uuid) {
    row.session.tenantId == tenant && row.session.familyId == family
  }

  function RevokeFamily(rows: Table, tenant: Uuid, family: Uuid, at: Millis): Table {
    map id | id in rows ::
      if InFamily(rows[id], tenant, family) && rows[id].Live() then rows[id].Revoke(at) else rows[id]
  }

  predicate Prunable(row: Row, tenant: Uuid, user: Uuid, at: Millis) {
    row.session.tenantId == tenant && row.session.userId == user && row.expiresAt < at
  }

  function DeleteExpiredForUser(rows: Table, tenant: Uuid, user: Uuid, at: Millis): Table {
    map id | id in rows && !Prunable(rows[id], tenant, user, at) :: rows[id]
  }

  /** The unique index makes the row found the only one with that hash. */
  lemma FoundIsUnique(rows: Table, tenant: Uuid, hash: TokenHash, id: Uuid)
    requires WellFormed(rows)
    requires id in rows && Matches(rows[id], tenant, hash)
    ensures FindByHash(rows, tenant, hash) == Some(rows[id])
  {
  }
}
