/**
 * The repository as an array of rows updated in place: the double the service's own tests use in
 * place of the database. Each method is proved to be the statement on the keyed table.
 */
module RefreshTokensStore {
  import opened Wrappers
  import opened Tokens
  import opened TokenTable

  ghost predicate DistinctRows(rows: seq<Row>) {
    forall i, j :: 0 <= i < j < |rows| ==> rows[i].id != rows[j].id && rows[i].tokenHash != rows[j].tokenHash
  }

  /** The rows keyed by their ids. */
  function AsTable(rows: seq<Row>): (table: Table)
    requires DistinctRows(rows)
    ensures forall row :: row in rows ==> row.id in table && table[row.id] == row
    ensures forall id :: id in table ==> table[id] in rows && table[id].id == id
  {
    if rows == [] then map[] else
      var last := rows[|rows| - 1];
      AsTable(rows[..|rows| - 1])[last.id := last]
  }

  class RefreshTokensRepository {
    var rows: seq<Row>

    ghost predicate Valid()
      reads this
    {
      DistinctRows(rows)
    }

    ghost function Contents(): Table
      reads this
      requires Valid()
    {
      AsTable(rows)
    }

    lemma ContentsAreWellFormed()
      requires Valid()
      ensures WellFormed(Contents())
    {
    }

    constructor ()
      ensures Valid() && Contents() == map[]
    {
      rows := [];
    }

    method Create(row: Row)
      requires Valid()
      requires forall id :: id in Contents() ==> id != row.id && Contents()[id].tokenHash != row.tokenHash
      modifies this
      ensures Valid() && Contents() == TokenTable.Create(old(Contents()), row)
      ensures rows == old(rows) + [row]
    {
      assert forall other :: other in rows ==> other == Contents()[other.id];
      rows := rows + [row];
    }

    method FindByHash(tenant: Uuid, hash: TokenHash) returns (found: Option<Row>)
      requires Valid()
      ensures found == TokenTable.FindByHash(Contents(), tenant, hash)
      ensures found.Some? ==>
          found.value in rows && found.value.session.tenantId == tenant && found.value.tokenHash == hash
      ensures found.None? ==> forall row | row in rows :: row.session.tenantId != tenant || row.tokenHash != hash
    {
      var i := 0;
      while i < |rows|
        invariant 0 <= i <= |rows|
        invariant forall k :: 0 <= k < i ==> !Matches(rows[k], tenant, hash)
      {
        if Matches(rows[i], tenant, hash) {
          assert Contents()[rows[i].id] == rows[i];
          return Some(rows[i]);
        }
        i := i + 1;
      }
      return None;
    }

    method Claim(tenant: Uuid, id: Uuid, at: Millis) returns (claimed: bool)
      requires Valid()
      modifies this
      ensures Valid() && Contents() == TokenTable.Claim(old(Contents()), tenant, id, at)
      ensures claimed <==> Claimable(old(Contents()), tenant, id)
      ensures claimed ==> exists row | row in old(rows) ::
          row.id == id && row.session.tenantId == tenant && row.revokedAt.None?
      ensures !claimed ==> rows == old(rows) && forall row | row in rows ::
          row.id == id && row.session.tenantId == tenant ==> row.revokedAt.Some?
    {
      var i := 0;
      while i < |rows|
        invariant 0 <= i <= |rows|
        invariant forall k :: 0 <= k < i ==> rows[k].session.tenantId != tenant || rows[k].id != id
      {
        if rows[i].session.tenantId == tenant && rows[i].id == id {
          assert rows[i] in rows && Contents()[id] == rows[i];
          if rows[i].revokedAt.Some? {
            return false;
          }
          UpdatedAt(rows, i, rows[i].Revoke(at));
          rows := rows[i := rows[i].Revoke(at)];
          return true;
        }
        i := i + 1;
      }
      assert forall row :: row in rows ==> row.session.tenantId != tenant || row.id != id;
      return false;
    }

    method RevokeFamily(tenant: Uuid, family: Uuid, at: Millis)
      requires Valid()
      modifies this
      ensures Valid() && Contents() == TokenTable.RevokeFamily(old(Contents()), tenant, family, at)
      ensures |rows| == |old(rows)|
      ensures forall k | 0 <= k < |rows| ::
          var row := old(rows)[k];
          rows[k] ==
            if row.session.tenantId == tenant && row.session.familyId == family && row.revokedAt.None?
            then Row(row.id, row.session, row.tokenHash, row.expiresAt, Some(at)) else row
    {
      var i := 0;
      while i < |rows|
        invariant 0 <= i <= |rows| == |old(rows)|
        invariant forall k :: 0 <= k < i ==> rows[k] == Revoked(old(rows)[k], tenant, family, at)
        invariant forall k :: i <= k < |rows| ==> rows[k] == old(rows)[k]
      {
        if InFamily(rows[i], tenant, family) && rows[i].revokedAt.None? {
          rows := rows[i := rows[i].Revoke(at)];
        }
        i := i + 1;
      }
      MappedTable(old(rows), rows, tenant, family, at);
    }

    method DeleteExpiredForUser(tenant: Uuid, user: Uuid, at: Millis)
      requires Valid()
      modifies this
      ensures Valid() && Contents() == TokenTable.DeleteExpiredForUser(old(Contents()), tenant, user, at)
      ensures forall row :: row in rows <==>
          row in old(rows) &&
          !(row.session.tenantId == tenant && row.session.userId == user && row.expiresAt < at)
    {
      var i := |rows|;
      while i > 0
        invariant 0 <= i <= |rows| && i <= |old(rows)|
        invariant Valid()
        invariant rows[..i] == old(rows)[..i]
        invariant forall row :: row in rows[i..] <==> row in old(rows)[i..] && !Prunable(row, tenant, user, at)
      {
        i := i - 1;
        assert old(rows)[i..] == [old(rows)[i]] + old(rows)[i + 1..];
        assert old(rows)[i] == old(rows)[..i + 1][i] == rows[i];
        if Prunable(rows[i], tenant, user, at) {
          assert (rows[..i] + rows[i + 1..])[i..] == rows[i + 1..];
          rows := rows[..i] + rows[i + 1..];
        } else {
          assert rows[i..] == [rows[i]] + rows[i + 1..];
        }
      }
      assert rows[0..] == rows && old(rows)[0..] == old(rows);
      FilteredTable(old(rows), rows, tenant, user, at);
    }
  }

  function Revoked(row: Row, tenant: Uuid, family: Uuid, at: Millis): Row {
    if InFamily(row, tenant, family) && row.Live() then row.Revoke(at) else row
  }

  /** The keyed table of a list of rows is the only one holding exactly those rows. */
  lemma OnlyTable(rows: seq<Row>, table: Table)
    requires DistinctRows(rows)
    requires forall row :: row in rows ==> row.id in table && table[row.id] == row
    requires forall id :: id in table ==> table[id] in rows && table[id].id == id
    ensures AsTable(rows) == table
  {
  }

  lemma UpdatedRows(rows: seq<Row>, i: nat, row: Row)
    requires DistinctRows(rows) && i < |rows| && row.id == rows[i].id && row.tokenHash == rows[i].tokenHash
    ensures DistinctRows(rows[i := row])
    ensures forall r :: r in rows[i := row] <==> r == row || (r in rows && r.id != row.id)
  {
    var out := rows[i := row];
    forall r | r in out ensures r == row || (r in rows && r.id != row.id) {
      var k :| 0 <= k < |out| && out[k] == r;
    }
    forall r | r in rows && r.id != row.id ensures r in out {
      var k :| 0 <= k < |rows| && rows[k] == r;
      assert out[k] == r;
    }
    assert out[i] == row;
  }

  lemma UpdatedAt(rows: seq<Row>, i: nat, row: Row)
    requires DistinctRows(rows) && i < |rows| && row.id == rows[i].id && row.tokenHash == rows[i].tokenHash
    ensures DistinctRows(rows[i := row]) && AsTable(rows[i := row]) == AsTable(rows)[row.id := row]
  {
    UpdatedRows(rows, i, row);
    OnlyTable(rows[i := row], AsTable(rows)[row.id := row]);
  }

  lemma RowAt(rows: seq<Row>, k: nat)
    requires DistinctRows(rows) && k < |rows|
    ensures rows[k].id in AsTable(rows) && AsTable(rows)[rows[k].id] == rows[k]
  {
    assert rows[k] in rows;
  }

  lemma IndexOf(rows: seq<Row>, id: Uuid) returns (k: nat)
    requires DistinctRows(rows) && id in AsTable(rows)
    ensures k < |rows| && rows[k].id == id && AsTable(rows)[id] == rows[k]
  {
    k :| 0 <= k < |rows| && rows[k] == AsTable(rows)[id];
  }

  lemma MappedRows(rows: seq<Row>, out: seq<Row>, tenant: Uuid, family: Uuid, at: Millis)
    requires DistinctRows(rows) && |out| == |rows|
    requires forall k :: 0 <= k < |rows| ==> out[k] == Revoked(rows[k], tenant, family, at)
    ensures DistinctRows(out)
  {
    assert forall k :: 0 <= k < |rows| ==> out[k].id == rows[k].id && out[k].tokenHash == rows[k].tokenHash;
  }

  lemma MappedAt(rows: seq<Row>, out: seq<Row>, tenant: Uuid, family: Uuid, at: Millis, id: Uuid)
    requires DistinctRows(rows) && DistinctRows(out) && |out| == |rows|
    requires forall k :: 0 <= k < |rows| ==> out[k] == Revoked(rows[k], tenant, family, at)
    ensures id in AsTable(rows) <==> id in AsTable(out)
    ensures id in AsTable(rows) ==> AsTable(out)[id] == Revoked(AsTable(rows)[id], tenant, family, at)
  {
    if id in AsTable(rows) {
      var k := IndexOf(rows, id);
      RowAt(out, k);
    } else if id in AsTable(out) {
      var k := IndexOf(out, id);
      RowAt(rows, k);
    }
  }

  lemma MappedTable(rows: seq<Row>, out: seq<Row>, tenant: Uuid, family: Uuid, at: Millis)
    requires DistinctRows(rows) && |out| == |rows|
    requires forall k :: 0 <= k < |rows| ==> out[k] == Revoked(rows[k], tenant, family, at)
    ensures DistinctRows(out)
    ensures AsTable(out) == TokenTable.RevokeFamily(AsTable(rows), tenant, family, at)
  {
    MappedRows(rows, out, tenant, family, at);
    var before, after := AsTable(rows), AsTable(out);
    forall id ensures id in before <==> id in after
              ensures id in before ==> after[id] == Revoked(before[id], tenant, family, at) {
      MappedAt(rows, out, tenant, family, at, id);
    }
  }

  lemma FilteredTable(rows: seq<Row>, out: seq<Row>, tenant: Uuid, user: Uuid, at: Millis)
    requires DistinctRows(rows) && DistinctRows(out)
    requires forall row :: row in out <==> row in rows && !Prunable(row, tenant, user, at)
    ensures AsTable(out) == TokenTable.DeleteExpiredForUser(AsTable(rows), tenant, user, at)
  {
  }
}
