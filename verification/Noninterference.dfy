/**
 * What one tenant can observe does not depend on what any other tenant does: removing all their
 * transactions from a run leaves its rows and the replies to its transactions as they were.
 */
module Noninterference {
  import opened Wrappers
  import opened Tokens
  import opened TenantIsolation
  import opened PrivateDatabases

  /** The run with all other tenants' transactions removed. */
  ghost function Only(cast: Cast, db: Database, events: seq<Event>, tenant: Uuid): seq<Event>
    decreases |events|
  {
    if events == [] then []
    else
      (if IsFor(cast, db, events[0], tenant) then [events[0]] else []) +
      Only(cast, Step(cast, db, events[0]), events[1..], tenant)
  }

  /** The second database has the tenant's transactions open on the same connections, and no others. */
  ghost predicate SameOpen(cast: Cast, p: Database, q: Database, tenant: Uuid) {
    forall c ::
      var busy := ConnectionAt(p, c).transaction;
      ConnectionAt(q, c).transaction == if busy.Some? && Names(cast, busy.value, tenant) then busy else None
  }

  lemma SameOpenStep(cast: Cast, p: Database, q: Database, e: Event, tenant: Uuid)
    requires SameOpen(cast, p, q, tenant)
    ensures IsFor(cast, p, e, tenant) ==>
        IsFor(cast, q, e, tenant) && SameOpen(cast, Step(cast, p, e), Step(cast, q, e), tenant)
    ensures !IsFor(cast, p, e, tenant) ==> SameOpen(cast, Step(cast, p, e), q, tenant)
  {
    var p', q' := Step(cast, p, e), Step(cast, q, e);
    assert forall c :: c != e.on ==> ConnectionAt(p', c) == ConnectionAt(p, c);
    assert forall c :: c != e.on ==> ConnectionAt(q', c) == ConnectionAt(q, c);
    assert ConnectionAt(q, e.on).transaction.Some? ==>
        ConnectionAt(q, e.on).transaction == ConnectionAt(p, e.on).transaction;
  }

  lemma {:induction false} SameWorks(cast: Cast, p: Database, q: Database, events: seq<Event>, tenant: Uuid)
    requires SameOpen(cast, p, q, tenant)
    ensures WorksOf(cast, q, Only(cast, p, events, tenant), tenant) == WorksOf(cast, p, events, tenant)
    decreases |events|
  {
    if events == [] {
    } else {
      var e := events[0];
      var rest := Only(cast, Step(cast, p, e), events[1..], tenant);
      SameOpenStep(cast, p, q, e, tenant);
      if IsFor(cast, p, e, tenant) {
        SameWorks(cast, Step(cast, p, e), Step(cast, q, e), events[1..], tenant);
        assert ([e] + rest)[1..] == rest;
      } else {
        SameWorks(cast, Step(cast, p, e), q, events[1..], tenant);
        assert [] + rest == rest;
        assert WorksOf(cast, p, events, tenant) == WorksOf(cast, Step(cast, p, e), events[1..], tenant);
      }
    }
  }

  lemma {:induction false} OnlyKeepsTo(cast: Cast, owners: Owners, db: Database, events: seq<Event>, tenant: Uuid)
    requires AllKeepTo(owners, events)
    ensures AllKeepTo(owners, Only(cast, db, events, tenant))
    decreases |events|
  {
    if events == [] {
    } else {
      OnlyKeepsTo(cast, owners, Step(cast, db, events[0]), events[1..], tenant);
    }
  }

  /**
   * In every interleaving over pooled connections, the tenant's rows and the replies to its
   * transactions are those of the run with every other tenant's transactions removed.
   */
  lemma TenantsDoNotInterfere(cast: Cast, owners: Owners, rows: Rows, events: seq<Event>, tenant: Uuid)
    requires Partitioned(owners, rows) && AllKeepTo(owners, events)
    ensures
      var whole := Run(cast, Init(rows), events);
      var own := Run(cast, Init(rows), Only(cast, Init(rows), events, tenant));
      && OfTenant(whole.rows, tenant) == OfTenant(own.rows, tenant)
      && RepliesTo(cast, whole.log, tenant) == RepliesTo(cast, own.log, tenant)
  {
    var only := Only(cast, Init(rows), events, tenant);
    OnlyKeepsTo(cast, owners, Init(rows), events, tenant);
    SameWorks(cast, Init(rows), Init(rows), events, tenant);
    PoliciesGivePrivateDatabases(cast, owners, rows, events, tenant);
    PoliciesGivePrivateDatabases(cast, owners, rows, only, tenant);
  }

  // ----- the assumption on ids is needed -----

  function Once(s: Statement): Callback {
    Callback((replies: seq<Reply>) => Do(s), 1)
  }

  function Colliding(on: ConnectionId, text: string, tenant: Uuid, key: string): seq<Event> {
    [Begin(on, text), Work(on, Once(Insert(Record(7, tenant, key, ""))))]
  }

  lemma InsertOnce(rows: Rows, record: Record)
    ensures
      Transact(Tenant(record.tenantId), rows, rows, Once(Insert(record)), []) ==
        if Conflicts(rows, record) then (rows, [Failed]) else (rows[record.id := record], [Changed({record.id})])
  {
    var (rows', reply) := Execute(Tenant(record.tenantId), rows, Insert(record));
    assert [] + [reply] == [reply];
  }

  /** One transaction that inserts row 7, on an idle connection. */
  lemma CollidingRun(cast: Cast, db: Database, on: ConnectionId, text: string, tenant: Uuid, key: string)
    requires text != "" && cast(text) == Some(tenant) && ConnectionAt(db, on).transaction.None?
    ensures
      var record := Record(7, tenant, key, "");
      var reply := if Conflicts(db.rows, record) then [Failed] else [Changed({7})];
      var end := Run(cast, db, Colliding(on, text, tenant, key));
      && end.log == db.log + [(text, reply)]
      && end.rows == (if Conflicts(db.rows, record) then db.rows else db.rows[7 := record])
      && forall c :: c != on ==> ConnectionAt(end, c) == ConnectionAt(db, c)
  {
    var events := Colliding(on, text, tenant, key);
    InsertOnce(db.rows, Record(7, tenant, key, ""));
    var s1 := Step(cast, db, events[0]);
    var s2 := Step(cast, s1, events[1]);
    assert events[1..] == [events[1]] && [events[1]][1..] == [];
    assert Run(cast, db, events) == Run(cast, s1, [events[1]]) == Run(cast, s2, []);
  }

  lemma {:induction false} RunAppend(cast: Cast, db: Database, before: seq<Event>, after: seq<Event>)
    ensures Run(cast, db, before + after) == Run(cast, Run(cast, db, before), after)
    decreases |before|
  {
    if before == [] {
      assert before + after == after;
    } else {
      assert (before + after)[1..] == before[1..] + after;
      RunAppend(cast, Step(cast, db, before[0]), before[1..], after);
    }
  }

  lemma {:induction false} OnlyAppend(cast: Cast, db: Database, before: seq<Event>, after: seq<Event>, tenant: Uuid)
    ensures Only(cast, db, before + after, tenant) ==
        Only(cast, db, before, tenant) + Only(cast, Run(cast, db, before), after, tenant)
    decreases |before|
  {
    if before == [] {
      assert before + after == after;
    } else {
      assert (before + after)[1..] == before[1..] + after;
      OnlyAppend(cast, Step(cast, db, before[0]), before[1..], after, tenant);
    }
  }

  /** A transaction stays in a tenant's own run as a whole or not at all. */
  lemma OnlyColliding(cast: Cast, db: Database, on: ConnectionId, text: string, tenant: Uuid, key: string, own: Uuid)
    requires text != "" && cast(text) == Some(tenant) && ConnectionAt(db, on).transaction.None?
    ensures
      var events := Colliding(on, text, tenant, key);
      Only(cast, db, events, own) == if tenant == own then events else []
  {
    var events := Colliding(on, text, tenant, key);
    var s1 := Step(cast, db, events[0]);
    var s2 := Step(cast, s1, events[1]);
    assert events[1..] == [events[1]] && [events[1]][1..] == [];
    assert Only(cast, s2, [], own) == [];
    assert IsFor(cast, db, events[0], own) <==> tenant == own;
    assert IsFor(cast, s1, events[1], own) <==> tenant == own;
    assert Only(cast, s1, [events[1]], own) == if tenant == own then [events[1]] else [];
    assert events == [events[0]] + [events[1]];
  }

  /**
   * A unique constraint looks across tenants, so an insert under an id another tenant holds fails,
   * while the same insert succeeds once that tenant's work is removed.
   */
  lemma SharedIdsInterfere(cast: Cast)
    requires cast("a") == Some(1) && cast("b") == Some(2)
    ensures
      var own := Colliding(1, "b", 2, "y");
      var whole := Colliding(0, "a", 1, "x") + own;
      && Only(cast, Init(map[]), whole, 2) == own
      && RepliesTo(cast, Run(cast, Init(map[]), whole).log, 2) == [[Failed]]
      && RepliesTo(cast, Run(cast, Init(map[]), own).log, 2) == [[Changed({7})]]
  {
    var first, own := Colliding(0, "a", 1, "x"), Colliding(1, "b", 2, "y");
    var start := Init(map[]);
    CollidingRun(cast, start, 0, "a", 1, "x");
    CollidingRun(cast, start, 1, "b", 2, "y");
    var middle := Run(cast, start, first);
    CollidingRun(cast, middle, 1, "b", 2, "y");
    RunAppend(cast, start, first, own);
    OnlyAppend(cast, start, first, own, 2);
    OnlyColliding(cast, start, 0, "a", 1, "x", 2);
    OnlyColliding(cast, middle, 1, "b", 2, "y", 2);
    RepliesPush(cast, [], ("a", [Changed({7})]), 2);
    RepliesPush(cast, middle.log, ("b", [Failed]), 2);
    RepliesPush(cast, [], ("b", [Changed({7})]), 2);
  }
}
