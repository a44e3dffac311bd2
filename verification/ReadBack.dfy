/**
 * What a tenant writes, it reads: the rows each statement touches and what they hold afterwards, a
 * later look-up in the same transaction or in a later one, and what is left of a transaction that is
 * rolled back.
 */
module ReadBack {
  import opened Wrappers
  import opened Tokens
  import opened TenantIsolation
  import opened PrivateDatabases
  import opened Noninterference

  // ----- each statement, row by row -----

  /** A look-up finds exactly the tenant's rows that meet the condition. */
  lemma SelectMeans(rows: Rows, tenant: Uuid, where: Record -> bool)
    ensures
      var (rows', reply) := Execute(Tenant(tenant), rows, Select(where));
      && rows' == rows && reply.Found?
      && forall record :: record in reply.records <==>
           exists id :: id in rows && rows[id] == record && record.tenantId == tenant && where(record)
  {
    var reply := Execute(Tenant(tenant), rows, Select(where)).1;
    forall record | exists id :: id in rows && rows[id] == record && record.tenantId == tenant && where(record)
      ensures record in reply.records
    {
      var id :| id in rows && rows[id] == record && record.tenantId == tenant && where(record);
      assert id in Hits(Tenant(tenant), rows, where);
    }
  }

  /** An insert adds the row if it is the tenant's own and its id and key are new, and else fails. */
  lemma InsertMeans(rows: Rows, tenant: Uuid, record: Record)
    ensures
      var (rows', reply) := Execute(Tenant(tenant), rows, Insert(record));
      if record.tenantId == tenant && record.id !in rows && forall id :: id in rows ==> rows[id].key != record.key
      then rows' == rows[record.id := record] && reply == Changed({record.id})
      else rows' == rows && reply == Failed
  {
  }

  /**
   * An update applies its change to exactly the tenant's rows that meet the condition, and to nothing
   * but their data. It fails if it would give such a row to another tenant.
   */
  lemma UpdateMeans(rows: Rows, tenant: Uuid, where: Record -> bool, moved: Option<Uuid>, data: Record -> string)
    ensures
      var (rows', reply) := Execute(Tenant(tenant), rows, UpdateMany(where, moved, data));
      if moved.Some? && moved.value != tenant &&
         exists id :: id in rows && rows[id].tenantId == tenant && where(rows[id])
      then rows' == rows && reply == Failed
      else
        && reply.Changed?
        && (forall id :: id in reply.ids <==> id in rows && rows[id].tenantId == tenant && where(rows[id]))
        && rows'.Keys == rows.Keys
        && forall id | id in rows ::
             rows'[id] == if rows[id].tenantId == tenant && where(rows[id])
                          then Record(rows[id].id, rows[id].tenantId, rows[id].key, data(rows[id])) else rows[id]
  {
    var hits := Hits(Tenant(tenant), rows, where);
    assert forall id :: id in hits <==> id in rows && rows[id].tenantId == tenant && where(rows[id]);
  }

  /** A delete removes exactly the tenant's rows that meet the condition. */
  lemma DeleteMeans(rows: Rows, tenant: Uuid, where: Record -> bool)
    ensures
      var (rows', reply) := Execute(Tenant(tenant), rows, DeleteMany(where));
      && reply.Changed?
      && (forall id :: id in reply.ids <==> id in rows && rows[id].tenantId == tenant && where(rows[id]))
      && (forall id :: id in rows' <==> id in rows && !(rows[id].tenantId == tenant && where(rows[id])))
      && forall id | id in rows' :: rows'[id] == rows[id]
  {
  }

  // ----- reading back -----

  /** The tenant holds this record once the statement has gone through. */
  ghost predicate HeldAfter(rows: Rows, tenant: Uuid, s: Statement, record: Record) {
    match s
    case Select(_) => exists id :: id in rows && rows[id].tenantId == tenant && record == rows[id]
    case Insert(inserted) =>
      record == inserted || exists id :: id in rows && rows[id].tenantId == tenant && record == rows[id]
    case UpdateMany(where, _, data) =>
      exists id :: id in rows && rows[id].tenantId == tenant &&
        record == if where(rows[id])
                  then Record(rows[id].id, rows[id].tenantId, rows[id].key, data(rows[id])) else rows[id]
    case DeleteMany(where) =>
      exists id :: id in rows && rows[id].tenantId == tenant && !where(rows[id]) && record == rows[id]
  }

  lemma HoldsUpdated(rows: Rows, tenant: Uuid, s: Statement, record: Record)
    requires s.UpdateMany? && !Execute(Tenant(tenant), rows, s).1.Failed?
    ensures HeldAfter(rows, tenant, s, record) <==>
        record in OfTenant(Execute(Tenant(tenant), rows, s).0, tenant).Values
  {
    UpdateMeans(rows, tenant, s.where, s.tenantId, s.data);
    var own := OfTenant(Execute(Tenant(tenant), rows, s).0, tenant);
    if HeldAfter(rows, tenant, s, record) {
      var id :| id in rows && rows[id].tenantId == tenant &&
        record == if s.where(rows[id])
                  then Record(rows[id].id, rows[id].tenantId, rows[id].key, s.data(rows[id])) else rows[id];
      assert id in own && own[id] == record;
    }
  }

  lemma HoldsOther(rows: Rows, tenant: Uuid, s: Statement, record: Record)
    requires !s.UpdateMany? && !Execute(Tenant(tenant), rows, s).1.Failed?
    ensures HeldAfter(rows, tenant, s, record) <==>
        record in OfTenant(Execute(Tenant(tenant), rows, s).0, tenant).Values
  {
    var own := OfTenant(Execute(Tenant(tenant), rows, s).0, tenant);
    match s
    case Select(where) =>
      SelectMeans(rows, tenant, where);
      assert forall id :: id in rows && rows[id].tenantId == tenant ==> id in own && own[id] == rows[id];
    case Insert(inserted) =>
      InsertMeans(rows, tenant, inserted);
      assert inserted.id in own && own[inserted.id] == inserted;
      assert forall id :: id in rows && rows[id].tenantId == tenant ==> id in own && own[id] == rows[id];
    case DeleteMany(where) =>
      DeleteMeans(rows, tenant, where);
      assert forall id :: id in rows && rows[id].tenantId == tenant && !where(rows[id]) ==>
          id in own && own[id] == rows[id];
  }

  lemma HoldsWritten(rows: Rows, tenant: Uuid, s: Statement, record: Record)
    requires !Execute(Tenant(tenant), rows, s).1.Failed?
    ensures HeldAfter(rows, tenant, s, record) <==>
        record in OfTenant(Execute(Tenant(tenant), rows, s).0, tenant).Values
  {
    if s.UpdateMany? {
      HoldsUpdated(rows, tenant, s, record);
    } else {
      HoldsOther(rows, tenant, s, record);
    }
  }

  /** What a look-up with this condition replies after the statement. */
  ghost predicate ReadsBack(rows: Rows, tenant: Uuid, s: Statement, where: Record -> bool, reply: Reply) {
    reply.Found? && forall record :: record in reply.records <==> where(record) && HeldAfter(rows, tenant, s, record)
  }

  /** A look-up on any rows of which the tenant's are the ones the statement left. */
  lemma LookupReadsBack(rows: Rows, tenant: Uuid, s: Statement, later: Rows, where: Record -> bool)
    requires !Execute(Tenant(tenant), rows, s).1.Failed?
    requires OfTenant(later, tenant) == OfTenant(Execute(Tenant(tenant), rows, s).0, tenant)
    ensures ReadsBack(rows, tenant, s, where, Execute(Tenant(tenant), later, Select(where)).1)
  {
    var reply := Execute(Tenant(tenant), later, Select(where)).1;
    SelectMeans(later, tenant, where);
    var own := OfTenant(later, tenant);
    forall record ensures record in reply.records <==> where(record) && HeldAfter(rows, tenant, s, record) {
      HoldsWritten(rows, tenant, s, record);
      if record in own.Values {
        var id :| id in own && own[id] == record;
        assert id in later && later[id] == record;
      }
      if record in reply.records {
        var id :| id in later && later[id] == record && record.tenantId == tenant && where(record);
        assert id in own && own[id] == record;
      }
    }
  }

  /** A callback that issues one statement and then another. */
  function Then(first: Statement, second: Statement): Callback {
    Callback((replies: seq<Reply>) => if replies == [] then Do(first) else Do(second), 2)
  }

  /** A look-up in the same transaction finds what the statement before it has written, and it is committed. */
  lemma SameTransactionReadsBack(rows: Rows, tenant: Uuid, s: Statement, where: Record -> bool)
    requires !Execute(Tenant(tenant), rows, s).1.Failed?
    ensures
      var (rows', replies) := Transact(Tenant(tenant), rows, rows, Then(s, Select(where)), []);
      && rows' == Execute(Tenant(tenant), rows, s).0
      && |replies| == 2 && ReadsBack(rows, tenant, s, where, replies[1])
  {
    var (rows1, reply) := Execute(Tenant(tenant), rows, s);
    LookupReadsBack(rows, tenant, s, rows1, where);
    SelectMeans(rows1, tenant, where);
    var work := Then(s, Select(where));
    assert [] + [reply] == [reply];
    assert Transact(Tenant(tenant), rows, rows, work, []) == Transact(Tenant(tenant), rows, rows1, work, [reply]);
    var found := Execute(Tenant(tenant), rows1, Select(where)).1;
    assert Transact(Tenant(tenant), rows, rows1, work, [reply]) ==
      Transact(Tenant(tenant), rows, rows1, work, [reply] + [found]);
  }

  // ----- in a later transaction -----

  /** One transaction of the tenant on an idle connection. */
  lemma TransactionOf(cast: Cast, db: Database, c: ConnectionId, text: string, tenant: Uuid, s: Statement)
    requires ConnectionAt(db, c).transaction.None? && text != "" && cast(text) == Some(tenant)
    ensures
      var (rows, reply) := Execute(Tenant(tenant), db.rows, s);
      var end := Run(cast, db, [Begin(c, text), Work(c, Once(s))]);
      && end.log == db.log + [(text, [reply])]
      && end.rows == (if reply.Failed? then db.rows else rows)
  {
    var events := [Begin(c, text), Work(c, Once(s))];
    var begun := Step(cast, db, events[0]);
    var worked := Step(cast, begun, events[1]);
    WorkByStep(cast, begun, events[1], text);
    OnceMeans(Tenant(tenant), db.rows, s);
    assert events[1..] == [events[1]] && [events[1]][1..] == [];
    assert Run(cast, db, events) == Run(cast, begun, [events[1]]) == Run(cast, worked, []);
  }

  lemma OnceMeans(context: Context, rows: Rows, s: Statement)
    ensures
      var (rows', reply) := Execute(context, rows, s);
      Transact(context, rows, rows, Once(s), []) == (if reply.Failed? then rows else rows', [reply])
  {
    var (rows', reply) := Execute(context, rows, s);
    assert [] + [reply] == [reply];
    assert Transact(context, rows, rows', Once(s), [reply]) == (rows', [reply]);
  }

  lemma NoWorkFirst(cast: Cast, db: Database, events: seq<Event>, tenant: Uuid)
    requires events != [] && WorksOf(cast, db, events, tenant) == []
    ensures !(events[0].Work? && IsFor(cast, db, events[0], tenant))
    ensures WorksOf(cast, Step(cast, db, events[0]), events[1..], tenant) == []
  {
  }

  lemma {:induction false} OthersBetween(cast: Cast, db: Database, events: seq<Event>, tenant: Uuid)
    requires Scoped(db) && WorksOf(cast, db, events, tenant) == []
    ensures OfTenant(Run(cast, db, events).rows, tenant) == OfTenant(db.rows, tenant)
    decreases |events|
  {
    if events == [] {
    } else {
      var e, db' := events[0], Step(cast, db, events[0]);
      ScopedStep(cast, db, e);
      NoWorkFirst(cast, db, events, tenant);
      OtherEvent(cast, db, e, tenant);
      OthersBetween(cast, db', events[1..], tenant);
    }
  }

  /**
   * What a transaction of the tenant has written is what a look-up in its next one finds, on whatever
   * connection, and whatever other tenants' transactions run in between.
   */
  lemma LaterTransactionReadsBack(cast: Cast, db: Database, tenant: Uuid, c: ConnectionId, first: string, s: Statement,
                                  between: seq<Event>, d: ConnectionId, second: string, where: Record -> bool)
    requires Scoped(db) && ConnectionAt(db, c).transaction.None?
    requires first != "" && second != "" && cast(first) == cast(second) == Some(tenant)
    requires
      var written := Run(cast, db, [Begin(c, first), Work(c, Once(s))]);
      && WorksOf(cast, written, between, tenant) == []
      && ConnectionAt(Run(cast, written, between), d).transaction.None?
    requires !Execute(Tenant(tenant), db.rows, s).1.Failed?
    ensures
      var written := Run(cast, db, [Begin(c, first), Work(c, Once(s))]);
      var later := Run(cast, written, between);
      var log := Run(cast, later, [Begin(d, second), Work(d, Once(Select(where)))]).log;
      exists reply :: log == later.log + [(second, [reply])] && ReadsBack(db.rows, tenant, s, where, reply)
  {
    var written := Run(cast, db, [Begin(c, first), Work(c, Once(s))]);
    var later := Run(cast, written, between);
    TransactionOf(cast, db, c, first, tenant, s);
    ScopedRun(cast, db, [Begin(c, first), Work(c, Once(s))]);
    OthersBetween(cast, written, between, tenant);
    TransactionOf(cast, later, d, second, tenant, Select(where));
    LookupReadsBack(db.rows, tenant, s, later.rows, where);
  }

  // ----- rolling back -----

  /**
   * A transaction changes nothing at all unless every statement went through and the callback
   * returned, or had issued all the statements it may.
   */
  lemma {:induction false} AllOrNothing(context: Context, before: Rows, rows: Rows, work: Callback, replies: seq<Reply>)
    requires forall i | 0 <= i < |replies| :: !replies[i].Failed?
    requires |replies| <= work.limit
    ensures
      var (rows', all) := Transact(context, before, rows, work, replies);
      var completed := (forall i | 0 <= i < |all| :: !all[i].Failed?) &&
        (|all| == work.limit || work.next(all).Return?);
      !completed ==> rows' == before
    decreases work.limit - |replies|
  {
    if |replies| < work.limit && work.next(replies).Do? {
      var (rows', reply) := Execute(context, rows, work.next(replies).statement);
      if !reply.Failed? {
        AllOrNothing(context, before, rows', work, replies + [reply]);
      } else {
        var all := replies + [reply];
        assert all[|replies|].Failed?;
      }
    }
  }
}
