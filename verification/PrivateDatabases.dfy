/**
 * What the row policies amount to: each tenant's transactions, however they interleave with the
 * others' over pooled connections, do and answer what they would on a database of its own that has
 * no policies and holds that tenant's rows alone.
 */
module PrivateDatabases {
  import opened Wrappers
  import opened Tokens
  import opened TenantIsolation

  type Cast = string -> Option<Uuid>

  function OfTenant(rows: Rows, tenant: Uuid): Rows {
    map id | id in rows && rows[id].tenantId == tenant :: rows[id]
  }

  // ----- a database of one tenant -----

  function Matching(rows: Rows, where: Record -> bool): set<Uuid> {
    set id | id in rows && where(rows[id])
  }

  /** A statement on the tenant's own database. A row of another tenant cannot be stored there. */
  function Perform(tenant: Uuid, rows: Rows, statement: Statement): (Rows, Reply) {
    match statement
    case Select(where) => (rows, Found(set id | id in rows && where(rows[id]) :: rows[id]))
    case Insert(record) =>
      if record.tenantId != tenant || Conflicts(rows, record) then (rows, Failed)
      else (rows[record.id := record], Changed({record.id}))
    case UpdateMany(where, moved, data) =>
      var hits := Matching(rows, where);
      if moved.Some? && moved.value != tenant && hits != {} then (rows, Failed)
      else (Changing(rows, hits, data), Changed(hits))
    case DeleteMany(where) => (rows - Matching(rows, where), Changed(Matching(rows, where)))
  }

  /** The rest of a transaction, as it runs there. */
  function PerformAll(tenant: Uuid, before: Rows, rows: Rows, work: Callback, replies: seq<Reply>)
    : (Rows, seq<Reply>)
    decreases work.limit - |replies|
  {
    if |replies| >= work.limit then (rows, replies) else
    match work.next(replies)
    case Return => (rows, replies)
    case Throw => (before, replies)
    case Do(statement) =>
      var (rows', reply) := Perform(tenant, rows, statement);
      if reply.Failed? then (before, replies + [reply])
      else PerformAll(tenant, before, rows', work, replies + [reply])
  }

  /** Whole transactions, one after another, after those already answered. */
  function Serve(tenant: Uuid, rows: Rows, works: seq<Callback>, answered: seq<seq<Reply>>): (Rows, seq<seq<Reply>>)
    decreases |works|
  {
    if works == [] then (rows, answered)
    else
      var (rows', replies) := PerformAll(tenant, rows, rows, works[0], []);
      Serve(tenant, rows', works[1..], answered + [replies])
  }

  // ----- one statement: exactly when the policy hides the other tenants -----

  lemma SameMatches(rows: Rows, tenant: Uuid, where: Record -> bool)
    ensures Hits(Tenant(tenant), rows, where) == Matching(OfTenant(rows, tenant), where)
    ensures forall id :: id in Hits(Tenant(tenant), rows, where) ==> OfTenant(rows, tenant)[id] == rows[id]
  {
    assert Seen(Tenant(tenant), rows) == OfTenant(rows, tenant);
  }

  lemma FoundAlike(rows: Rows, tenant: Uuid, where: Record -> bool)
    ensures Execute(Tenant(tenant), rows, Select(where)).1 == Perform(tenant, OfTenant(rows, tenant), Select(where)).1
  {
    SameMatches(rows, tenant, where);
    var own := OfTenant(rows, tenant);
    var hits := Hits(Tenant(tenant), rows, where);
    assert (set id | id in hits :: rows[id]) == (set id | id in own && where(own[id]) :: own[id]);
  }

  lemma ChangedOwn(rows: Rows, hits: set<Uuid>, data: Record -> string, tenant: Uuid)
    ensures OfTenant(Changing(rows, hits, data), tenant) == Changing(OfTenant(rows, tenant), hits, data)
  {
  }

  /** The record's id or key is another tenant's, and neither is the tenant's own. */
  ghost predicate ForeignConflict(rows: Rows, tenant: Uuid, record: Record) {
    && (exists id :: id in rows && rows[id].tenantId != tenant && (id == record.id || rows[id].key == record.key))
    && (forall id :: id in rows && rows[id].tenantId == tenant ==> id != record.id && rows[id].key != record.key)
  }

  lemma ConflictsIff(rows: Rows, tenant: Uuid, record: Record)
    ensures Conflicts(rows, record) <==>
        Conflicts(OfTenant(rows, tenant), record) || ForeignConflict(rows, tenant, record)
    ensures !(Conflicts(OfTenant(rows, tenant), record) && ForeignConflict(rows, tenant, record))
  {
    var own := OfTenant(rows, tenant);
    if id :| id in rows && rows[id].key == record.key {
      assert rows[id].tenantId == tenant ==> id in own;
    }
    assert forall id :: id in own ==> id in rows && rows[id].tenantId == tenant && own[id] == rows[id];
  }

  lemma InsertIsPrivateIff(rows: Rows, tenant: Uuid, record: Record)
    requires record.tenantId == tenant
    ensures
      var (after, reply) := Execute(Tenant(tenant), rows, Insert(record));
      (OfTenant(after, tenant), reply) == Perform(tenant, OfTenant(rows, tenant), Insert(record)) <==>
        !ForeignConflict(rows, tenant, record)
  {
    ConflictsIff(rows, tenant, record);
    assert OfTenant(rows[record.id := record], tenant) == OfTenant(rows, tenant)[record.id := record];
  }

  /**
   * A tenant's statement does and replies what it would on the tenant's own database, if and only if
   * it is not an insert whose id or key only another tenant's row holds.
   */
  lemma StatementIsPrivateIff(rows: Rows, tenant: Uuid, s: Statement)
    ensures
      var (after, reply) := Execute(Tenant(tenant), rows, s);
      (OfTenant(after, tenant), reply) == Perform(tenant, OfTenant(rows, tenant), s) <==>
        !(s.Insert? && s.record.tenantId == tenant && ForeignConflict(rows, tenant, s.record))
  {
    match s
    case Select(where) => FoundAlike(rows, tenant, where);
    case Insert(record) =>
      if record.tenantId == tenant {
        InsertIsPrivateIff(rows, tenant, record);
      }
    case UpdateMany(where, moved, data) =>
      SameMatches(rows, tenant, where);
      ChangedOwn(rows, Hits(Tenant(tenant), rows, where), data, tenant);
    case DeleteMany(where) =>
      SameMatches(rows, tenant, where);
      var hits := Hits(Tenant(tenant), rows, where);
      assert OfTenant(map id | id in rows && id !in hits :: rows[id], tenant) == OfTenant(rows, tenant) - hits;
  }

  /** A statement in any other context leaves the tenant's rows alone. */
  lemma OtherStatement(rows: Rows, context: Context, tenant: Uuid, s: Statement)
    requires context != Tenant(tenant)
    ensures OfTenant(Execute(context, rows, s).0, tenant) == OfTenant(rows, tenant)
  {
    var rows' := Execute(context, rows, s).0;
    forall id | id in rows && rows[id].tenantId == tenant ensures id in rows' && rows'[id] == rows[id] {
      assert s.Insert? && id == s.record.id ==> Conflicts(rows, s.record);
    }
  }

  // ----- one transaction, when ids and keys are not shared -----

  /** Which tenant an id, and a value of the unique column, is reserved for. */
  datatype Owners = Owners(ofId: Uuid -> Uuid, ofKey: string -> Uuid)

  /** No id and no unique value is used by two tenants: the stored rows keep to their owner's... */
  ghost predicate Partitioned(owners: Owners, rows: Rows) {
    forall id :: id in rows ==>
      && rows[id].id == id
      && owners.ofId(id) == rows[id].tenantId
      && owners.ofKey(rows[id].key) == rows[id].tenantId
  }

  ghost predicate StatementKeepsTo(owners: Owners, s: Statement) {
    s.Insert? ==> owners.ofId(s.record.id) == s.record.tenantId && owners.ofKey(s.record.key) == s.record.tenantId
  }

  /** ... and so does every row the callback may insert. */
  ghost predicate KeepsTo(owners: Owners, work: Callback) {
    forall replies | work.next(replies).Do? :: StatementKeepsTo(owners, work.next(replies).statement)
  }

  ghost predicate AllKeepTo(owners: Owners, events: seq<Event>) {
    forall i | 0 <= i < |events| && events[i].Work? :: KeepsTo(owners, events[i].work)
  }

  lemma StatementKeepsOwners(owners: Owners, rows: Rows, context: Context, s: Statement)
    requires Partitioned(owners, rows) && StatementKeepsTo(owners, s)
    ensures Partitioned(owners, Execute(context, rows, s).0)
  {
  }

  lemma StatementIsPrivate(owners: Owners, rows: Rows, tenant: Uuid, s: Statement)
    requires Partitioned(owners, rows) && StatementKeepsTo(owners, s)
    ensures
      var (after, reply) := Execute(Tenant(tenant), rows, s);
      (OfTenant(after, tenant), reply) == Perform(tenant, OfTenant(rows, tenant), s)
  {
    StatementIsPrivateIff(rows, tenant, s);
  }

  lemma {:induction false} WorkIsPrivate(owners: Owners, before: Rows, rows: Rows, tenant: Uuid, work: Callback,
                                         replies: seq<Reply>)
    requires Partitioned(owners, rows) && KeepsTo(owners, work)
    ensures
      var (after, all) := Transact(Tenant(tenant), before, rows, work, replies);
      (OfTenant(after, tenant), all) ==
        PerformAll(tenant, OfTenant(before, tenant), OfTenant(rows, tenant), work, replies)
    decreases work.limit - |replies|
  {
    if |replies| < work.limit && work.next(replies).Do? {
      var s := work.next(replies).statement;
      StatementIsPrivate(owners, rows, tenant, s);
      StatementKeepsOwners(owners, rows, Tenant(tenant), s);
      var (rows', reply) := Execute(Tenant(tenant), rows, s);
      WorkIsPrivate(owners, before, rows', tenant, work, replies + [reply]);
    }
  }

  lemma {:induction false} WorkKeepsOwners(owners: Owners, before: Rows, rows: Rows, context: Context,
                                           work: Callback, replies: seq<Reply>)
    requires Partitioned(owners, before) && Partitioned(owners, rows) && KeepsTo(owners, work)
    ensures Partitioned(owners, Transact(context, before, rows, work, replies).0)
    decreases work.limit - |replies|
  {
    if |replies| < work.limit && work.next(replies).Do? {
      var s := work.next(replies).statement;
      StatementKeepsOwners(owners, rows, context, s);
      var (rows', reply) := Execute(context, rows, s);
      WorkKeepsOwners(owners, before, rows', context, work, replies + [reply]);
    }
  }

  lemma {:induction false} OtherWork(before: Rows, rows: Rows, context: Context, tenant: Uuid, work: Callback,
                                     replies: seq<Reply>)
    requires context != Tenant(tenant) && OfTenant(before, tenant) == OfTenant(rows, tenant)
    ensures OfTenant(Transact(context, before, rows, work, replies).0, tenant) == OfTenant(rows, tenant)
    decreases work.limit - |replies|
  {
    if |replies| < work.limit && work.next(replies).Do? {
      var s := work.next(replies).statement;
      OtherStatement(rows, context, tenant, s);
      var (rows', reply) := Execute(context, rows, s);
      OtherWork(before, rows', context, tenant, work, replies + [reply]);
    }
  }

  // ----- runs -----

  predicate Names(cast: Cast, text: string, tenant: Uuid) {
    text != "" && cast(text) == Some(tenant)
  }

  /** The event belongs to a transaction of the tenant. */
  predicate IsFor(cast: Cast, db: Database, e: Event, tenant: Uuid) {
    && Enabled(db, e)
    && (if e.Begin? then Names(cast, e.tenant, tenant)
        else Names(cast, ConnectionAt(db, e.on).transaction.value, tenant))
  }

  /** The replies to the tenant's transactions, in order. */
  function RepliesTo(cast: Cast, log: seq<(string, seq<Reply>)>, tenant: Uuid): seq<seq<Reply>> {
    if log == [] then []
    else
      var last := log[|log| - 1];
      RepliesTo(cast, log[..|log| - 1], tenant) + if Names(cast, last.0, tenant) then [last.1] else []
  }

  lemma RepliesPush(cast: Cast, log: seq<(string, seq<Reply>)>, entry: (string, seq<Reply>), tenant: Uuid)
    ensures RepliesTo(cast, log + [entry], tenant) ==
        RepliesTo(cast, log, tenant) + if Names(cast, entry.0, tenant) then [entry.1] else []
  {
    assert (log + [entry])[..|log|] == log;
  }

  lemma ScopedStep(cast: Cast, db: Database, e: Event)
    requires Scoped(db)
    ensures Scoped(Step(cast, db, e))
  {
  }

  lemma WorkByStep(cast: Cast, db: Database, e: Event, text: string)
    requires e.Work? && ConnectionAt(db, e.on) == Connection(Set(text), Some(text))
    ensures
      var (rows, replies) := Transact(ContextOf(cast, Set(text)), db.rows, db.rows, e.work, []);
      Step(cast, db, e) == Database(rows, Released(db.connections, e.on), db.log + [(text, replies)])
  {
  }

  /** An event that is no work of the tenant's leaves its rows, and the replies it has had, alone. */
  lemma OtherEvent(cast: Cast, db: Database, e: Event, tenant: Uuid)
    requires Scoped(db) && !(e.Work? && IsFor(cast, db, e, tenant))
    ensures
      var db' := Step(cast, db, e);
      && OfTenant(db'.rows, tenant) == OfTenant(db.rows, tenant)
      && RepliesTo(cast, db'.log, tenant) == RepliesTo(cast, db.log, tenant)
  {
    if e.Work? && Enabled(db, e) {
      var text := ConnectionAt(db, e.on).transaction.value;
      var context := ContextOf(cast, Set(text));
      WorkByStep(cast, db, e, text);
      OtherWork(db.rows, db.rows, context, tenant, e.work, []);
      RepliesPush(cast, db.log, (text, Transact(context, db.rows, db.rows, e.work, []).1), tenant);
    }
  }

  /** The work done for the tenant in a run, in order. */
  ghost function WorksOf(cast: Cast, db: Database, events: seq<Event>, tenant: Uuid): seq<Callback>
    decreases |events|
  {
    if events == [] then []
    else
      (if events[0].Work? && IsFor(cast, db, events[0], tenant) then [events[0].work] else []) +
      WorksOf(cast, Step(cast, db, events[0]), events[1..], tenant)
  }

  lemma EventKeepsOwners(cast: Cast, owners: Owners, db: Database, e: Event)
    requires Partitioned(owners, db.rows) && (e.Work? ==> KeepsTo(owners, e.work))
    ensures Partitioned(owners, Step(cast, db, e).rows)
  {
    if e.Work? && Enabled(db, e) {
      WorkKeepsOwners(owners, db.rows, db.rows, ContextOf(cast, ConnectionAt(db, e.on).setting), e.work, []);
    }
  }

  lemma OwnWork(cast: Cast, owners: Owners, db: Database, e: Event, tenant: Uuid)
    requires Partitioned(owners, db.rows) && Scoped(db)
    requires e.Work? && IsFor(cast, db, e, tenant) && KeepsTo(owners, e.work)
    ensures
      var db' := Step(cast, db, e);
      var own := OfTenant(db.rows, tenant);
      var (rows, replies) := PerformAll(tenant, own, own, e.work, []);
      && OfTenant(db'.rows, tenant) == rows
      && RepliesTo(cast, db'.log, tenant) == RepliesTo(cast, db.log, tenant) + [replies]
  {
    var text := ConnectionAt(db, e.on).transaction.value;
    WorkByStep(cast, db, e, text);
    assert ContextOf(cast, Set(text)) == Tenant(tenant);
    WorkIsPrivate(owners, db.rows, db.rows, tenant, e.work, []);
    RepliesPush(cast, db.log, (text, Transact(Tenant(tenant), db.rows, db.rows, e.work, []).1), tenant);
  }

  lemma {:induction false} PrivateRun(cast: Cast, owners: Owners, db: Database, events: seq<Event>, tenant: Uuid)
    requires Partitioned(owners, db.rows) && Scoped(db) && AllKeepTo(owners, events)
    ensures
      var end := Run(cast, db, events);
      (OfTenant(end.rows, tenant), RepliesTo(cast, end.log, tenant)) ==
        Serve(tenant, OfTenant(db.rows, tenant), WorksOf(cast, db, events, tenant), RepliesTo(cast, db.log, tenant))
    decreases |events|
  {
    if events == [] {
    } else {
      var e, db' := events[0], Step(cast, db, events[0]);
      var rest := WorksOf(cast, db', events[1..], tenant);
      ScopedStep(cast, db, e);
      EventKeepsOwners(cast, owners, db, e);
      PrivateRun(cast, owners, db', events[1..], tenant);
      if e.Work? && IsFor(cast, db, e, tenant) {
        OwnWork(cast, owners, db, e, tenant);
        assert ([e.work] + rest)[1..] == rest;
      } else {
        OtherEvent(cast, db, e, tenant);
        assert [] + rest == rest;
      }
    }
  }

  /** In every run each tenant has, to all appearances, a database of its own without policies. */
  lemma PoliciesGivePrivateDatabases(cast: Cast, owners: Owners, rows: Rows, events: seq<Event>, tenant: Uuid)
    requires Partitioned(owners, rows) && AllKeepTo(owners, events)
    ensures
      var end := Run(cast, Init(rows), events);
      (OfTenant(end.rows, tenant), RepliesTo(cast, end.log, tenant)) ==
        Serve(tenant, OfTenant(rows, tenant), WorksOf(cast, Init(rows), events, tenant), [])
  {
    PrivateRun(cast, owners, Init(rows), events, tenant);
  }
}
