/**
 * Tenant isolation: every unit of work sets a session variable for the length of its transaction, on
 * whatever pooled connection it gets, and row policies compare each row's tenant with it.
 */
module TenantIsolation {
  import opened Wrappers
  import opened Tokens

  // ----- the policy -----

  /** current_setting('app.current_tenant_id', true): NULL until it is first set. */
  datatype Setting = Unset | Set(value: string)

  datatype Context = NoTenant | Tenant(id: Uuid) | CastError

  /** NULLIF(current_setting(...), '')::uuid; cast is PostgreSQL's text to uuid, which may fail. */
  function ContextOf(cast: string -> Option<Uuid>, setting: Setting): Context {
    if setting.Unset? || setting.value == "" then NoTenant
    else match cast(setting.value)
      case Some(id) => Tenant(id)
      case None => CastError
  }

  /** A row of some tenant-scoped table: primary key, tenant, a column with a unique index, and the rest. */
  datatype Record = Record(id: Uuid, tenantId: Uuid, key: string, data: string)

  type Rows = map<Uuid, Record>

  /** USING and WITH CHECK are the same predicate; NULL never equals a tenant. */
  predicate Policy(context: Context, tenantId: Uuid) {
    context == Tenant(tenantId)
  }

  // ----- statements under the policy -----

  datatype Statement =
    | Select(where: Record -> bool)
    | Insert(record: Record)
    | UpdateMany(where: Record -> bool, tenantId: Option<Uuid>, data: Record -> string)
    | DeleteMany(where: Record -> bool)

  datatype Reply = Found(records: set<Record>) | Changed(ids: set<Uuid>) | Failed

  function Seen(context: Context, rows: Rows): Rows {
    map id | id in rows && Policy(context, rows[id].tenantId) :: rows[id]
  }

  function Hits(context: Context, rows: Rows, where: Record -> bool): set<Uuid> {
    set id | id in Seen(context, rows) && where(rows[id])
  }

  function Changing(rows: Rows, hits: set<Uuid>, data: Record -> string): Rows {
    map id | id in rows :: if id in hits then rows[id].(data := data(rows[id])) else rows[id]
  }

  /** Unique constraints look at all rows, whoever they belong to. */
  predicate Conflicts(rows: Rows, record: Record) {
    record.id in rows || exists id :: id in rows && rows[id].key == record.key
  }

  function Execute(context: Context, rows: Rows, statement: Statement): (Rows, Reply) {
    if context.CastError? then (rows, Failed) else
    match statement
    case Select(where) => (rows, Found(set id | id in Hits(context, rows, where) :: rows[id]))
    case Insert(record) =>
      if !Policy(context, record.tenantId) || Conflicts(rows, record) then (rows, Failed)
      else (rows[record.id := record], Changed({record.id}))
    case UpdateMany(where, tenantId, data) =>
      var hits := Hits(context, rows, where);
      if tenantId.Some? && hits != {} && !Policy(context, tenantId.value) then (rows, Failed)
      else (Changing(rows, hits, data), Changed(hits))
    case DeleteMany(where) =>
      var hits := Hits(context, rows, where);
      (map id | id in rows && id !in hits :: rows[id], Changed(hits))
  }

  /** What the work of a transaction does next: one more statement, or it returns or throws. */
  datatype Action = Do(statement: Statement) | Return | Throw

  /**
   * The callback handed to withTenant. It chooses each statement from the replies so far, and issues
   * no more than limit of them.
   */
  datatype Callback = Callback(next: seq<Reply> -> Action, limit: nat)

  /**
   * The rest of a transaction that found the rows before and has had the replies so far. A failed
   * statement, or a callback that throws, rolls all of it back.
   */
  function Transact(context: Context, before: Rows, rows: Rows, work: Callback, replies: seq<Reply>)
    : (Rows, seq<Reply>)
    decreases work.limit - |replies|
  {
    if |replies| >= work.limit then (rows, replies) else
    match work.next(replies)
    case Return => (rows, replies)
    case Throw => (before, replies)
    case Do(statement) =>
      var (rows', reply) := Execute(context, rows, statement);
      if reply.Failed? then (before, replies + [reply])
      else Transact(context, before, rows', work, replies + [reply])
  }

  // ----- pooled connections -----

  type ConnectionId = nat

  /** A pooled connection: its session variable, and the tenant its open transaction set it to. */
  datatype Connection = Connection(setting: Setting, transaction: Option<string>)

  /** The log lists every transaction's tenant and replies. */
  datatype Database = Database(
    rows: Rows,
    connections: map<ConnectionId, Connection>,
    log: seq<(string, seq<Reply>)>
  )

  datatype Event =
    | Begin(on: ConnectionId, tenant: string)        // BEGIN; set_config(..., true)
    | Work(on: ConnectionId, work: Callback)         // its statements, then COMMIT or ROLLBACK
    | Abandon(on: ConnectionId)                      // ROLLBACK before any work

  function ConnectionAt(db: Database, c: ConnectionId): Connection {
    if c in db.connections then db.connections[c] else Connection(Unset, None)
  }

  /** At the end of a transaction its local setting reverts to ''. */
  function Released(connections: map<ConnectionId, Connection>, c: ConnectionId): map<ConnectionId, Connection> {
    connections[c := Connection(Set(""), None)]
  }

  predicate Enabled(db: Database, e: Event) {
    ConnectionAt(db, e.on).transaction.None? == e.Begin?
  }

  ghost function Step(cast: string -> Option<Uuid>, db: Database, e: Event): Database {
    if !Enabled(db, e) then db else
    var connection := ConnectionAt(db, e.on);
    match e
    case Begin(c, tenant) => db.(connections := db.connections[c := Connection(Set(tenant), Some(tenant))])
    case Work(c, work) =>
      var (rows, replies) := Transact(ContextOf(cast, connection.setting), db.rows, db.rows, work, []);
      Database(rows, Released(db.connections, c), db.log + [(connection.transaction.value, replies)])
    case Abandon(c) => db.(connections := Released(db.connections, c))
  }

  ghost function Run(cast: string -> Option<Uuid>, db: Database, events: seq<Event>): Database
    decreases |events|
  {
    if events == [] then db else Run(cast, Step(cast, db, events[0]), events[1..])
  }

  function Init(rows: Rows): Database {
    Database(rows, map[], [])
  }

  // ----- a connection's variable -----

  /** In a transaction the variable is its tenant; between transactions it is unset or empty. */
  ghost predicate Scoped(db: Database) {
    forall c :: c in db.connections ==>
      match db.connections[c].transaction
      case Some(tenant) => db.connections[c].setting == Set(tenant)
      case None => db.connections[c].setting == Unset || db.connections[c].setting == Set("")
  }

  lemma {:induction false} ScopedRun(cast: string -> Option<Uuid>, db: Database, events: seq<Event>)
    requires Scoped(db)
    ensures Scoped(Run(cast, db, events))
    decreases |events|
  {
    if events == [] {
    } else {
      ScopedRun(cast, Step(cast, db, events[0]), events[1..]);
    }
  }

  /** A statement on a connection between transactions finds no row and changes none, in any run. */
  lemma IdleConnectionSeesNothing(cast: string -> Option<Uuid>, rows: Rows, events: seq<Event>,
                                  c: ConnectionId, statement: Statement)
    requires ConnectionAt(Run(cast, Init(rows), events), c).transaction.None?
    ensures
      var db := Run(cast, Init(rows), events);
      var (rows', reply) := Execute(ContextOf(cast, ConnectionAt(db, c).setting), db.rows, statement);
      && rows' == db.rows
      && (match statement
          case Select(_) => reply == Found({})
          case Insert(_) => reply == Failed
          case UpdateMany(_, _, _) => reply == Changed({})
          case DeleteMany(_) => reply == Changed({}))
  {
    ScopedRun(cast, Init(rows), events);
    var db := Run(cast, Init(rows), events);
    var context := ContextOf(cast, ConnectionAt(db, c).setting);
    assert context == NoTenant;
    assert Seen(context, db.rows) == map[];
  }
}
