/**
 * withTenant as the service runs it: a transaction on a pooled connection sets the session variable,
 * then the callback issues its statements one by one, and the transaction is committed or rolled
 * back. Its effect is proved to be that of the two events of the isolation model.
 */
module TenantPrisma {
  import opened Wrappers
  import opened Tokens
  import opened TenantIsolation

  class TenantPrismaService {
    const cast: string -> Option<Uuid>
    var rows: Rows
    var connections: map<ConnectionId, Connection>
    var log: seq<(string, seq<Reply>)>

    constructor (cast: string -> Option<Uuid>, rows: Rows)
      ensures this.cast == cast && AsDatabase() == Init(rows)
    {
      this.cast, this.rows, connections, log := cast, rows, map[], [];
    }

    function AsDatabase(): Database
      reads this
    {
      Database(rows, connections, log)
    }

    method WithTenant(c: ConnectionId, tenant: string, work: Callback) returns (replies: seq<Reply>)
      requires ConnectionAt(AsDatabase(), c).transaction.None?
      modifies this
      ensures AsDatabase() == Run(cast, old(AsDatabase()), [Begin(c, tenant), Work(c, work)])
      ensures log == old(log) + [(tenant, replies)]
    {
      connections := connections[c := Connection(Set(tenant), Some(tenant))];
      var context := ContextOf(cast, connections[c].setting);
      var before := rows;
      replies := [];
      var running := true;
      while running && |replies| < work.limit
        invariant running ==>
          Transact(context, before, before, work, []) == Transact(context, before, rows, work, replies)
        invariant !running ==> Transact(context, before, before, work, []) == (rows, replies)
        invariant connections == old(connections)[c := Connection(Set(tenant), Some(tenant))] && log == old(log)
        decreases running, work.limit - |replies|
      {
        match work.next(replies)
        case Return =>
          running := false;
        case Throw =>
          rows, running := before, false;
        case Do(statement) =>
          var (rows', reply) := Execute(context, rows, statement);
          replies := replies + [reply];
          if reply.Failed? {
            rows, running := before, false;
          } else {
            rows := rows';
          }
      }
      log := log + [(tenant, replies)];
      connections := connections[c := Connection(Set(""), None)];
      TwoEvents(cast, old(AsDatabase()), c, tenant, work);
    }
  }

  lemma TwoEvents(cast: string -> Option<Uuid>, db: Database, c: ConnectionId, tenant: string, work: Callback)
    requires ConnectionAt(db, c).transaction.None?
    ensures
      var (rows, replies) := Transact(ContextOf(cast, Set(tenant)), db.rows, db.rows, work, []);
      Run(cast, db, [Begin(c, tenant), Work(c, work)]) ==
        Database(rows, Released(db.connections, c), db.log + [(tenant, replies)])
  {
    var events := [Begin(c, tenant), Work(c, work)];
    var begun := Step(cast, db, events[0]);
    var worked := Step(cast, begun, events[1]);
    assert events[1..] == [events[1]] && [events[1]][1..] == [];
    assert Run(cast, db, events) == Run(cast, begun, [events[1]]) == Run(cast, worked, []);
  }
}
