/**
 * A request on its way to a handler: the header is resolved to a tenant, the guards compare it with
 * the token's, and the handler's transactions run in it. Composed with the row policies, a
 * non-public request is confined to the tenant its token was issued for.
 */
module RequestPipeline {
  import opened Wrappers
  import opened Tokens
  import opened TenantIsolation
  import opened PrivateDatabases
  import opened Noninterference

  /** Node presents a header as absent, one string, or several. */
  datatype Header = Absent | One(value: string) | Many(values: seq<string>)

  /** What the verified access token says about its bearer. */
  datatype AuthenticatedUser = AuthenticatedUser(userId: Uuid, tenantId: string)

  datatype Rejection = Unauthorized | BadRequest | Forbidden

  /** The tenant the header names; an empty first value names none. */
  function Resolve(header: Header): Option<string> {
    match header
    case Absent => None
    case One(value) => if value == "" then None else Some(value)
    case Many(values) => if values == [] || values[0] == "" then None else Some(values[0])
  }

  /** The header's first value is this tenant, and not empty. */
  predicate NamesTenant(header: Header, tenant: string) {
    tenant != "" &&
    (header == One(tenant) || (header.Many? && header.values != [] && header.values[0] == tenant))
  }

  class Request {
    const header: Header
    const isPublic: bool            // the route carries @Public()
    const user: Option<AuthenticatedUser> // set when the access token verified
    var tenantId: Option<string>

    constructor (header: Header, isPublic: bool, user: Option<AuthenticatedUser>)
      ensures this.header == header && this.isPublic == isPublic && this.user == user && tenantId == None
    {
      this.header, this.isPublic, this.user, tenantId := header, isPublic, user, None;
    }

    /** TenantMiddleware.use. */
    method ResolveTenant()
      modifies this
      ensures tenantId == if Resolve(header).Some? then Resolve(header) else old(tenantId)
    {
      var value := match header
        case Absent => None
        case One(v) => Some(v)
        case Many(vs) => if vs == [] then None else Some(vs[0]);
      if value.Some? && value.value != "" {
        tenantId := value;
      }
    }

    /** The middleware, JwtAuthGuard and TenantGuard in order, then the handler's requireTenantId. */
    method Handle() returns (tenant: Result<string, Rejection>)
      requires tenantId == None
      modifies this
      ensures tenant == Admit(header, isPublic, user)
      ensures forall t :: tenant == Ok(t) <==>
          NamesTenant(header, t) && (isPublic || (user.Some? && user.value.tenantId == t))
      ensures tenant == Err(Unauthorized) <==> !isPublic && user.None?
      ensures tenant == Err(Forbidden) <==>
          !isPublic && user.Some? && exists t :: NamesTenant(header, t) && t != user.value.tenantId
      ensures tenant == Err(BadRequest) <==> (isPublic || user.Some?) && forall t :: !NamesTenant(header, t)
    {
      AdmitMeans(header, isPublic, user);
      ResolveTenant();
      if !isPublic {
        if user.None? {
          return Err(Unauthorized);
        }
        if tenantId.None? {
          return Err(BadRequest);
        }
        if tenantId.value != user.value.tenantId {
          return Err(Forbidden);
        }
      }
      if tenantId.None? {
        return Err(BadRequest);
      }
      return Ok(tenantId.value);
    }
  }

  /** TenantGuard.canActivate, after JwtAuthGuard has let the request through. */
  function TenantGuard(tenantId: Option<string>, user: AuthenticatedUser): Option<Rejection> {
    match tenantId
    case None => Some(BadRequest)
    case Some(tenant) => if tenant != user.tenantId then Some(Forbidden) else None
  }

  /** The tenant in which a tenant-scoped handler's transactions run, if the request gets that far. */
  function Admit(header: Header, isPublic: bool, user: Option<AuthenticatedUser>): Result<string, Rejection> {
    if !isPublic && user.None? then Err(Unauthorized)
    else
      var rejection := if isPublic then None else TenantGuard(Resolve(header), user.value);
      if rejection.Some? then Err(rejection.value)
      else match Resolve(header)
        case None => Err(BadRequest)
        case Some(tenant) => Ok(tenant)
  }

  lemma ResolveMeans(header: Header)
    ensures forall t :: Resolve(header) == Some(t) <==> NamesTenant(header, t)
  {
  }

  /**
   * A request is admitted to a tenant if and only if its header names that tenant and the route is
   * public or the token is that tenant's. Each rejection has its own condition.
   */
  lemma AdmitMeans(header: Header, isPublic: bool, user: Option<AuthenticatedUser>)
    ensures
      var admitted := Admit(header, isPublic, user);
      && (forall t :: admitted == Ok(t) <==>
            NamesTenant(header, t) && (isPublic || (user.Some? && user.value.tenantId == t)))
      && (admitted == Err(Unauthorized) <==> !isPublic && user.None?)
      && (admitted == Err(Forbidden) <==>
            !isPublic && user.Some? && exists t :: NamesTenant(header, t) && t != user.value.tenantId)
      && (admitted == Err(BadRequest) <==> (isPublic || user.Some?) && forall t :: !NamesTenant(header, t))
  {
    ResolveMeans(header);
    if Resolve(header).Some? {
      assert NamesTenant(header, Resolve(header).value);
    }
  }

  // ----- runs of requests -----

  /**
   * A step of some request's transactions. Open is where the request, handled as far as its handler,
   * asks for a transaction, which it may do any number of times.
   */
  datatype RequestEvent =
    | Open(on: ConnectionId, header: Header, isPublic: bool, user: Option<AuthenticatedUser>)
    | Query(on: ConnectionId, work: Callback)
    | Close(on: ConnectionId)

  /** The database events of a step; a request that is turned away makes none. */
  function EventsOf(e: RequestEvent): seq<Event> {
    match e
    case Open(c, header, isPublic, user) =>
      (match Admit(header, isPublic, user)
       case Ok(tenant) => [Begin(c, tenant)]
       case Err(_) => [])
    case Query(c, work) => [Work(c, work)]
    case Close(c) => [Abandon(c)]
  }

  function DatabaseEvents(events: seq<RequestEvent>): seq<Event> {
    if events == [] then [] else EventsOf(events[0]) + DatabaseEvents(events[1..])
  }

  /** An admitted request that asks for a transaction on an idle connection gets it, in the tenant it names. */
  lemma AdmittedBegins(cast: Cast, db: Database, c: ConnectionId, header: Header, isPublic: bool,
                       user: Option<AuthenticatedUser>, tenant: string)
    requires ConnectionAt(db, c).transaction.None? && NamesTenant(header, tenant)
    requires isPublic || (user.Some? && user.value.tenantId == tenant)
    ensures Run(cast, db, EventsOf(Open(c, header, isPublic, user))) ==
        Database(db.rows, db.connections[c := Connection(Set(tenant), Some(tenant))], db.log)
  {
    AdmitMeans(header, isPublic, user);
    var events := EventsOf(Open(c, header, isPublic, user));
    assert events == [Begin(c, tenant)];
    assert Run(cast, db, events) == Step(cast, db, events[0]);
  }

  /** No request of the run is public, and none bears a token issued for the tenant. */
  predicate OnlyOthersTokens(cast: Cast, events: seq<RequestEvent>, tenant: Uuid) {
    forall i :: 0 <= i < |events| && events[i].Open? ==>
      !events[i].isPublic && (events[i].user.Some? ==> !Names(cast, events[i].user.value.tenantId, tenant))
  }

  lemma {:induction false} BeginsAreOthers(cast: Cast, events: seq<RequestEvent>, tenant: Uuid)
    requires OnlyOthersTokens(cast, events, tenant)
    ensures forall i :: 0 <= i < |DatabaseEvents(events)| && DatabaseEvents(events)[i].Begin? ==>
        !Names(cast, DatabaseEvents(events)[i].tenant, tenant)
  {
    if events == [] {
    } else {
      assert OnlyOthersTokens(cast, events[1..], tenant);
      BeginsAreOthers(cast, events[1..], tenant);
    }
  }

  /** The tenant has no transaction open. */
  ghost predicate NoneOpenFor(cast: Cast, db: Database, tenant: Uuid) {
    forall c :: ConnectionAt(db, c).transaction.Some? ==>
      !Names(cast, ConnectionAt(db, c).transaction.value, tenant)
  }

  lemma {:induction false} Untouched(cast: Cast, db: Database, events: seq<Event>, tenant: Uuid)
    requires Scoped(db) && NoneOpenFor(cast, db, tenant)
    requires forall i :: 0 <= i < |events| && events[i].Begin? ==> !Names(cast, events[i].tenant, tenant)
    ensures
      var end := Run(cast, db, events);
      && OfTenant(end.rows, tenant) == OfTenant(db.rows, tenant)
      && RepliesTo(cast, end.log, tenant) == RepliesTo(cast, db.log, tenant)
    decreases |events|
  {
    if events == [] {
    } else {
      var db' := Step(cast, db, events[0]);
      forall c | ConnectionAt(db', c).transaction.Some?
        ensures !Names(cast, ConnectionAt(db', c).transaction.value, tenant)
      {
        assert ConnectionAt(db', c) == ConnectionAt(db, c) || c == events[0].on;
      }
      OtherEvent(cast, db, events[0], tenant);
      ScopedStep(cast, db, events[0]);
      Untouched(cast, db', events[1..], tenant);
    }
  }

  /**
   * In every run of non-public requests, whatever headers they send, whatever they insert and however
   * their transactions share the connections, the rows of a tenant none of the tokens was issued for
   * stay untouched.
   */
  lemma TokensConfine(cast: Cast, rows: Rows, events: seq<RequestEvent>, tenant: Uuid)
    requires OnlyOthersTokens(cast, events, tenant)
    ensures
      var end := Run(cast, Init(rows), DatabaseEvents(events));
      OfTenant(end.rows, tenant) == OfTenant(rows, tenant) && RepliesTo(cast, end.log, tenant) == []
  {
    BeginsAreOthers(cast, events, tenant);
    Untouched(cast, Init(rows), DatabaseEvents(events), tenant);
  }

  // ----- request by request -----

  /** The rows in the replies are ones the context's policy shows. */
  ghost predicate ReadsOnly(replies: seq<Reply>, context: Context) {
    forall i, row :: 0 <= i < |replies| && replies[i].Found? && row in replies[i].records ==>
      Policy(context, row.tenantId)
  }

  lemma {:induction false} WorkReadsOwn(context: Context, before: Rows, rows: Rows, work: Callback,
                                        replies: seq<Reply>)
    requires ReadsOnly(replies, context)
    ensures ReadsOnly(Transact(context, before, rows, work, replies).1, context)
    decreases work.limit - |replies|
  {
    if |replies| < work.limit && work.next(replies).Do? {
      var (rows', reply) := Execute(context, rows, work.next(replies).statement);
      WorkReadsOwn(context, before, rows', work, replies + [reply]);
    }
  }

  /** Which admitted request has each busy connection. */
  type Holders = map<ConnectionId, RequestEvent>

  function HoldersAfter(holders: Holders, e: RequestEvent): Holders {
    match e
    case Open(c, header, isPublic, user) =>
      if c !in holders && Admit(header, isPublic, user).Ok? then holders[c := e] else holders
    case Query(c, _) => holders - {c}
    case Close(c) => holders - {c}
  }

  function HoldersOf(holders: Holders, events: seq<RequestEvent>): Holders
    decreases |events|
  {
    if events == [] then holders else HoldersOf(HoldersAfter(holders, events[0]), events[1..])
  }

  function AdmittedTo(e: RequestEvent): Option<string> {
    if !e.Open? then None
    else match Admit(e.header, e.isPublic, e.user)
      case Ok(tenant) => Some(tenant)
      case Err(_) => None
  }

  /** A busy connection's transaction is for the tenant its holder was admitted to. */
  ghost predicate Held(db: Database, holders: Holders) {
    && Scoped(db)
    && (forall c :: c in holders ==> AdmittedTo(holders[c]).Some?)
    && (forall c :: ConnectionAt(db, c).transaction == if c in holders then AdmittedTo(holders[c]) else None)
  }

  lemma HeldStep(cast: Cast, db: Database, holders: Holders, e: RequestEvent)
    requires Held(db, holders)
    ensures Held(Run(cast, db, EventsOf(e)), HoldersAfter(holders, e))
  {
    var events := EventsOf(e);
    if events != [] {
      ScopedStep(cast, db, events[0]);
      assert Run(cast, db, events) == Step(cast, db, events[0]);
    }
  }

  lemma {:induction false} HeldRun(cast: Cast, db: Database, holders: Holders, events: seq<RequestEvent>)
    requires Held(db, holders)
    ensures Held(Run(cast, db, DatabaseEvents(events)), HoldersOf(holders, events))
    decreases |events|
  {
    if events == [] {
    } else {
      HeldStep(cast, db, holders, events[0]);
      HeldRun(cast, Run(cast, db, EventsOf(events[0])), HoldersAfter(holders, events[0]), events[1..]);
      RunAppend(cast, db, EventsOf(events[0]), DatabaseEvents(events[1..]));
    }
  }

  /**
   * In every run, public requests included: a non-public request that has a connection reads and
   * writes only rows of the tenant its own token was issued for. A connection no admitted request
   * has does nothing.
   */
  lemma HandlersStayWithTheirToken(cast: Cast, rows: Rows, events: seq<RequestEvent>, c: ConnectionId,
                                   work: Callback)
    requires c in HoldersOf(map[], events) ==>
        HoldersOf(map[], events)[c].Open? && !HoldersOf(map[], events)[c].isPublic
    ensures
      var holders, db := HoldersOf(map[], events), Run(cast, Init(rows), DatabaseEvents(events));
      var db' := Step(cast, db, Work(c, work));
      if c !in holders then db' == db
      else
        && holders[c].user.Some?
        && var token := holders[c].user.value.tenantId;
           var context := ContextOf(cast, Set(token));
        && (exists replies :: db'.log == db.log + [(token, replies)] && ReadsOnly(replies, context))
        && forall tenant :: context != Tenant(tenant) ==> OfTenant(db'.rows, tenant) == OfTenant(db.rows, tenant)
  {
    HeldRun(cast, Init(rows), map[], events);
    var holders, db := HoldersOf(map[], events), Run(cast, Init(rows), DatabaseEvents(events));
    if c in holders {
      var token := holders[c].user.value.tenantId;
      var context := ContextOf(cast, Set(token));
      assert ConnectionAt(db, c) == Connection(Set(token), Some(token));
      WorkReadsOwn(context, db.rows, db.rows, work, []);
      forall tenant | context != Tenant(tenant)
        ensures OfTenant(Transact(context, db.rows, db.rows, work, []).0, tenant) == OfTenant(db.rows, tenant)
      {
        OtherWork(db.rows, db.rows, context, tenant, work, []);
      }
    }
  }
}
