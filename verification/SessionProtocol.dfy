/**
 * Login, refresh and logout as programs whose database calls interleave freely. Every repository
 * call is one atomic step, every request is a program counter with its locals, and a run is any
 * sequence of events. An event that is not enabled leaves the state as it is, so theorems about
 * runs quantify over all event sequences.
 */
module SessionProtocol {
  import opened Wrappers
  import opened Tokens
  import opened TokenTable

  /** The columns of the users table that sessions depend on. */
  datatype Account = Account(tenantId: Uuid, isActive: bool)

  datatype Request =
      // login: credentials accepted and the account seen active; no family yet
    | LoginAccepted(tenant: Uuid, user: Uuid)
      // refresh: consume()
    | RefreshVerified(tenant: Uuid, raw: RawToken)
    | RefreshFound(row: Row)
    | RefreshClaiming(row: Row)
      // refresh: the row is claimed, the user is still to be checked
    | Claimed(session: Session)
      // login and refresh: issue()
    | Checked(session: Session)
    | Signed(session: Session, raw: RawToken)
    | Pruned(session: Session, raw: RawToken)
      // logout: revokeSession()
    | LogoutVerified(tenant: Uuid, raw: RawToken)
      // reuse, inactive user or logout: the family is about to be revoked
    | Revoking(tenant: Uuid, family: Uuid)
    | Done(answer: Option<RawToken>)
  {
    /** Past a successful claim or startFamily, and not yet past create. */
    predicate InFlight() {
      Claimed? || Checked? || Signed? || Pruned?
    }

    /** In flight and past the check that the user is active. */
    predicate PastUserCheck() {
      Checked? || Signed? || Pruned?
    }

    predicate Carries() {
      Signed? || Pruned?
    }
  }

  type RequestId = nat

  /**
   * The shared state. The fields created (rows as inserted, in order), claimed (rows as inserted,
   * in the order they were consumed) and used (UUIDs drawn so far) are history: no step's outcome
   * depends on them, except that a fresh UUID is one not in used.
   */
  datatype State = State(
    cfg: Config,
    now: Millis,
    users: map<Uuid, Account>,
    rows: Table,
    requests: map<RequestId, Request>,
    created: seq<Row>,
    claimed: seq<Row>,
    used: set<Uuid>
  )

  datatype Event =
    | Tick(elapsed: nat)
    | SetAccount(user: Uuid, account: Account)
    | StartLogin(id: RequestId, tenant: Uuid, user: Uuid)
    | StartRefresh(id: RequestId, raw: RawToken)
    | StartLogout(id: RequestId, raw: RawToken)
    | Advance(id: RequestId, uuid: Uuid)
    | Abort(id: RequestId) // a call threw: the request goes no further

  function Init(cfg: Config, now: Millis, users: map<Uuid, Account>): State {
    State(cfg, now, users, map[], map[], [], [], {})
  }

  /** findByIdInTenant followed by the isActive test. */
  predicate ActiveInTenant(users: map<Uuid, Account>, user: Uuid, tenant: Uuid) {
    user in users && users[user].tenantId == tenant && users[user].isActive
  }

  predicate Enabled(s: State, e: Event) {
    match e
    case Tick(_) => true
    // no code path moves an account to another tenant or deletes it
    case SetAccount(u, a) => u in s.users ==> s.users[u].tenantId == a.tenantId
    case StartLogin(r, t, u) => r !in s.requests && ActiveInTenant(s.users, u, t)
    case StartRefresh(r, _) => r !in s.requests
    case StartLogout(r, _) => r !in s.requests
    case Advance(r, uuid) => r in s.requests && !s.requests[r].Done? && uuid !in s.used
    case Abort(r) => r in s.requests && !s.requests[r].Done?
  }

  ghost function Step(s: State, e: Event): State {
    if !Enabled(s, e) then s else
    match e
    case Tick(elapsed) => s.(now := s.now + elapsed)
    case SetAccount(u, a) => s.(users := s.users[u := a])
    case StartLogin(r, t, u) => s.(requests := s.requests[r := LoginAccepted(t, u)])
    case StartRefresh(r, raw) =>
      var begun := match TryVerify(s.cfg, raw, s.now)
        case None => Done(None)
        case Some(payload) => RefreshVerified(payload.tenantId, raw);
      s.(requests := s.requests[r := begun])
    case StartLogout(r, raw) =>
      var begun := match TryVerify(s.cfg, raw, s.now)
        case None => Done(None)
        case Some(payload) => LogoutVerified(payload.tenantId, raw);
      s.(requests := s.requests[r := begun])
    case Advance(r, uuid) =>
      var s' := s.(used := s.used + {uuid}, requests := s.requests[r := Next(s, s.requests[r], uuid)]);
      Effect(s', s.requests[r], uuid)
    case Abort(r) => s.(requests := s.requests[r := Done(None)])
  }

  /** Where a request goes next; uuid is the fresh UUID it draws, if it draws one. */
  ghost function Next(s: State, q: Request, uuid: Uuid): Request
    requires !q.Done?
  {
    match q
    case LoginAccepted(t, u) => Checked(Session(t, u, uuid)) // startFamily
    case RefreshVerified(t, raw) =>
      (match FindByHash(s.rows, t, Sha256(raw))
       case None => Done(None)
       case Some(row) => RefreshFound(row))
    case RefreshFound(row) =>
      if row.expiresAt <= s.now then Done(None) else RefreshClaiming(row)
    case RefreshClaiming(row) =>
      if Claimable(s.rows, row.session.tenantId, row.id) then Claimed(row.session)
      else Revoking(row.session.tenantId, row.session.familyId)
    case Claimed(session) =>
      if ActiveInTenant(s.users, session.userId, session.tenantId) then Checked(session)
      else Revoking(session.tenantId, session.familyId)
    case Checked(session) =>
      Signed(session, Sign(s.cfg, session.userId, session.tenantId, uuid, s.now))
    case Signed(session, raw) => Pruned(session, raw)
    case Pruned(session, raw) =>
      if ExpiresAtOf(raw).None? then Done(None) else Done(Some(raw)) // expiresAtOf throws
    case LogoutVerified(t, raw) =>
      (match FindByHash(s.rows, t, Sha256(raw))
       case None => Done(None)
       case Some(row) => Revoking(t, row.session.familyId))
    case Revoking(_, _) => Done(None)
  }

  /** What the step does to the table and to its history. */
  function Effect(s: State, q: Request, uuid: Uuid): State {
    match q
    case RefreshClaiming(row) =>
      if Claimable(s.rows, row.session.tenantId, row.id) then
        s.(rows := Claim(s.rows, row.session.tenantId, row.id, s.now),
           claimed := s.claimed + [row.AsCreated()])
      else s
    case Signed(session, _) =>
      s.(rows := DeleteExpiredForUser(s.rows, session.tenantId, session.userId, s.now))
    case Pruned(session, raw) =>
      if ExpiresAtOf(raw).None? then s
      else
        var row := NewRow(uuid, session, raw);
        s.(rows := Create(s.rows, row), created := s.created + [row])
    case Revoking(t, f) => s.(rows := RevokeFamily(s.rows, t, f, s.now))
    case _ => s
  }

  ghost function Run(s: State, events: seq<Event>): State
    decreases |events|
  {
    if events == [] then s else Run(Step(s, events[0]), events[1..])
  }
}
