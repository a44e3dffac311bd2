/**
 * The two services as they update the token store and the attempt counters in place, one request at
 * a time. Their effect is proved to be that of the whole calls.
 */
module AuthServices {
  import opened Wrappers
  import opened Tokens
  import opened TokenTable
  import opened RefreshTokensStore
  import opened RedisCounters
  import opened LoginThrottle
  import opened UserAdmin
  import opened CallMeanings
  import SessionCalls
  import SessionProtocol

  /** Consuming a token adds nothing to the table. */
  lemma UnusedAfterConsume(cfg: Config, rows: Table, raw: RawToken, t: SessionCalls.Times, draw: SessionCalls.Draw)
    requires SessionCalls.Unused(rows, draw)
    ensures SessionCalls.Unused(SessionCalls.Consume(cfg, rows, raw, t).0, draw)
  {
  }

  class RefreshTokenService {
    const repository: RefreshTokensRepository
    const cfg: Config

    constructor (repository: RefreshTokensRepository, cfg: Config)
      ensures this.repository == repository && this.cfg == cfg
    {
      this.repository := repository;
      this.cfg := cfg;
    }

    method Issue(session: Session, draw: SessionCalls.Draw, t: SessionCalls.Times) returns (token: Option<RawToken>)
      requires repository.Valid() && SessionCalls.Unused(repository.Contents(), draw)
      modifies repository
      ensures repository.Valid()
      ensures (repository.Contents(), token) ==
          SessionCalls.Issue(cfg, old(repository.Contents()), session, draw, t, true)
    {
      var raw := Sign(cfg, session.userId, session.tenantId, draw.jti, t.sign);
      repository.DeleteExpiredForUser(session.tenantId, session.userId, t.prune);
      if ExpiresAtOf(raw).None? {
        return None;
      }
      repository.Create(NewRow(draw.row, session, raw));
      return Some(raw);
    }

    method Consume(raw: RawToken, t: SessionCalls.Times) returns (consumed: Option<Session>)
      requires repository.Valid()
      modifies repository
      ensures repository.Valid()
      ensures (repository.Contents(), consumed) == SessionCalls.Consume(cfg, old(repository.Contents()), raw, t)
    {
      var payload := TryVerify(cfg, raw, t.verify);
      if payload.None? {
        return None;
      }
      var tenant := payload.value.tenantId;
      var stored := repository.FindByHash(tenant, Sha256(raw));
      if stored.None? || stored.value.expiresAt <= t.check {
        return None;
      }
      var claimed := repository.Claim(tenant, stored.value.id, t.write);
      if !claimed {
        repository.RevokeFamily(tenant, stored.value.session.familyId, t.write);
        return None;
      }
      return Some(stored.value.session);
    }

    method RevokeFamily(tenant: Uuid, family: Uuid, at: Millis)
      requires repository.Valid()
      modifies repository
      ensures repository.Valid()
      ensures repository.Contents() == TokenTable.RevokeFamily(old(repository.Contents()), tenant, family, at)
    {
      repository.RevokeFamily(tenant, family, at);
    }

    method RevokeSession(raw: RawToken, t: SessionCalls.Times)
      requires repository.Valid()
      modifies repository
      ensures repository.Valid()
      ensures repository.Contents() == SessionCalls.Logout(cfg, old(repository.Contents()), raw, t)
    {
      var payload := TryVerify(cfg, raw, t.verify);
      if payload.None? {
        return;
      }
      var stored := repository.FindByHash(payload.value.tenantId, Sha256(raw));
      if stored.None? {
        return;
      }
      repository.RevokeFamily(payload.value.tenantId, stored.value.session.familyId, t.write);
    }
  }

  /** The claims signAccessToken signs. */
  datatype AccessToken = AccessToken(
    sub: Uuid,
    email: string,
    tenantId: Uuid,
    role: Role,
    permissions: seq<Permission>
  )

  datatype TokenPair = TokenPair(accessToken: AccessToken, refreshToken: RawToken)

  /** What login() tells of the user. */
  datatype Profile = Profile(id: Uuid, email: string, fullName: string, role: Role, permissions: seq<Permission>)

  datatype LoginAnswer =
    | TooManyRequests
    | InvalidCredentials
    | SignedIn(tokens: TokenPair, user: Profile)
    | ServerError

  datatype User = User(
    account: SessionProtocol.Account,
    email: string,
    fullName: string,
    role: Role,
    permissions: seq<Permission>,
    lastLoginAt: Option<Millis>
  )

  type Users = map<Uuid, User>

  /**
   * A login may start in the protocol exactly when the stored user is in the tenant and active, which
   * is what Login requires of whoever it signs in.
   */
  lemma StartLoginIff(s: SessionProtocol.State, users: Users, r: SessionProtocol.RequestId, tenant: Uuid, user: Uuid)
    requires s.users == map u | u in users :: users[u].account
    ensures SessionProtocol.Enabled(s, SessionProtocol.StartLogin(r, tenant, user)) <==>
        (r !in s.requests && user in users &&
         users[user].account.tenantId == tenant && users[user].account.isActive)
  {
  }

  /** An active account of the tenant has the email. */
  ghost predicate SomebodyActive(users: Users, tenant: Uuid, email: string) {
    exists u | u in users ::
      users[u].account.tenantId == tenant && users[u].account.isActive && users[u].email == email
  }

  class AuthService {
    const tokens: RefreshTokenService
    const throttle: LoginThrottleService
    var users: Users

    constructor (tokens: RefreshTokenService, throttle: LoginThrottleService, users: Users)
      ensures this.tokens == tokens && this.throttle == throttle && this.users == users
    {
      this.tokens := tokens;
      this.throttle := throttle;
      this.users := users;
    }

    function Accounts(): (accounts: SessionCalls.Accounts)
      reads this
      ensures accounts.Keys == users.Keys && forall u | u in users :: accounts[u] == users[u].account
    {
      map u | u in users :: users[u].account
    }

    /** The unique index on tenant and email. */
    ghost predicate Valid()
      reads this, tokens.repository
    {
      && tokens.repository.Valid()
      && (forall u, v | u in users && v in users ::
            users[u].account.tenantId == users[v].account.tenantId && users[u].email == users[v].email ==> u == v)
    }

    /** The unique index leaves one account to find. */
    method FindByEmailWithSecret(tenant: Uuid, email: string) returns (found: Option<Uuid>)
      requires Valid()
      ensures found.Some? ==> found.value in users
      ensures forall u | u in users ::
          users[u].account.tenantId == tenant && users[u].email == email <==> found == Some(u)
    {
      if u: Uuid :| u in users && users[u].account.tenantId == tenant && users[u].email == email {
        return Some(u);
      }
      return None;
    }

    /**
     * tenant is the identity's tenant as the row policy reads it; bcrypt's verdict, and whether Redis
     * executes the count of a failure, are parameters.
     */
    method Login(identity: Identity, tenant: Uuid, passwordOk: bool, executed: bool, family: Uuid,
                 draw: SessionCalls.Draw, t: SessionCalls.Times) returns (answer: LoginAnswer)
      requires Valid() && SessionCalls.Unused(tokens.repository.Contents(), draw)
      modifies this`users, throttle.attempts.redis, tokens.repository
      ensures Valid()
      ensures
        var key := throttle.Key(identity);
        var store, store' := old(throttle.attempts.redis.store), throttle.attempts.redis.store;
        var rows, rows' := old(tokens.repository.Contents()), tokens.repository.Contents();
        var live := key in store && (store[key].deadline.None? || t.verify <= store[key].deadline.value);
        var locked := (if live then store[key].value else 0) >= throttle.limits.maxAttempts;
        var known := SomebodyActive(old(users), tenant, identity.email);
        match answer
        case TooManyRequests => locked && store' == store && rows' == rows && users == old(users)
        case InvalidCredentials =>
          && !locked && (!passwordOk || !known) && rows' == rows && users == old(users)
          && store' == With(store, key, Recorded(throttle.limits, At(store, key), t.check, executed))
        case SignedIn(pair, profile) =>
          && !locked && passwordOk && profile.id in old(users)
          && var id, user := profile.id, old(users)[profile.id];
          && user.account.tenantId == tenant && user.account.isActive && user.email == identity.email
          && profile == Profile(id, user.email, user.fullName, user.role, user.permissions)
          && pair.accessToken == AccessToken(id, user.email, tenant, user.role, user.permissions)
          && users == old(users)[id := user.(lastLoginAt := Some(t.write))]
          && store' == store - {key}
          && (rows', Some(pair.refreshToken)) ==
               SessionCalls.Issue(tokens.cfg, rows, Session(tenant, id, family), draw, t, true)
        case ServerError =>
          && !locked && passwordOk && store' == store - {key} && t.sign / 1000 + tokens.cfg.lifetime == 0
          && exists id | id in old(users) ::
               var user := old(users)[id];
               && user.account.tenantId == tenant && user.account.isActive && user.email == identity.email
               && users == old(users)[id := user.(lastLoginAt := Some(t.write))]
               && rows' == SessionCalls.Issue(tokens.cfg, rows, Session(tenant, id, family), draw, t, true).0
    {
      var locked := throttle.AssertNotLocked(identity, t.verify);
      if locked {
        return TooManyRequests;
      }
      var found := FindByEmailWithSecret(tenant, identity.email);
      if found.None? {
        throttle.RecordFailure(identity, t.check, executed);
        return InvalidCredentials;
      }
      var id, user := found.value, users[found.value];
      if !user.account.isActive {
        throttle.RecordFailure(identity, t.check, executed);
        return InvalidCredentials;
      }
      if !passwordOk {
        throttle.RecordFailure(identity, t.check, executed);
        return InvalidCredentials;
      }
      throttle.Reset(identity);
      users := users[id := user.(lastLoginAt := Some(t.write))];
      var pair := IssueSession(id, user, Session(tenant, id, family), draw, t);
      if pair.None? {
        return ServerError;
      }
      return SignedIn(pair.value, Profile(id, user.email, user.fullName, user.role, user.permissions));
    }

    method IssueSession(id: Uuid, user: User, session: Session, draw: SessionCalls.Draw, t: SessionCalls.Times)
      returns (pair: Option<TokenPair>)
      requires tokens.repository.Valid() && SessionCalls.Unused(tokens.repository.Contents(), draw)
      modifies tokens.repository
      ensures tokens.repository.Valid()
      ensures
        var issued := SessionCalls.Issue(tokens.cfg, old(tokens.repository.Contents()), session, draw, t, true);
        && tokens.repository.Contents() == issued.0
        && pair == if issued.1.None? then None
           else Some(TokenPair(AccessToken(id, user.email, user.account.tenantId, user.role, user.permissions),
                               issued.1.value))
    {
      var accessToken := AccessToken(id, user.email, user.account.tenantId, user.role, user.permissions);
      var refreshToken := tokens.Issue(session, draw, t);
      return if refreshToken.Some? then Some(TokenPair(accessToken, refreshToken.value)) else None;
    }

    method Refresh(raw: RawToken, draw: SessionCalls.Draw, t: SessionCalls.Times) returns (pair: Option<TokenPair>)
      requires Valid() && SessionCalls.Unused(tokens.repository.Contents(), draw)
      modifies tokens.repository
      ensures Valid()
      ensures
        var rows := old(tokens.repository.Contents());
        var refreshed := SessionCalls.Refresh(tokens.cfg, rows, Accounts(), raw, draw, t, true);
        && tokens.repository.Contents() == refreshed.0
        && (if pair.Some? then Some(pair.value.refreshToken) else None) == refreshed.1
      ensures
        var rows, rows' := old(tokens.repository.Contents()), tokens.repository.Contents();
        forall id | Accepts(tokens.cfg, rows, raw, t, id) ::
          var session := rows[id].session;
          var u := session.userId;
          && (pair.Some? <==>
                && u in users && users[u].account.tenantId == session.tenantId && users[u].account.isActive
                && t.sign / 1000 + tokens.cfg.lifetime != 0)
          && (pair.Some? ==>
                && pair.value.accessToken ==
                     AccessToken(u, users[u].email, users[u].account.tenantId, users[u].role, users[u].permissions)
                && draw.row in rows' && rows'[draw.row].session == session
                && rows'[draw.row].tokenHash == Sha256(pair.value.refreshToken))
          && (u !in users || users[u].account.tenantId != session.tenantId || !users[u].account.isActive ==>
                Closed(rows', session.tenantId, session.familyId))
      ensures
        var rows, rows' := old(tokens.repository.Contents()), tokens.repository.Contents();
        && (pair.Some? ==> exists id :: Accepts(tokens.cfg, rows, raw, t, id))
        && (forall id | Presented(tokens.cfg, rows, raw, t.verify, id) && rows[id].expiresAt > t.check ::
              rows[id].revokedAt.Some? ==> Closed(rows', rows[id].session.tenantId, rows[id].session.familyId))
    {
      tokens.repository.ContentsAreWellFormed();
      RefreshMeans(tokens.cfg, tokens.repository.Contents(), Accounts(), raw, draw, t);
      UnusedAfterConsume(tokens.cfg, tokens.repository.Contents(), raw, t, draw);
      var consumed := tokens.Consume(raw, t);
      if consumed.None? {
        return None;
      }
      var session := consumed.value;
      if session.userId !in users || users[session.userId].account != SessionProtocol.Account(session.tenantId, true) {
        tokens.RevokeFamily(session.tenantId, session.familyId, t.write);
        return None;
      }
      pair := IssueSession(session.userId, users[session.userId], session, draw, t);
    }

    method Logout(raw: RawToken, t: SessionCalls.Times)
      requires Valid()
      modifies tokens.repository
      ensures Valid()
      ensures tokens.repository.Contents() ==
          SessionCalls.Logout(tokens.cfg, old(tokens.repository.Contents()), raw, t)
    {
      tokens.RevokeSession(raw, t);
    }
  }
}
