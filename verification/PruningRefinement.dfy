/**
 * Deleting expired rows is invisible: a store that prunes on every issue and one that never deletes
 * give the same answer to every login, refresh and logout, whatever the sequence of requests.
 */
module PruningRefinement {
  import opened Wrappers
  import opened Tokens
  import opened TokenTable
  import opened SessionCalls
  import SP = SessionProtocol

  datatype Call =
    | LoginCall(session: Session, draw: Draw, t: Times)
    | RefreshCall(raw: RawToken, draw: Draw, t: Times)
    | LogoutCall(raw: RawToken, t: Times)
    | SetAccountCall(user: Uuid, account: SP.Account)

  datatype Store = Store(rows: Table, users: Accounts)

  /** One request taken whole: the store it leaves and the token it answers with, if any. */
  ghost function Serve(cfg: Config, store: Store, call: Call, prune: bool): (Store, Option<RawToken>) {
    match call
    case LoginCall(session, draw, t) =>
      var (rows, answer) := Issue(cfg, store.rows, session, draw, t, prune);
      (store.(rows := rows), answer)
    case RefreshCall(raw, draw, t) =>
      var (rows, answer) := Refresh(cfg, store.rows, store.users, raw, draw, t, prune);
      (store.(rows := rows), answer)
    case LogoutCall(raw, t) => (store.(rows := Logout(cfg, store.rows, raw, t)), None)
    case SetAccountCall(user, account) => (store.(users := store.users[user := account]), None)
  }

  ghost function Answers(cfg: Config, store: Store, calls: seq<Call>, prune: bool): seq<Option<RawToken>>
    decreases |calls|
  {
    if calls == [] then []
    else
      var (store', answer) := Serve(cfg, store, calls[0], prune);
      [answer] + Answers(cfg, store', calls[1..], prune)
  }

  predicate Timed(call: Call) {
    !call.SetAccountCall?
  }

  /** The clock never goes back, within a request or from one to the next. */
  predicate InOrder(calls: seq<Call>, now: Millis)
    decreases |calls|
  {
    calls == [] ||
    (if Timed(calls[0])
     then calls[0].t.After(now) && InOrder(calls[1..], calls[0].t.prune)
     else InOrder(calls[1..], now))
  }

  function Drawn(call: Call): set<Uuid> {
    match call
    case LoginCall(_, draw, _) => {draw.jti, draw.row}
    case RefreshCall(_, draw, _) => {draw.jti, draw.row}
    case _ => {}
  }

  /** Every UUID drawn is new. */
  predicate FreshDraws(calls: seq<Call>, used: set<Uuid>)
    decreases |calls|
  {
    calls == [] || (Drawn(calls[0]) !! used && FreshDraws(calls[1..], used + Drawn(calls[0])))
  }

  // ----- the relation between the two stores -----

  /** Keys and hashes are unique, rows repeat their token's expiry, and all their UUIDs are used up. */
  ghost predicate Sound(rows: Table, used: set<Uuid>) {
    && WellFormed(rows)
    && (forall id :: id in rows ==>
          && id in used
          && ExpiresAtOf(rows[id].tokenHash.raw) == Some(rows[id].expiresAt)
          && rows[id].tokenHash.raw.payload.jti in used)
  }

  ghost function Unexpired(rows: Table, at: Millis): Table {
    map id | id in rows && rows[id].expiresAt >= at :: rows[id]
  }

  /** The two tables hold the same unexpired rows. */
  ghost predicate Agree(p: Table, q: Table, at: Millis) {
    Unexpired(p, at) == Unexpired(q, at)
  }

  lemma AgreeAt(p: Table, q: Table, at: Millis, id: Uuid)
    requires Agree(p, q, at) && id in p && p[id].expiresAt >= at
    ensures id in q && q[id] == p[id]
  {
    assert id in Unexpired(p, at);
    assert Unexpired(q, at)[id] == p[id];
  }

  lemma AgreeLater(p: Table, q: Table, at: Millis, later: Millis)
    requires Agree(p, q, at) && at <= later
    ensures Agree(p, q, later)
  {
    forall id | id in p && p[id].expiresAt >= later ensures id in q && q[id] == p[id] { AgreeAt(p, q, at, id); }
    forall id | id in q && q[id].expiresAt >= later ensures id in p && q[id] == p[id] { AgreeAt(q, p, at, id); }
  }

  lemma AgreeAfterPrune(p: Table, q: Table, tenant: Uuid, user: Uuid, at: Millis)
    requires Agree(p, q, at)
    ensures Agree(DeleteExpiredForUser(p, tenant, user, at), q, at)
  {
    assert Unexpired(DeleteExpiredForUser(p, tenant, user, at), at) == Unexpired(p, at);
  }

  lemma AgreeAfterCreate(p: Table, q: Table, row: Row, at: Millis)
    requires Agree(p, q, at) && row.id !in p && row.id !in q
    ensures Agree(Create(p, row), Create(q, row), at)
  {
    var added: Table := if row.expiresAt >= at then map[row.id := row] else map[];
    assert Unexpired(Create(p, row), at) == Unexpired(p, at) + added;
    assert Unexpired(Create(q, row), at) == Unexpired(q, at) + added;
  }

  lemma AgreeAfterRevoke(p: Table, q: Table, tenant: Uuid, family: Uuid, write: Millis, at: Millis)
    requires Agree(p, q, at)
    ensures Agree(RevokeFamily(p, tenant, family, write), RevokeFamily(q, tenant, family, write), at)
  {
    assert Unexpired(RevokeFamily(p, tenant, family, write), at) ==
        RevokeFamily(Unexpired(p, at), tenant, family, write);
    assert Unexpired(RevokeFamily(q, tenant, family, write), at) ==
        RevokeFamily(Unexpired(q, at), tenant, family, write);
  }

  lemma AgreeAfterClaim(p: Table, q: Table, tenant: Uuid, id: Uuid, write: Millis, at: Millis)
    requires Agree(p, q, at) && id in p && p[id].expiresAt >= at
    ensures Claimable(p, tenant, id) <==> Claimable(q, tenant, id)
    ensures Agree(Claim(p, tenant, id, write), Claim(q, tenant, id, write), at)
  {
    AgreeAt(p, q, at, id);
    if Claimable(p, tenant, id) {
      assert Unexpired(Claim(p, tenant, id, write), at) == Unexpired(p, at)[id := p[id].Revoke(write)];
      assert Unexpired(Claim(q, tenant, id, write), at) == Unexpired(q, at)[id := p[id].Revoke(write)];
    }
  }

  /** A token that verifies has an unexpired row in both tables or in neither. */
  lemma SameFound(cfg: Config, p: Table, q: Table, used: set<Uuid>, raw: RawToken, at: Millis)
    requires Sound(p, used) && Sound(q, used) && Agree(p, q, at)
    requires TryVerify(cfg, raw, at).Some?
    ensures FindByHash(p, raw.payload.tenantId, Sha256(raw)) == FindByHash(q, raw.payload.tenantId, Sha256(raw))
    ensures
      var found := FindByHash(p, raw.payload.tenantId, Sha256(raw));
      found.Some? ==>
        && found.value.id in p && p[found.value.id] == found.value && found.value.expiresAt >= at
        && found.value.session.tenantId == raw.payload.tenantId
  {
    FoundInOther(cfg, p, q, used, raw, at);
    FoundInOther(cfg, q, p, used, raw, at);
  }

  lemma FoundInOther(cfg: Config, p: Table, q: Table, used: set<Uuid>, raw: RawToken, at: Millis)
    requires Sound(p, used) && Sound(q, used) && Agree(p, q, at)
    requires TryVerify(cfg, raw, at).Some?
    ensures
      var found := FindByHash(p, raw.payload.tenantId, Sha256(raw));
      found.Some? ==>
        && found.value.id in p && p[found.value.id] == found.value && found.value.expiresAt >= at
        && FindByHash(q, raw.payload.tenantId, Sha256(raw)) == found
  {
    var tenant := raw.payload.tenantId;
    var found := FindByHash(p, tenant, Sha256(raw));
    if found.Some? {
      var id :| id in p && p[id] == found.value && Matches(found.value, tenant, Sha256(raw));
      ExpiryTestsAgree(raw, at);
      AgreeAt(p, q, at, id);
      FoundIsUnique(q, tenant, Sha256(raw), id);
    }
  }

  // ----- each call keeps the relation and answers alike -----

  ghost predicate Related(p: Table, q: Table, used: set<Uuid>, at: Millis) {
    Sound(p, used) && Sound(q, used) && Agree(p, q, at)
  }

  lemma SoundAfterWrites(rows: Table, used: set<Uuid>, tenant: Uuid, key: Uuid, other: Uuid, at: Millis)
    requires Sound(rows, used)
    ensures Sound(RevokeFamily(rows, tenant, key, at), used)
    ensures Sound(Claim(rows, tenant, key, at), used)
    ensures Sound(DeleteExpiredForUser(rows, tenant, other, at), used)
  {
  }

  lemma SoundAfterCreate(cfg: Config, rows: Table, used: set<Uuid>, session: Session, draw: Draw, at: Millis)
    requires Sound(rows, used) && {draw.jti, draw.row} !! used
    requires ExpiresAtOf(Sign(cfg, session.userId, session.tenantId, draw.jti, at)).Some?
    ensures
      var row := NewRow(draw.row, session, Sign(cfg, session.userId, session.tenantId, draw.jti, at));
      Sound(Create(rows, row), used + {draw.jti, draw.row})
  {
    var raw := Sign(cfg, session.userId, session.tenantId, draw.jti, at);
    assert raw.payload.jti == draw.jti && draw.jti !in used;
    assert forall id :: id in rows ==> rows[id].tokenHash.raw != raw;
  }

  lemma IssueAlike(cfg: Config, p: Table, q: Table, used: set<Uuid>, session: Session, draw: Draw, t: Times, at: Millis)
    requires Related(p, q, used, at) && at <= t.prune
    requires {draw.jti, draw.row} !! used
    ensures
      var (p', a) := Issue(cfg, p, session, draw, t, true);
      var (q', b) := Issue(cfg, q, session, draw, t, false);
      a == b && Related(p', q', used + {draw.jti, draw.row}, t.prune)
  {
    var raw := Sign(cfg, session.userId, session.tenantId, draw.jti, t.sign);
    var kept := DeleteExpiredForUser(p, session.tenantId, session.userId, t.prune);
    AgreeLater(p, q, at, t.prune);
    AgreeAfterPrune(p, q, session.tenantId, session.userId, t.prune);
    SoundAfterWrites(p, used, session.tenantId, 0, session.userId, t.prune);
    if ExpiresAtOf(raw).Some? {
      var row := NewRow(draw.row, session, raw);
      AgreeAfterCreate(kept, q, row, t.prune);
      SoundAfterCreate(cfg, kept, used, session, draw, t.sign);
      SoundAfterCreate(cfg, q, used, session, draw, t.sign);
    }
  }

  lemma ConsumeAlike(cfg: Config, p: Table, q: Table, used: set<Uuid>, raw: RawToken, t: Times)
    requires Related(p, q, used, t.verify)
    ensures
      var (p', a) := Consume(cfg, p, raw, t);
      var (q', b) := Consume(cfg, q, raw, t);
      a == b && Related(p', q', used, t.verify)
  {
    if TryVerify(cfg, raw, t.verify).Some? {
      var tenant := raw.payload.tenantId;
      SameFound(cfg, p, q, used, raw, t.verify);
      var found := FindByHash(p, tenant, Sha256(raw));
      if found.Some? {
        var row := found.value;
        AgreeAfterClaim(p, q, tenant, row.id, t.write, t.verify);
        AgreeAfterRevoke(p, q, tenant, row.session.familyId, t.write, t.verify);
        SoundAfterWrites(p, used, tenant, row.id, 0, t.write);
        SoundAfterWrites(q, used, tenant, row.id, 0, t.write);
        SoundAfterWrites(p, used, tenant, row.session.familyId, 0, t.write);
        SoundAfterWrites(q, used, tenant, row.session.familyId, 0, t.write);
      }
    }
  }

  lemma RevokeAlike(p: Table, q: Table, used: set<Uuid>, tenant: Uuid, family: Uuid, t: Times)
    requires Related(p, q, used, t.verify) && t.After(t.verify)
    ensures Related(RevokeFamily(p, tenant, family, t.write), RevokeFamily(q, tenant, family, t.write), used, t.prune)
  {
    AgreeLater(p, q, t.verify, t.prune);
    AgreeAfterRevoke(p, q, tenant, family, t.write, t.prune);
    SoundAfterWrites(p, used, tenant, family, 0, t.write);
    SoundAfterWrites(q, used, tenant, family, 0, t.write);
  }

  lemma ContinueAlike(cfg: Config, p: Table, q: Table, used: set<Uuid>, users: Accounts, consumed: Option<Session>,
                      draw: Draw, t: Times)
    requires Related(p, q, used, t.verify) && t.After(t.verify)
    requires {draw.jti, draw.row} !! used
    ensures
      var (p', a) := Continue(cfg, p, users, consumed, draw, t, true);
      var (q', b) := Continue(cfg, q, users, consumed, draw, t, false);
      a == b && Related(p', q', used + {draw.jti, draw.row}, t.prune)
  {
    match consumed
    case None => AgreeLater(p, q, t.verify, t.prune);
    case Some(session) =>
      IssueAlike(cfg, p, q, used, session, draw, t, t.verify);
      RevokeAlike(p, q, used, session.tenantId, session.familyId, t);
  }

  lemma RefreshAlike(cfg: Config, p: Table, q: Table, used: set<Uuid>, users: Accounts, raw: RawToken, draw: Draw,
                     t: Times)
    requires Related(p, q, used, t.verify) && t.After(t.verify)
    requires {draw.jti, draw.row} !! used
    ensures
      var (p', a) := Refresh(cfg, p, users, raw, draw, t, true);
      var (q', b) := Refresh(cfg, q, users, raw, draw, t, false);
      a == b && Agree(p', q', t.prune) &&
      Sound(p', used + {draw.jti, draw.row}) && Sound(q', used + {draw.jti, draw.row})
  {
    ConsumeAlike(cfg, p, q, used, raw, t);
    var (p1, a) := Consume(cfg, p, raw, t);
    var (q1, b) := Consume(cfg, q, raw, t);
    ContinueAlike(cfg, p1, q1, used, users, a, draw, t);
  }

  lemma LogoutAlike(cfg: Config, p: Table, q: Table, used: set<Uuid>, raw: RawToken, t: Times)
    requires Related(p, q, used, t.verify) && t.After(t.verify)
    ensures Related(Logout(cfg, p, raw, t), Logout(cfg, q, raw, t), used, t.prune)
  {
    AgreeLater(p, q, t.verify, t.prune);
    if TryVerify(cfg, raw, t.verify).Some? {
      SameFound(cfg, p, q, used, raw, t.verify);
      var found := FindByHash(p, raw.payload.tenantId, Sha256(raw));
      if found.Some? {
        RevokeAlike(p, q, used, raw.payload.tenantId, found.value.session.familyId, t);
      }
    }
  }

  lemma ServeAlike(cfg: Config, p: Store, q: Store, used: set<Uuid>, call: Call, now: Millis)
    requires p.users == q.users && Related(p.rows, q.rows, used, now)
    requires Drawn(call) !! used && (Timed(call) ==> call.t.After(now))
    ensures
      var (p', a) := Serve(cfg, p, call, true);
      var (q', b) := Serve(cfg, q, call, false);
      && a == b && p'.users == q'.users
      && Related(p'.rows, q'.rows, used + Drawn(call), if Timed(call) then call.t.prune else now)
  {
    match call
    case LoginCall(session, draw, t) => IssueAlike(cfg, p.rows, q.rows, used, session, draw, t, now);
    case RefreshCall(raw, draw, t) =>
      AgreeLater(p.rows, q.rows, now, t.verify);
      RefreshAlike(cfg, p.rows, q.rows, used, p.users, raw, draw, t);
    case LogoutCall(raw, t) =>
      AgreeLater(p.rows, q.rows, now, t.verify);
      LogoutAlike(cfg, p.rows, q.rows, used, raw, t);
      assert used + Drawn(call) == used;
    case SetAccountCall(_, _) =>
      assert used + Drawn(call) == used;
  }

  lemma {:induction false} AnswersAlike(cfg: Config, p: Store, q: Store, used: set<Uuid>, calls: seq<Call>, now: Millis)
    requires p.users == q.users && Related(p.rows, q.rows, used, now)
    requires InOrder(calls, now) && FreshDraws(calls, used)
    ensures Answers(cfg, p, calls, true) == Answers(cfg, q, calls, false)
    decreases |calls|
  {
    if calls == [] {
    } else {
      var call := calls[0];
      ServeAlike(cfg, p, q, used, call, now);
      var (p', a) := Serve(cfg, p, call, true);
      var (q', b) := Serve(cfg, q, call, false);
      AnswersAlike(cfg, p', q', used + Drawn(call), calls[1..], if Timed(call) then call.t.prune else now);
    }
  }

  /** From an empty table, every sequence of requests is answered alike with and without pruning. */
  lemma PruningIsInvisible(cfg: Config, users: Accounts, calls: seq<Call>, now: Millis)
    requires InOrder(calls, now) && FreshDraws(calls, {})
    ensures Answers(cfg, Store(map[], users), calls, true) == Answers(cfg, Store(map[], users), calls, false)
  {
    AnswersAlike(cfg, Store(map[], users), Store(map[], users), {}, calls, now);
  }
}
