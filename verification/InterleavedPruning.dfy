/**
 * Pruning step by step. When the calls of several requests interleave, a prune can take away a row
 * that another request is about to claim or look up. The protocol is run in lockstep with one that
 * never deletes: the two stay alike exactly as long as that does not happen.
 */
module InterleavedPruning {
  import opened Wrappers
  import opened Tokens
  import opened TokenTable
  import opened SessionProtocol
  import opened ProtocolInvariants

  predicate Prunes(s: State, e: Event) {
    e.Advance? && Enabled(s, e) && s.requests[e.id].Signed?
  }

  /** The same step, except that a prune deletes nothing. */
  ghost function KeepStep(s: State, e: Event): State {
    if Prunes(s, e) then Step(s, e).(rows := s.rows) else Step(s, e)
  }

  ghost function KeepRun(s: State, events: seq<Event>): State
    decreases |events|
  {
    if events == [] then s else KeepRun(KeepStep(s, events[0]), events[1..])
  }

  /** The events draw UUIDs that were never drawn before. */
  predicate FreshUuids(events: seq<Event>, used: set<Uuid>)
    decreases |events|
  {
    events == [] ||
    ((events[0].Advance? ==> events[0].uuid !in used) &&
     FreshUuids(events[1..], used + if events[0].Advance? then {events[0].uuid} else {}))
  }

  // ----- how the two runs correspond -----

  /** The same request, unless one has already refused what the other is about to refuse as expired. */
  predicate AlikeRequest(p: Request, q: Request, now: Millis) {
    q == p || (p == Done(None) && q.RefreshFound? && q.row.expiresAt <= now)
  }

  ghost predicate AlikeRequests(p: State, q: State) {
    p.requests.Keys == q.requests.Keys &&
    forall r | r in p.requests :: AlikeRequest(p.requests[r], q.requests[r], p.now)
  }

  /** The first table lacks only expired rows of the second. */
  ghost predicate Trims(p: Table, q: Table, now: Millis) {
    && (forall id | id in p :: id in q && q[id] == p[id])
    && (forall id | id in q && id !in p :: q[id].expiresAt < now)
  }

  ghost predicate Keyed(s: State) {
    forall id | id in s.rows :: s.rows[id].id == id && s.rows[id].AsCreated() in s.created
  }

  ghost predicate SameHistory(p: State, q: State) {
    && q.cfg == p.cfg && q.now == p.now && q.users == p.users
    && q.created == p.created && q.claimed == p.claimed && p.used <= q.used
  }

  ghost predicate Follows(p: State, q: State) {
    SameHistory(p, q) && Trims(p.rows, q.rows, p.now) && Keyed(q) && AlikeRequests(p, q)
  }

  /** A claim that would succeed, or a logout's look-up, and its row has been pruned. */
  ghost predicate Lost(p: Table, q: Table, x: Request) {
    match x
    case RefreshClaiming(row) => row.id !in p && Claimable(q, row.session.tenantId, row.id)
    case LogoutVerified(t, raw) => exists id :: id in q && id !in p && Matches(q[id], t, Sha256(raw))
    case _ => false
  }

  ghost predicate Loses(p: State, q: State, e: Event) {
    e.Advance? && Enabled(p, e) && Lost(p.rows, q.rows, p.requests[e.id])
  }

  ghost predicate NothingLost(p: State, q: State, events: seq<Event>)
    decreases |events|
  {
    events == [] ||
    (!Loses(p, q, events[0]) && NothingLost(Step(p, events[0]), KeepStep(q, events[0]), events[1..]))
  }

  ghost predicate AlikeThroughout(p: State, q: State, events: seq<Event>)
    decreases |events|
  {
    AlikeRequests(p, q) &&
    (events != [] ==> AlikeThroughout(Step(p, events[0]), KeepStep(q, events[0]), events[1..]))
  }

  // ----- one request moving in both -----

  lemma KeptIsWellFormed(p: State, q: State)
    requires Inv(p) && Follows(p, q)
    ensures WellFormed(q.rows)
  {
    forall i, j | i in q.rows && j in q.rows && q.rows[i].tokenHash == q.rows[j].tokenHash ensures i == j {
      SameId(p, q.rows[i].AsCreated(), q.rows[j].AsCreated());
    }
  }

  /** A look-up finds the same row in both, or in the first none and in the second a pruned one. */
  lemma SameLookup(p: Table, q: Table, now: Millis, tenant: Uuid, hash: TokenHash)
    requires Trims(p, q, now) && WellFormed(q)
    ensures
      var a, b := FindByHash(p, tenant, hash), FindByHash(q, tenant, hash);
      || a == b
      || (a.None? && b.Some? && b.value.expiresAt < now &&
          exists id :: id in q && id !in p && Matches(q[id], tenant, hash))
  {
    var b := FindByHash(q, tenant, hash);
    if b.Some? {
      var j :| j in q && q[j] == b.value && Matches(b.value, tenant, hash);
      assert j in p ==> FindByHash(p, tenant, hash).Some?;
    }
  }

  lemma LostLookup(p: Table, q: Table, now: Millis, t: Uuid, raw: RawToken)
    requires Trims(p, q, now) && WellFormed(q) && Lost(p, q, LogoutVerified(t, raw))
    ensures FindByHash(p, t, Sha256(raw)).None? && FindByHash(q, t, Sha256(raw)).Some?
  {
  }

  lemma SameClaim(p: State, q: State, row: Row)
    requires Follows(p, q) && !Lost(p.rows, q.rows, RefreshClaiming(row))
    ensures Claimable(p.rows, row.session.tenantId, row.id) <==> Claimable(q.rows, row.session.tenantId, row.id)
  {
  }

  lemma RefreshLookupAlike(p: State, q: State, t: Uuid, raw: RawToken, uuid: Uuid)
    requires Inv(p) && Follows(p, q)
    ensures
      var x := RefreshVerified(t, raw);
      AlikeRequest(Next(p, x, uuid), Next(q, x, uuid), p.now)
  {
    KeptIsWellFormed(p, q);
    SameLookup(p.rows, q.rows, p.now, t, Sha256(raw));
  }

  lemma LogoutLookupAlike(p: State, q: State, t: Uuid, raw: RawToken, uuid: Uuid)
    requires Inv(p) && Follows(p, q) && !Lost(p.rows, q.rows, LogoutVerified(t, raw))
    ensures
      var x := LogoutVerified(t, raw);
      Next(p, x, uuid) == Next(q, x, uuid)
  {
    KeptIsWellFormed(p, q);
    SameLookup(p.rows, q.rows, p.now, t, Sha256(raw));
  }

  lemma NextAlike(p: State, q: State, x: Request, uuid: Uuid)
    requires Inv(p) && Follows(p, q) && !x.Done? && !Lost(p.rows, q.rows, x)
    ensures AlikeRequest(Next(p, x, uuid), Next(q, x, uuid), p.now)
  {
    match x
    case RefreshVerified(t, raw) => RefreshLookupAlike(p, q, t, raw, uuid);
    case LogoutVerified(t, raw) => LogoutLookupAlike(p, q, t, raw, uuid);
    case RefreshClaiming(row) => SameClaim(p, q, row);
    case _ =>
  }

  lemma NextDiffers(p: State, q: State, x: Request, uuid: Uuid)
    requires Inv(p) && Follows(p, q) && !x.Done? && Lost(p.rows, q.rows, x)
    ensures !AlikeRequest(Next(p, x, uuid), Next(q, x, uuid), p.now)
  {
    if x.LogoutVerified? {
      KeptIsWellFormed(p, q);
      LostLookup(p.rows, q.rows, p.now, x.tenant, x.raw);
    }
  }

  // ----- one table after the other's -----

  lemma TrimsAfterClaim(p: Table, q: Table, now: Millis, tenant: Uuid, id: Uuid)
    requires Trims(p, q, now) && (Claimable(p, tenant, id) <==> Claimable(q, tenant, id))
    ensures Trims(Claim(p, tenant, id, now), Claim(q, tenant, id, now), now)
  {
  }

  lemma TrimsAfterRevoke(p: Table, q: Table, now: Millis, tenant: Uuid, family: Uuid)
    requires Trims(p, q, now)
    ensures Trims(RevokeFamily(p, tenant, family, now), RevokeFamily(q, tenant, family, now), now)
  {
  }

  lemma TrimsAfterPrune(p: Table, q: Table, now: Millis, tenant: Uuid, user: Uuid)
    requires Trims(p, q, now)
    ensures Trims(DeleteExpiredForUser(p, tenant, user, now), q, now)
  {
  }

  lemma TrimsAfterCreate(p: Table, q: Table, now: Millis, row: Row)
    requires Trims(p, q, now)
    ensures Trims(Create(p, row), Create(q, row), now)
  {
  }

  /** The same request's writes on the two tables, the second's prune deleting nothing. */
  lemma WritesAlike(p: State, q: State, x: Request, uuid: Uuid)
    requires Follows(p, q) && !Lost(p.rows, q.rows, x)
    ensures Trims(Effect(p, x, uuid).rows, if x.Signed? then q.rows else Effect(q, x, uuid).rows, p.now)
  {
    match x
    case RefreshClaiming(row) =>
      SameClaim(p, q, row);
      TrimsAfterClaim(p.rows, q.rows, p.now, row.session.tenantId, row.id);
    case Signed(session, _) => TrimsAfterPrune(p.rows, q.rows, p.now, session.tenantId, session.userId);
    case Pruned(session, raw) =>
      if ExpiresAtOf(raw).Some? {
        TrimsAfterCreate(p.rows, q.rows, p.now, NewRow(uuid, session, raw));
      }
    case Revoking(t, f) => TrimsAfterRevoke(p.rows, q.rows, p.now, t, f);
    case _ =>
  }

  lemma SameHistoryWritten(p: State, q: State, x: Request, uuid: Uuid)
    requires Follows(p, q) && !Lost(p.rows, q.rows, x)
    ensures Effect(q, x, uuid).created == Effect(p, x, uuid).created
    ensures Effect(q, x, uuid).claimed == Effect(p, x, uuid).claimed
  {
    if x.RefreshClaiming? {
      SameClaim(p, q, x.row);
    }
  }

  lemma KeyedAfterWrites(s: State, x: Request, uuid: Uuid)
    requires Keyed(s)
    ensures Keyed(Effect(s, x, uuid))
  {
  }

  // ----- one event in both -----

  lemma MovedInBoth(p: State, q: State, p': State, q': State, r: RequestId, x: Request, y: Request, uuid: Uuid)
    requires Follows(p, q) && r in p.requests && MovesTo(p, p', r, x, uuid) && MovesTo(q, q', r, y, uuid)
    requires AlikeRequest(x, y, p.now) && Trims(p'.rows, q'.rows, p.now) && Keyed(q')
    requires q'.created == p'.created && q'.claimed == p'.claimed
    ensures Follows(p', q')
  {
  }

  /** Both move the request, from the same point. */
  lemma FollowsMove(p: State, q: State, e: Event)
    requires Inv(p) && Follows(p, q) && !Loses(p, q, e)
    requires e.Advance? && Enabled(p, e) && e.uuid !in q.used && q.requests[e.id] == p.requests[e.id]
    ensures Follows(Step(p, e), KeepStep(q, e))
  {
    var x := p.requests[e.id];
    AdvanceMoves(p, e);
    AdvanceMoves(q, e);
    NextAlike(p, q, x, e.uuid);
    WritesAlike(p, q, x, e.uuid);
    SameHistoryWritten(p, q, x, e.uuid);
    KeyedAfterWrites(q, x, e.uuid);
    MovedInBoth(p, q, Step(p, e), KeepStep(q, e), e.id, Next(p, x, e.uuid), Next(q, x, e.uuid), e.uuid);
  }

  /** The first has refused already; the second now does. */
  lemma FollowsLate(p: State, q: State, e: Event)
    requires Follows(p, q)
    requires e.Advance? && e.id in p.requests && p.requests[e.id].Done?
    ensures Follows(Step(p, e), KeepStep(q, e))
  {
    assert Step(p, e) == p;
    if Enabled(q, e) {
      AdvanceMoves(q, e);
    }
  }

  lemma FollowsStart(p: State, q: State, e: Event)
    requires Follows(p, q) && (e.StartLogin? || e.StartRefresh? || e.StartLogout?)
    ensures Follows(Step(p, e), KeepStep(q, e))
  {
    StartAdds(p, e);
    StartAdds(q, e);
  }

  lemma FollowsQuiet(p: State, q: State, e: Event)
    requires Follows(p, q) && (e.Tick? || e.SetAccount? || (e.Advance? && e.id !in p.requests))
    ensures Follows(Step(p, e), KeepStep(q, e))
  {
  }

  lemma FollowsAbort(p: State, q: State, r: RequestId)
    requires Follows(p, q)
    ensures Follows(Step(p, Abort(r)), KeepStep(q, Abort(r)))
  {
    assert Step(q, Abort(r)).rows == q.rows && Step(p, Abort(r)).rows == p.rows;
  }

  lemma FollowsStep(p: State, q: State, e: Event)
    requires Inv(p) && Follows(p, q) && !Loses(p, q, e) && (e.Advance? ==> e.uuid !in q.used)
    ensures Follows(Step(p, e), KeepStep(q, e))
  {
    match e
    case Advance(r, _) =>
      if r !in p.requests {
        FollowsQuiet(p, q, e);
      } else if p.requests[r].Done? {
        FollowsLate(p, q, e);
      } else {
        FollowsMove(p, q, e);
      }
    case Abort(r) => FollowsAbort(p, q, r);
    case StartLogin(_, _, _) => FollowsStart(p, q, e);
    case StartRefresh(_, _) => FollowsStart(p, q, e);
    case StartLogout(_, _) => FollowsStart(p, q, e);
    case _ => FollowsQuiet(p, q, e);
  }

  lemma LosesIsSeen(p: State, q: State, e: Event)
    requires Inv(p) && Follows(p, q) && Loses(p, q, e) && e.uuid !in q.used
    ensures !AlikeRequests(Step(p, e), KeepStep(q, e))
  {
    var x := p.requests[e.id];
    AdvanceMoves(p, e);
    AdvanceMoves(q, e);
    assert q.requests[e.id] == x;
    NextDiffers(p, q, x, e.uuid);
    assert Step(p, e).requests[e.id] == Next(p, x, e.uuid);
  }

  lemma UsedByStep(q: State, e: Event)
    ensures KeepStep(q, e).used <= q.used + if e.Advance? then {e.uuid} else {}
  {
  }

  // ----- whole runs -----

  lemma {:induction false} LockstepRun(p: State, q: State, events: seq<Event>, used: set<Uuid>)
    requires Inv(p) && Follows(p, q) && q.used <= used && FreshUuids(events, used)
    ensures AlikeThroughout(p, q, events) <==> NothingLost(p, q, events)
    ensures NothingLost(p, q, events) ==> Follows(Run(p, events), KeepRun(q, events))
    decreases |events|
  {
    if events == [] {
    } else {
      var e := events[0];
      UsedByStep(q, e);
      if Loses(p, q, e) {
        LosesIsSeen(p, q, e);
      } else {
        FollowsStep(p, q, e);
        InvStep(p, e);
        LockstepRun(Step(p, e), KeepStep(q, e), events[1..], used + if e.Advance? then {e.uuid} else {});
      }
    }
  }

  ghost function Unexpired(rows: Table, at: Millis): Table {
    map id | id in rows && rows[id].expiresAt >= at :: rows[id]
  }

  /** Every answer given in both is the same, and so are the unexpired rows and the history. */
  ghost predicate SameToAll(p: State, q: State) {
    && (forall r | r in p.requests && r in q.requests && p.requests[r].Done? && q.requests[r].Done? ::
          p.requests[r].answer == q.requests[r].answer)
    && Unexpired(p.rows, p.now) == Unexpired(q.rows, q.now)
    && p.created == q.created && p.claimed == q.claimed
  }

  lemma FollowsIsSame(p: State, q: State)
    requires Follows(p, q)
    ensures SameToAll(p, q)
  {
  }

  /**
   * In every run of interleaved requests, the pruning protocol and the one that never deletes keep
   * all requests alike if and only if no claim that would succeed, and no logout's look-up, meets a
   * pruned row. Then every answer given in both is the same, and so are the rows that have not
   * expired, the rows ever created and the rows ever consumed.
   */
  lemma InterleavedPruningIff(cfg: Config, now: Millis, users: map<Uuid, Account>, events: seq<Event>)
    requires FreshUuids(events, {})
    ensures
      var start := Init(cfg, now, users);
      && (AlikeThroughout(start, start, events) <==> NothingLost(start, start, events))
      && (NothingLost(start, start, events) ==> SameToAll(Run(start, events), KeepRun(start, events)))
  {
    var start := Init(cfg, now, users);
    InvInit(cfg, now, users);
    LockstepRun(start, start, events, {});
    if NothingLost(start, start, events) {
      FollowsIsSame(Run(start, events), KeepRun(start, events));
    }
  }

  /** A claim that would succeed, or a logout's look-up, is of a row that has not expired. */
  ghost predicate Prompt(q: State, x: Request) {
    match x
    case RefreshClaiming(row) =>
      Claimable(q.rows, row.session.tenantId, row.id) ==> q.rows[row.id].expiresAt >= q.now
    case LogoutVerified(t, raw) =>
      forall id :: id in q.rows && Matches(q.rows[id], t, Sha256(raw)) ==> q.rows[id].expiresAt >= q.now
    case _ => true
  }

  ghost predicate PromptThroughout(q: State, events: seq<Event>)
    decreases |events|
  {
    events == [] ||
    ((events[0].Advance? && Enabled(q, events[0]) ==> Prompt(q, q.requests[events[0].id])) &&
     PromptThroughout(KeepStep(q, events[0]), events[1..]))
  }

  lemma PromptIsNotLost(p: State, q: State, x: Request)
    requires Follows(p, q) && Prompt(q, x)
    ensures !Lost(p.rows, q.rows, x)
  {
  }

  /** So nothing is lost where claims and look-ups come before their row expires, pruning or not. */
  lemma {:induction false} PromptRunsLoseNothing(p: State, q: State, events: seq<Event>, used: set<Uuid>)
    requires Inv(p) && Follows(p, q) && q.used <= used && FreshUuids(events, used) && PromptThroughout(q, events)
    ensures NothingLost(p, q, events)
    decreases |events|
  {
    if events == [] {
    } else {
      var e := events[0];
      if e.Advance? && Enabled(p, e) && q.requests[e.id] == p.requests[e.id] {
        PromptIsNotLost(p, q, p.requests[e.id]);
      }
      UsedByStep(q, e);
      FollowsStep(p, q, e);
      InvStep(p, e);
      PromptRunsLoseNothing(Step(p, e), KeepStep(q, e), events[1..], used + if e.Advance? then {e.uuid} else {});
    }
  }

  // ----- one prune, one request -----

  /**
   * A prune just before a claim that would succeed turns it into the reuse branch, if and only if the
   * two are of one user and the row found has expired since its expiry was checked.
   */
  lemma ClaimLostToPruneIff(s: State, claim: Event, prune: Event)
    requires Reachable(s) && Claims(s, claim) && Prunes(s, prune) && prune.uuid != claim.uuid
    ensures
      var row, session := s.requests[claim.id].row, s.requests[prune.id].session;
      Step(Step(s, prune), claim).requests[claim.id].Revoking? <==>
        session.tenantId == row.session.tenantId && session.userId == row.session.userId && row.expiresAt < s.now
  {
    ReachableInv(s);
    ClaimedRow(s, claim);
    AdvanceMoves(s, prune);
    var row, session := s.requests[claim.id].row, s.requests[prune.id].session;
    ClaimAfterPrune(s.rows, row.session.tenantId, row.id, session, s.now);
    AdvanceMoves(Step(s, prune), claim);
  }

  lemma ClaimAfterPrune(rows: Table, tenant: Uuid, id: Uuid, session: Session, now: Millis)
    requires Claimable(rows, tenant, id)
    ensures Claimable(DeleteExpiredForUser(rows, session.tenantId, session.userId, now), tenant, id) <==>
        !Prunable(rows[id], session.tenantId, session.userId, now)
  {
  }

  /** The step on which a logout finds its row. */
  ghost predicate LooksUp(s: State, e: Event) {
    e.Advance? && Enabled(s, e) && s.requests[e.id].LogoutVerified? && Step(s, e).requests[e.id].Revoking?
  }

  ghost function LookedUp(s: State, e: Event): Option<Row>
    requires e.Advance? && Enabled(s, e) && s.requests[e.id].LogoutVerified?
  {
    FindByHash(s.rows, s.requests[e.id].tenant, Sha256(s.requests[e.id].raw))
  }

  /**
   * A prune just before a logout's look-up makes it find nothing, so that it revokes nothing, if and
   * only if the two are of one user and the row has expired since the token was verified.
   */
  lemma LogoutLostToPruneIff(s: State, look: Event, prune: Event)
    requires Reachable(s) && LooksUp(s, look) && Prunes(s, prune) && prune.uuid != look.uuid
    ensures LookedUp(s, look).Some?
    ensures
      var row, session := LookedUp(s, look).value, s.requests[prune.id].session;
      Step(Step(s, prune), look).requests[look.id] == Done(None) <==>
        session.tenantId == row.session.tenantId && session.userId == row.session.userId && row.expiresAt < s.now
  {
    ReachableInv(s);
    AdvanceMoves(s, look);
    AdvanceMoves(s, prune);
    AdvanceMoves(Step(s, prune), look);
    TableIsWellFormed(s);
    var session := s.requests[prune.id].session;
    LookupAfterPrune(s.rows, s.requests[look.id].tenant, s.requests[look.id].raw, session, s.now);
  }

  lemma LookupAfterPrune(rows: Table, tenant: Uuid, raw: RawToken, session: Session, now: Millis)
    requires WellFormed(rows) && FindByHash(rows, tenant, Sha256(raw)).Some?
    ensures
      var row := FindByHash(rows, tenant, Sha256(raw)).value;
      FindByHash(DeleteExpiredForUser(rows, session.tenantId, session.userId, now), tenant, Sha256(raw)).None? <==>
        Prunable(row, session.tenantId, session.userId, now)
  {
    var id :| id in rows && rows[id] == FindByHash(rows, tenant, Sha256(raw)).value &&
        Matches(rows[id], tenant, Sha256(raw));
    var kept := DeleteExpiredForUser(rows, session.tenantId, session.userId, now);
    if !Prunable(rows[id], session.tenantId, session.userId, now) {
      assert id in kept && Matches(kept[id], tenant, Sha256(raw));
    }
  }
}
