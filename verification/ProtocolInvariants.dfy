/** What every step of every interleaving keeps. */
module ProtocolInvariants {
  import opened Wrappers
  import opened Tokens
  import opened TokenTable
  import opened SessionProtocol

  /** The token a refresh row hashes, or a request carries, is one that issue() signed for that session. */
  predicate IssuedFor(cfg: Config, raw: RawToken, session: Session) {
    && raw.Jwt?
    && raw.signedWith == cfg.refreshSecret
    && raw.payload.sub == session.userId
    && raw.payload.tenantId == session.tenantId
    && raw.payload.tokenType == Some(REFRESH)
    && raw.payload.exp.Some?
    && raw.payload.exp.value >= cfg.lifetime
  }

  predicate Owned(s: State, session: Session) {
    && session.familyId in s.used
    && session.userId in s.users
    && s.users[session.userId].tenantId == session.tenantId
  }

  /** A created row is live, belongs to an account of its tenant, and repeats its token's payload. */
  predicate GoodRow(s: State, row: Row) {
    && row.Live()
    && row.id in s.used
    && Owned(s, row.session)
    && IssuedFor(s.cfg, row.tokenHash.raw, row.session)
    && row.tokenHash.raw.payload.jti in s.used
    && ExpiresAtOf(row.tokenHash.raw) == Some(row.expiresAt)
  }

  predicate GoodRequest(s: State, q: Request) {
    match q
    case LoginAccepted(t, u) => u in s.users && s.users[u].tenantId == t
    case RefreshFound(row) => row.AsCreated() in s.created
    case RefreshClaiming(row) => row.AsCreated() in s.created
    case Claimed(session) => Owned(s, session)
    case Checked(session) => Owned(s, session)
    case Signed(session, raw) =>
      Owned(s, session) && IssuedFor(s.cfg, raw, session) && raw.payload.jti in s.used
    case Pruned(session, raw) =>
      Owned(s, session) && IssuedFor(s.cfg, raw, session) && raw.payload.jti in s.used
    case Revoking(_, f) => f in s.used
    case _ => true
  }

  /** Every value in the state has a history: rows were created, and what was created was issued. */
  ghost predicate Sourced(s: State) {
    && (forall row :: row in s.created ==> GoodRow(s, row))
    && (forall id :: id in s.rows ==> s.rows[id].id == id && s.rows[id].AsCreated() in s.created)
    && (forall row :: row in s.claimed ==> row in s.created)
    && (forall r :: r in s.requests ==> GoodRequest(s, s.requests[r]))
  }

  /** What no step takes back. */
  ghost predicate Grows(s: State, s': State) {
    && s'.cfg == s.cfg
    && s.used <= s'.used
    && (forall u :: u in s.users ==> u in s'.users && s'.users[u].tenantId == s.users[u].tenantId)
    && (forall row :: row in s.created ==> row in s'.created)
  }

  lemma StepGrows(s: State, e: Event)
    ensures Grows(s, Step(s, e))
  {
  }

  lemma GoodRowKept(s: State, s': State, row: Row)
    requires Grows(s, s') && GoodRow(s, row)
    ensures GoodRow(s', row)
  {
  }

  lemma GoodRequestKept(s: State, s': State, q: Request)
    requires Grows(s, s') && GoodRequest(s, q)
    ensures GoodRequest(s', q)
  {
  }

  /** The step on which create() inserts a row, and that row. */
  predicate Inserts(s: State, e: Event) {
    e.Advance? && Enabled(s, e) && s.requests[e.id].Pruned? && ExpiresAtOf(s.requests[e.id].raw).Some?
  }

  function Inserted(s: State, e: Event): Row
    requires Inserts(s, e)
  {
    NewRow(e.uuid, s.requests[e.id].session, s.requests[e.id].raw)
  }

  lemma CreatedByStep(s: State, e: Event)
    ensures Step(s, e).created == if Inserts(s, e) then s.created + [Inserted(s, e)] else s.created
  {
  }

  /** A row after a step: the one just inserted, or one that was there, unchanged or revoked. */
  predicate RowFrom(s: State, e: Event, id: Uuid, row: Row) {
    || (Inserts(s, e) && id == e.uuid && row == Inserted(s, e))
    || (id in s.rows && row.AsCreated() == s.rows[id].AsCreated() && (row.Live() ==> row == s.rows[id]))
  }

  lemma TableByStep(s: State, e: Event, id: Uuid)
    requires id in Step(s, e).rows
    ensures RowFrom(s, e, id, Step(s, e).rows[id])
  {
  }

  /** How a request begins: an accepted login, a verified token, or nothing more to do. */
  predicate Begun(s: State, e: Event, q: Request) {
    match e
    case StartLogin(_, t, u) => q == LoginAccepted(t, u) && ActiveInTenant(s.users, u, t)
    case StartRefresh(_, raw) => q.Done? || (q.RefreshVerified? && q.raw == raw)
    case StartLogout(_, raw) => q.Done? || (q.LogoutVerified? && q.raw == raw)
    case _ => false
  }

  /** A request after a step: as it was, or the one that began, moved or was aborted. */
  ghost predicate RequestFrom(s: State, e: Event, r: RequestId, q: Request) {
    || (r in s.requests && q == s.requests[r])
    || (r !in s.requests && Begun(s, e, q) && e.id == r)
    || (e.Advance? && Enabled(s, e) && e.id == r && q == Next(s, s.requests[r], e.uuid))
    || (e.Abort? && Enabled(s, e) && e.id == r && q == Done(None))
  }

  lemma RequestByStep(s: State, e: Event, r: RequestId)
    requires r in Step(s, e).requests
    ensures RequestFrom(s, e, r, Step(s, e).requests[r])
  {
  }

  lemma GoodNext(s: State, q: Request, uuid: Uuid)
    requires Sourced(s) && GoodRequest(s, q) && !q.Done?
    ensures GoodRequest(s.(used := s.used + {uuid}), Next(s, q, uuid))
  {
  }

  lemma GoodMoved(s: State, e: Event, r: RequestId)
    requires Sourced(s)
    requires r in Step(s, e).requests
    ensures GoodRequest(Step(s, e), Step(s, e).requests[r])
  {
    var s' := Step(s, e);
    StepGrows(s, e);
    RequestByStep(s, e, r);
    if r in s.requests && s'.requests[r] == s.requests[r] {
      GoodRequestKept(s, s', s.requests[r]);
    } else if e.Advance? {
      GoodNext(s, s.requests[r], e.uuid);
      GoodRequestKept(s.(used := s.used + {e.uuid}), s', s'.requests[r]);
    }
  }

  lemma SourcedStep(s: State, e: Event)
    requires Sourced(s)
    ensures Sourced(Step(s, e))
  {
    var s' := Step(s, e);
    StepGrows(s, e);
    CreatedByStep(s, e);
    forall row | row in s'.created ensures GoodRow(s', row) {
      if row in s.created {
        GoodRowKept(s, s', row);
      }
    }
    forall id | id in s'.rows ensures s'.rows[id].id == id && s'.rows[id].AsCreated() in s'.created {
      TableByStep(s, e, id);
    }
    forall r | r in s'.requests ensures GoodRequest(s', s'.requests[r]) {
      GoodMoved(s, e, r);
    }
    assert forall row :: row in s'.claimed ==> row in s'.created;
  }

  ghost predicate AllDiffer(rows: seq<Row>) {
    forall i, j :: 0 <= i < j < |rows| ==> rows[i].id != rows[j].id && rows[i].tokenHash != rows[j].tokenHash
  }

  /** Row ids and tokens never repeat, in the table's history or in requests about to create a row. */
  ghost predicate Distinct(s: State) {
    && AllDiffer(s.created)
    && (forall row, r | row in s.created && r in s.requests && s.requests[r].Carries() ::
          row.tokenHash.raw != s.requests[r].raw)
    && (forall r, q | r in s.requests && q in s.requests && s.requests[r].Carries() && s.requests[q].Carries() ::
          s.requests[r].raw == s.requests[q].raw ==> r == q)
  }

  lemma SameId(s: State, a: Row, b: Row)
    requires Distinct(s)
    requires a in s.created && b in s.created
    requires a.id == b.id || a.tokenHash == b.tokenHash
    ensures a == b
  {
    var i :| 0 <= i < |s.created| && s.created[i] == a;
    var j :| 0 <= j < |s.created| && s.created[j] == b;
    assert !(i < j) && !(j < i);
  }

  // ----- a step as an equation -----

  /** The second state is the first with the request moved on, apart from its table and history. */
  predicate MovesTo(s: State, s': State, r: RequestId, x: Request, uuid: Uuid) {
    && s'.requests == s.requests[r := x] && s'.used == s.used + {uuid}
    && s'.cfg == s.cfg && s'.now == s.now && s'.users == s.users
  }

  lemma AdvanceMoves(s: State, e: Event)
    requires e.Advance? && Enabled(s, e)
    ensures
      var x, s' := s.requests[e.id], Step(s, e);
      && MovesTo(s, s', e.id, Next(s, x, e.uuid), e.uuid)
      && s'.rows == Effect(s, x, e.uuid).rows
      && s'.created == Effect(s, x, e.uuid).created && s'.claimed == Effect(s, x, e.uuid).claimed
  {
  }

  /** Only a request that advances writes to the table. */
  lemma OthersKeepRows(s: State, e: Event)
    requires !(e.Advance? && Enabled(s, e))
    ensures Step(s, e).rows == s.rows
  {
  }

  /** How a request begins. */
  function Start(cfg: Config, now: Millis, e: Event): Request
    requires e.StartLogin? || e.StartRefresh? || e.StartLogout?
  {
    match e
    case StartLogin(_, t, u) => LoginAccepted(t, u)
    case StartRefresh(_, raw) =>
      (match TryVerify(cfg, raw, now)
       case None => Done(None)
       case Some(payload) => RefreshVerified(payload.tenantId, raw))
    case StartLogout(_, raw) =>
      (match TryVerify(cfg, raw, now)
       case None => Done(None)
       case Some(payload) => LogoutVerified(payload.tenantId, raw))
  }

  lemma StartAdds(s: State, e: Event)
    requires e.StartLogin? || e.StartRefresh? || e.StartLogout?
    ensures Step(s, e) == if Enabled(s, e) then s.(requests := s.requests[e.id := Start(s.cfg, s.now, e)]) else s
  {
  }

  // ----- where requests of each kind come from -----

  /** The step on which a request signs its token. */
  predicate Signs(s: State, e: Event) {
    e.Advance? && Enabled(s, e) && s.requests[e.id].Checked?
  }

  /** A request that carries a token carried it before, or has just signed it. */
  predicate CarriedFrom(s: State, e: Event, r: RequestId, q: Request)
    requires q.Carries()
  {
    || (r in s.requests && s.requests[r].Carries() && s.requests[r].raw == q.raw &&
        s.requests[r].session == q.session && !(Inserts(s, e) && e.id == r))
    || (Signs(s, e) && e.id == r && q.session == s.requests[r].session &&
        q.raw == Sign(s.cfg, q.session.userId, q.session.tenantId, e.uuid, s.now))
  }

  lemma CarriedByNext(s: State, q: Request, uuid: Uuid)
    requires !q.Done? && Next(s, q, uuid).Carries()
    ensures
      var q' := Next(s, q, uuid);
      || (q.Signed? && q'.raw == q.raw && q'.session == q.session)
      || (q.Checked? && q'.session == q.session &&
          q'.raw == Sign(s.cfg, q.session.userId, q.session.tenantId, uuid, s.now))
  {
  }

  lemma CarriedByStep(s: State, e: Event, r: RequestId)
    requires r in Step(s, e).requests && Step(s, e).requests[r].Carries()
    ensures CarriedFrom(s, e, r, Step(s, e).requests[r])
  {
    RequestByStep(s, e, r);
    CarriedFromRequest(s, e, r, Step(s, e).requests[r]);
    if Inserts(s, e) && e.id == r {
      InsertEnds(s, e);
    }
  }

  lemma CarriedFromRequest(s: State, e: Event, r: RequestId, q: Request)
    requires q.Carries() && RequestFrom(s, e, r, q)
    requires Inserts(s, e) && e.id == r ==> q.Done?
    ensures CarriedFrom(s, e, r, q)
  {
    if e.Advance? && Enabled(s, e) && e.id == r && q == Next(s, s.requests[r], e.uuid) {
      CarriedByNext(s, s.requests[r], e.uuid);
    }
  }

  lemma InsertEnds(s: State, e: Event)
    requires Inserts(s, e)
    ensures e.id in Step(s, e).requests && Step(s, e).requests[e.id].Done?
  {
  }

  /** The step on which claim() succeeds. */
  predicate Claims(s: State, e: Event) {
    && e.Advance? && Enabled(s, e) && s.requests[e.id].RefreshClaiming?
    && Claimable(s.rows, s.requests[e.id].row.session.tenantId, s.requests[e.id].row.id)
  }

  /** The row a request found is still the row under that id. */
  lemma ClaimedRow(s: State, e: Event)
    requires Sourced(s) && Distinct(s) && Claims(s, e)
    ensures s.rows[s.requests[e.id].row.id] == s.requests[e.id].row.AsCreated()
  {
    var row := s.requests[e.id].row;
    assert GoodRequest(s, s.requests[e.id]);
    SameId(s, row.AsCreated(), s.rows[row.id].AsCreated());
  }

  /** The step on which a login opens its family. */
  predicate Opens(s: State, e: Event) {
    e.Advance? && Enabled(s, e) && s.requests[e.id].LoginAccepted?
  }

  /** A request in flight was so before, has claimed a row, or has opened a family. */
  predicate InFlightFrom(s: State, e: Event, r: RequestId, q: Request)
    requires q.InFlight()
  {
    || (r in s.requests && s.requests[r].InFlight() && s.requests[r].session == q.session &&
        !(Inserts(s, e) && e.id == r))
    || (Claims(s, e) && e.id == r && q.session == s.requests[r].row.session)
    || (Opens(s, e) && e.id == r && q.session == Session(s.requests[r].tenant, s.requests[r].user, e.uuid))
  }

  lemma InFlightByNext(s: State, q: Request, uuid: Uuid)
    requires !q.Done? && Next(s, q, uuid).InFlight()
    ensures
      var q' := Next(s, q, uuid);
      || (q.InFlight() && !q.Pruned? && q'.session == q.session)
      || (q.RefreshClaiming? && Claimable(s.rows, q.row.session.tenantId, q.row.id) && q'.session == q.row.session)
      || (q.LoginAccepted? && q'.session == Session(q.tenant, q.user, uuid))
  {
  }

  lemma InFlightFromRequest(s: State, e: Event, r: RequestId, q: Request)
    requires q.InFlight() && RequestFrom(s, e, r, q)
    requires Inserts(s, e) && e.id == r ==> q.Done?
    ensures InFlightFrom(s, e, r, q)
  {
    if e.Advance? && Enabled(s, e) && e.id == r && q == Next(s, s.requests[r], e.uuid) {
      InFlightByNext(s, s.requests[r], e.uuid);
    }
  }

  lemma InFlightByStep(s: State, e: Event, r: RequestId)
    requires r in Step(s, e).requests && Step(s, e).requests[r].InFlight()
    ensures InFlightFrom(s, e, r, Step(s, e).requests[r])
  {
    RequestByStep(s, e, r);
    if Inserts(s, e) && e.id == r {
      InsertEnds(s, e);
    }
    InFlightFromRequest(s, e, r, Step(s, e).requests[r]);
  }

  /** A request about to revoke was so before, was refused its user, or found a row of the family. */
  predicate RevokingFrom(s: State, e: Event, r: RequestId, q: Request)
    requires q.Revoking?
  {
    || (r in s.requests && s.requests[r] == q)
    || (Refuses(s, e) && e.id == r &&
        q == Revoking(s.requests[r].session.tenantId, s.requests[r].session.familyId))
    || KnownFamily(s, q.tenant, q.family)
  }

  /** Some row of the family was created, for that tenant. */
  predicate KnownFamily(s: State, tenant: Uuid, family: Uuid) {
    exists a :: a in s.created && a.session.tenantId == tenant && a.session.familyId == family
  }

  /** The step on which the user check fails. */
  predicate Refuses(s: State, e: Event) {
    && e.Advance? && Enabled(s, e) && s.requests[e.id].Claimed?
    && !ActiveInTenant(s.users, s.requests[e.id].session.userId, s.requests[e.id].session.tenantId)
  }

  lemma RevokingFromRequest(s: State, e: Event, r: RequestId, q: Request)
    requires Sourced(s) && q.Revoking? && RequestFrom(s, e, r, q)
    ensures RevokingFrom(s, e, r, q)
  {
    if e.Advance? && Enabled(s, e) && e.id == r && q == Next(s, s.requests[r], e.uuid) {
      match s.requests[r] {
        case RefreshClaiming(row) =>
          assert GoodRequest(s, s.requests[r]) && row.AsCreated().session == row.session;
        case LogoutVerified(t, raw) =>
          var found := FindByHash(s.rows, t, Sha256(raw)).value;
          assert found.AsCreated() in s.created && found.AsCreated().session == found.session;
        case _ =>
      }
    }
  }

  /** What the invariants need to know of a step. */
  ghost predicate FromStep(s: State, e: Event, s': State) {
    && Grows(s, s')
    && s'.created == (if Inserts(s, e) then s.created + [Inserted(s, e)] else s.created)
    && (forall id | id in s'.rows :: RowFrom(s, e, id, s'.rows[id]))
    && (forall r | r in s'.requests && s'.requests[r].Carries() :: CarriedFrom(s, e, r, s'.requests[r]))
    && (forall r | r in s'.requests && s'.requests[r].InFlight() :: InFlightFrom(s, e, r, s'.requests[r]))
    && (forall r | r in s'.requests && s'.requests[r].Revoking? :: RevokingFrom(s, e, r, s'.requests[r]))
    && (Refuses(s, e) ==> e.id in s'.requests && s'.requests[e.id].Revoking?)
    && (Claims(s, e) ==> s.requests[e.id].row.id in s'.rows && !s'.rows[s.requests[e.id].row.id].Live())
  }

  lemma RefusedByStep(s: State, e: Event)
    requires Refuses(s, e)
    ensures e.id in Step(s, e).requests && Step(s, e).requests[e.id].Revoking?
  {
  }

  lemma ClaimKills(s: State, e: Event)
    requires Claims(s, e)
    ensures
      var id := s.requests[e.id].row.id;
      id in Step(s, e).rows && !Step(s, e).rows[id].Live()
  {
  }

  lemma StepIsFromStep(s: State, e: Event)
    requires Sourced(s)
    ensures FromStep(s, e, Step(s, e))
  {
    var s' := Step(s, e);
    StepGrows(s, e);
    CreatedByStep(s, e);
    forall id | id in s'.rows ensures RowFrom(s, e, id, s'.rows[id]) { TableByStep(s, e, id); }
    forall r | r in s'.requests && s'.requests[r].Carries() ensures CarriedFrom(s, e, r, s'.requests[r]) {
      CarriedByStep(s, e, r);
    }
    forall r | r in s'.requests && s'.requests[r].InFlight() ensures InFlightFrom(s, e, r, s'.requests[r]) {
      InFlightByStep(s, e, r);
    }
    forall r | r in s'.requests && s'.requests[r].Revoking? ensures RevokingFrom(s, e, r, s'.requests[r]) {
      RequestByStep(s, e, r);
      RevokingFromRequest(s, e, r, s'.requests[r]);
    }
    if Refuses(s, e) {
      RefusedByStep(s, e);
    }
    if Claims(s, e) {
      ClaimKills(s, e);
    }
  }

  // ----- distinctness -----

  lemma CarriedMeetsCarried(s: State, e: Event, r: RequestId, q: Request, r2: RequestId, q2: Request)
    requires Sourced(s) && Distinct(s) && q.Carries() && q2.Carries()
    requires CarriedFrom(s, e, r, q) && CarriedFrom(s, e, r2, q2)
    ensures q.raw == q2.raw ==> r == r2
  {
    assert r in s.requests ==> GoodRequest(s, s.requests[r]);
    assert r2 in s.requests ==> GoodRequest(s, s.requests[r2]);
  }

  lemma CreatedMeetsCarried(s: State, e: Event, row: Row, r: RequestId, q: Request)
    requires Sourced(s) && Distinct(s) && q.Carries() && CarriedFrom(s, e, r, q)
    requires row in s.created || (Inserts(s, e) && row == Inserted(s, e))
    ensures row.tokenHash.raw != q.raw
  {
    assert row in s.created ==> GoodRow(s, row);
    if Inserts(s, e) {
      assert GoodRequest(s, s.requests[e.id]);
    }
  }

  lemma AllDifferPush(rows: seq<Row>, row: Row)
    requires AllDiffer(rows)
    requires forall r :: r in rows ==> r.id != row.id && r.tokenHash != row.tokenHash
    ensures AllDiffer(rows + [row])
  {
  }

  lemma CreatedDiffer(s: State, e: Event, s': State)
    requires Sourced(s) && Distinct(s) && FromStep(s, e, s')
    ensures AllDiffer(s'.created)
  {
    if Inserts(s, e) {
      forall row | row in s.created ensures row.id != e.uuid && row.tokenHash != Inserted(s, e).tokenHash {
        assert GoodRow(s, row);
      }
      AllDifferPush(s.created, Inserted(s, e));
    }
  }

  lemma DistinctAfter(s: State, e: Event, s': State)
    requires Sourced(s) && Distinct(s) && FromStep(s, e, s')
    ensures Distinct(s')
  {
    CreatedDiffer(s, e, s');
    forall row, r | row in s'.created && r in s'.requests && s'.requests[r].Carries()
      ensures row.tokenHash.raw != s'.requests[r].raw
    {
      CreatedMeetsCarried(s, e, row, r, s'.requests[r]);
    }
    forall r, q | r in s'.requests && q in s'.requests && s'.requests[r].Carries() && s'.requests[q].Carries()
      ensures s'.requests[r].raw == s'.requests[q].raw ==> r == q
    {
      CarriedMeetsCarried(s, e, r, s'.requests[r], q, s'.requests[q]);
    }
  }

  lemma DistinctStep(s: State, e: Event)
    requires Sourced(s) && Distinct(s)
    ensures Distinct(Step(s, e))
  {
    StepIsFromStep(s, e);
    DistinctAfter(s, e, Step(s, e));
  }

  // ----- one session, and one right, per family -----

  /** All rows ever created in a family, and the request in flight for it, share tenant and user. */
  ghost predicate OneSessionPerFamily(s: State) {
    && (forall a, b | a in s.created && b in s.created ::
          a.session.familyId == b.session.familyId ==> a.session == b.session)
    && (forall a, r | a in s.created && r in s.requests && s.requests[r].InFlight() ::
          a.session.familyId == s.requests[r].session.familyId ==> a.session == s.requests[r].session)
    && (forall a, r | a in s.created && r in s.requests && s.requests[r].Revoking? ::
          a.session.familyId == s.requests[r].family ==> a.session.tenantId == s.requests[r].tenant)
    && (forall r, q | r in s.requests && q in s.requests && s.requests[r].InFlight() && s.requests[q].Revoking? ::
          s.requests[r].session.familyId == s.requests[q].family ==>
            s.requests[r].session.tenantId == s.requests[q].tenant)
  }

  /** A family has at most one live row or request in flight, and never both. */
  ghost predicate Exclusive(s: State) {
    && (forall i, j | i in s.rows && j in s.rows && s.rows[i].Live() && s.rows[j].Live() ::
          s.rows[i].session.familyId == s.rows[j].session.familyId ==> i == j)
    && (forall i, r | i in s.rows && s.rows[i].Live() && r in s.requests && s.requests[r].InFlight() ::
          s.rows[i].session.familyId != s.requests[r].session.familyId)
    && (forall r, q | r in s.requests && q in s.requests && s.requests[r].InFlight() && s.requests[q].InFlight() ::
          s.requests[r].session.familyId == s.requests[q].session.familyId ==> r == q)
  }

  /** A row created by now: it was created before, or is being inserted. */
  predicate CreatedFrom(s: State, e: Event, a: Row) {
    a in s.created || (Inserts(s, e) && a == Inserted(s, e))
  }

  lemma CreatedMeetsInFlight(s: State, e: Event, a: Row, r: RequestId, q: Request)
    requires Sourced(s) && Distinct(s) && OneSessionPerFamily(s) && Exclusive(s)
    requires CreatedFrom(s, e, a) && q.InFlight() && InFlightFrom(s, e, r, q)
    ensures a.session.familyId == q.session.familyId ==> a.session == q.session
  {
    if a in s.created {
      assert GoodRow(s, a);
      if Claims(s, e) {
        assert GoodRequest(s, s.requests[e.id]);
        assert s.requests[e.id].row.AsCreated().session == s.requests[e.id].row.session;
      }
    } else {
      assert GoodRequest(s, s.requests[e.id]) && a.session == s.requests[e.id].session;
    }
  }

  lemma CreatedMeetsRevoking(s: State, e: Event, a: Row, r: RequestId, q: Request)
    requires Sourced(s) && OneSessionPerFamily(s)
    requires CreatedFrom(s, e, a) && q.Revoking? && RevokingFrom(s, e, r, q)
    ensures a.session.familyId == q.family ==> a.session.tenantId == q.tenant
  {
  }

  lemma InFlightMeetsOldRevoking(s: State, e: Event, r: RequestId, q: Request, w: RequestId)
    requires Sourced(s) && Distinct(s) && OneSessionPerFamily(s)
    requires q.InFlight() && InFlightFrom(s, e, r, q) && w in s.requests && s.requests[w].Revoking?
    ensures q.session.familyId == s.requests[w].family ==> q.session.tenantId == s.requests[w].tenant
  {
    assert GoodRequest(s, s.requests[w]);
    if Claims(s, e) {
      assert GoodRequest(s, s.requests[e.id]);
      assert s.requests[e.id].row.AsCreated().session == s.requests[e.id].row.session;
    }
  }

  /** A request refused by the user check was the only one in flight for its family. */
  lemma RefusedWasAlone(s: State, e: Event, r: RequestId, q: Request)
    requires Exclusive(s) && Refuses(s, e) && q.InFlight() && InFlightFrom(s, e, r, q) && r != e.id
    ensures q.session.familyId != s.requests[e.id].session.familyId
  {
  }

  lemma InFlightMeetsRevoking(s: State, e: Event, r: RequestId, q: Request, w: RequestId, v: Request)
    requires Sourced(s) && Distinct(s) && OneSessionPerFamily(s) && Exclusive(s)
    requires q.InFlight() && InFlightFrom(s, e, r, q) && v.Revoking? && RevokingFrom(s, e, w, v) && r != w
    ensures q.session.familyId == v.family ==> q.session.tenantId == v.tenant
  {
    if w in s.requests && s.requests[w] == v {
      InFlightMeetsOldRevoking(s, e, r, q, w);
    } else if Refuses(s, e) && e.id == w && v.family == s.requests[w].session.familyId {
      RefusedWasAlone(s, e, r, q);
    } else if KnownFamily(s, v.tenant, v.family) {
      InFlightMeetsKnown(s, e, r, q, v.tenant, v.family);
    }
  }

  lemma InFlightMeetsKnown(s: State, e: Event, r: RequestId, q: Request, tenant: Uuid, family: Uuid)
    requires Sourced(s) && Distinct(s) && OneSessionPerFamily(s) && Exclusive(s)
    requires q.InFlight() && InFlightFrom(s, e, r, q) && KnownFamily(s, tenant, family)
    ensures q.session.familyId == family ==> q.session.tenantId == tenant
  {
    var a :| a in s.created && a.session.tenantId == tenant && a.session.familyId == family;
    CreatedMeetsInFlight(s, e, a, r, q);
  }

  lemma CreatedAfter(s: State, e: Event, s': State, a: Row)
    requires FromStep(s, e, s') && a in s'.created
    ensures CreatedFrom(s, e, a)
  {
  }

  lemma CreatedMeetsCreated(s: State, e: Event, a: Row, b: Row)
    requires OneSessionPerFamily(s) && CreatedFrom(s, e, a) && CreatedFrom(s, e, b)
    ensures a.session.familyId == b.session.familyId ==> a.session == b.session
  {
    assert Inserts(s, e) ==> s.requests[e.id].InFlight() && Inserted(s, e).session == s.requests[e.id].session;
  }

  lemma OneSessionOfCreated(s: State, e: Event, s': State)
    requires Sourced(s) && Distinct(s) && OneSessionPerFamily(s) && Exclusive(s) && FromStep(s, e, s')
    ensures forall a, b | a in s'.created && b in s'.created ::
        a.session.familyId == b.session.familyId ==> a.session == b.session
    ensures forall a, r | a in s'.created && r in s'.requests && s'.requests[r].InFlight() ::
        a.session.familyId == s'.requests[r].session.familyId ==> a.session == s'.requests[r].session
  {
    forall a, b | a in s'.created && b in s'.created
      ensures a.session.familyId == b.session.familyId ==> a.session == b.session
    {
      CreatedAfter(s, e, s', a);
      CreatedAfter(s, e, s', b);
      CreatedMeetsCreated(s, e, a, b);
    }
    forall a, r | a in s'.created && r in s'.requests && s'.requests[r].InFlight()
      ensures a.session.familyId == s'.requests[r].session.familyId ==> a.session == s'.requests[r].session
    {
      CreatedAfter(s, e, s', a);
      CreatedMeetsInFlight(s, e, a, r, s'.requests[r]);
    }
  }

  lemma OneSessionOfRevoking(s: State, e: Event, s': State)
    requires Sourced(s) && OneSessionPerFamily(s) && FromStep(s, e, s')
    ensures forall a, r | a in s'.created && r in s'.requests && s'.requests[r].Revoking? ::
        a.session.familyId == s'.requests[r].family ==> a.session.tenantId == s'.requests[r].tenant
  {
    forall a, r | a in s'.created && r in s'.requests && s'.requests[r].Revoking?
      ensures a.session.familyId == s'.requests[r].family ==> a.session.tenantId == s'.requests[r].tenant
    {
      CreatedAfter(s, e, s', a);
      CreatedMeetsRevoking(s, e, a, r, s'.requests[r]);
    }
  }

  lemma OneSessionInFlight(s: State, e: Event, s': State)
    requires Sourced(s) && Distinct(s) && OneSessionPerFamily(s) && Exclusive(s) && FromStep(s, e, s')
    ensures forall r, q | r in s'.requests && q in s'.requests && s'.requests[r].InFlight() &&
          s'.requests[q].Revoking? ::
        s'.requests[r].session.familyId == s'.requests[q].family ==>
          s'.requests[r].session.tenantId == s'.requests[q].tenant
  {
    forall r, q | r in s'.requests && q in s'.requests && s'.requests[r].InFlight() && s'.requests[q].Revoking?
      ensures s'.requests[r].session.familyId == s'.requests[q].family ==>
          s'.requests[r].session.tenantId == s'.requests[q].tenant
    {
      var x, v := s'.requests[r], s'.requests[q];
      assert InFlightFrom(s, e, r, x) && RevokingFrom(s, e, q, v);
      InFlightMeetsRevoking(s, e, r, x, q, v);
    }
  }

  lemma OneSessionAfter(s: State, e: Event, s': State)
    requires Sourced(s) && Distinct(s) && OneSessionPerFamily(s) && Exclusive(s) && FromStep(s, e, s')
    ensures OneSessionPerFamily(s')
  {
    OneSessionOfCreated(s, e, s');
    OneSessionOfRevoking(s, e, s');
    OneSessionInFlight(s, e, s');
  }

  lemma OneSessionStep(s: State, e: Event)
    requires Sourced(s) && Distinct(s) && OneSessionPerFamily(s) && Exclusive(s)
    ensures OneSessionPerFamily(Step(s, e))
  {
    StepIsFromStep(s, e);
    OneSessionAfter(s, e, Step(s, e));
  }

  lemma LiveMeetsLive(s: State, e: Event, i: Uuid, a: Row, j: Uuid, b: Row)
    requires Sourced(s) && Exclusive(s) && RowFrom(s, e, i, a) && RowFrom(s, e, j, b) && a.Live() && b.Live()
    ensures a.session.familyId == b.session.familyId ==> i == j
  {
  }

  lemma LiveMeetsInFlight(s: State, e: Event, i: Uuid, a: Row, r: RequestId, q: Request)
    requires Sourced(s) && Distinct(s) && Exclusive(s)
    requires RowFrom(s, e, i, a) && a.Live() && q.InFlight() && InFlightFrom(s, e, r, q)
    requires Claims(s, e) ==> i != s.requests[e.id].row.id
    ensures a.session.familyId != q.session.familyId
  {
    if i in s.rows {
      assert GoodRow(s, s.rows[i].AsCreated());
    }
    if Claims(s, e) {
      ClaimedRow(s, e);
    } else if Inserts(s, e) {
      assert GoodRequest(s, s.requests[e.id]);
    }
  }

  lemma InFlightMeetsInFlight(s: State, e: Event, r: RequestId, q: Request, r2: RequestId, q2: Request)
    requires Sourced(s) && Distinct(s) && Exclusive(s) && q.InFlight() && q2.InFlight()
    requires InFlightFrom(s, e, r, q) && InFlightFrom(s, e, r2, q2)
    ensures q.session.familyId == q2.session.familyId ==> r == r2
  {
    if r == r2 {
    } else if !WasInFlight(s, r, q) {
      NewMeetsOld(s, e, r, q, r2);
    } else if !WasInFlight(s, r2, q2) {
      NewMeetsOld(s, e, r2, q2, r);
    }
  }

  predicate WasInFlight(s: State, r: RequestId, q: Request)
    requires q.InFlight()
  {
    r in s.requests && s.requests[r].InFlight() && s.requests[r].session == q.session
  }

  /** A request that enters flight has claimed a live row or drawn a fresh id, so it meets none of its family. */
  lemma NewMeetsOld(s: State, e: Event, r: RequestId, q: Request, other: RequestId)
    requires Sourced(s) && Distinct(s) && Exclusive(s) && other in s.requests && s.requests[other].InFlight()
    requires q.InFlight() && InFlightFrom(s, e, r, q) && !WasInFlight(s, r, q)
    ensures q.session.familyId != s.requests[other].session.familyId
  {
    assert GoodRequest(s, s.requests[other]);
    if Claims(s, e) {
      ClaimedRow(s, e);
    }
  }

  lemma ExclusiveAfter(s: State, e: Event, s': State)
    requires Sourced(s) && Distinct(s) && Exclusive(s) && FromStep(s, e, s')
    ensures Exclusive(s')
  {
    forall i, j | i in s'.rows && j in s'.rows && s'.rows[i].Live() && s'.rows[j].Live()
      ensures s'.rows[i].session.familyId == s'.rows[j].session.familyId ==> i == j
    {
      LiveMeetsLive(s, e, i, s'.rows[i], j, s'.rows[j]);
    }
    forall i, r | i in s'.rows && s'.rows[i].Live() && r in s'.requests && s'.requests[r].InFlight()
      ensures s'.rows[i].session.familyId != s'.requests[r].session.familyId
    {
      LiveMeetsInFlight(s, e, i, s'.rows[i], r, s'.requests[r]);
    }
    forall r, q | r in s'.requests && q in s'.requests && s'.requests[r].InFlight() && s'.requests[q].InFlight()
      ensures s'.requests[r].session.familyId == s'.requests[q].session.familyId ==> r == q
    {
      InFlightMeetsInFlight(s, e, r, s'.requests[r], q, s'.requests[q]);
    }
  }

  lemma ExclusiveStep(s: State, e: Event)
    requires Sourced(s) && Distinct(s) && Exclusive(s)
    ensures Exclusive(Step(s, e))
  {
    StepIsFromStep(s, e);
    ExclusiveAfter(s, e, Step(s, e));
  }

  lemma TableIsWellFormed(s: State)
    requires Sourced(s) && Distinct(s)
    ensures WellFormed(s.rows)
  {
    forall i, j | i in s.rows && j in s.rows && s.rows[i].tokenHash == s.rows[j].tokenHash ensures i == j {
      SameId(s, s.rows[i].AsCreated(), s.rows[j].AsCreated());
    }
  }

  ghost predicate Inv(s: State) {
    Sourced(s) && Distinct(s) && OneSessionPerFamily(s) && Exclusive(s)
  }

  lemma InvInit(cfg: Config, now: Millis, users: map<Uuid, Account>)
    ensures Inv(Init(cfg, now, users))
  {
  }

  lemma InvStep(s: State, e: Event)
    requires Inv(s)
    ensures Inv(Step(s, e))
  {
    SourcedStep(s, e);
    DistinctStep(s, e);
    OneSessionStep(s, e);
    ExclusiveStep(s, e);
  }

  lemma {:induction false} InvRun(s: State, events: seq<Event>)
    requires Inv(s)
    ensures Inv(Run(s, events))
    decreases |events|
  {
    if events == [] {
    } else {
      InvStep(s, events[0]);
      InvRun(Step(s, events[0]), events[1..]);
    }
  }

  lemma {:induction false} ClockNeverGoesBack(s: State, events: seq<Event>)
    ensures s.now <= Run(s, events).now
    decreases |events|
  {
    if events == [] {
    } else {
      ClockNeverGoesBack(Step(s, events[0]), events[1..]);
    }
  }

  /** The states some run leads to, from an empty table. */
  ghost predicate Reachable(s: State) {
    exists cfg, now, users, events :: Run(Init(cfg, now, users), events) == s
  }

  lemma RunCons(s: State, e: Event, rest: seq<Event>)
    ensures Run(s, [e] + rest) == Run(Step(s, e), rest)
  {
    assert ([e] + rest)[1..] == rest;
  }

  lemma {:induction false} RunAppend(s: State, before: seq<Event>, after: seq<Event>)
    ensures Run(s, before + after) == Run(Run(s, before), after)
    decreases |before|
  {
    if before == [] {
      assert before + after == after;
    } else {
      assert (before + after)[1..] == before[1..] + after;
      RunAppend(Step(s, before[0]), before[1..], after);
    }
  }

  lemma ReachableRun(s: State, events: seq<Event>)
    requires Reachable(s)
    ensures Reachable(Run(s, events))
  {
    var cfg, now, users, past :| Run(Init(cfg, now, users), past) == s;
    RunAppend(Init(cfg, now, users), past, events);
  }

  lemma ReachableStep(s: State, e: Event)
    requires Reachable(s)
    ensures Reachable(Step(s, e))
  {
    ReachableRun(s, [e]);
    assert Run(s, [e]) == Step(s, e);
  }

  lemma ReachableInv(s: State)
    requires Reachable(s)
    ensures Inv(s)
  {
    var cfg, now, users, events :| Run(Init(cfg, now, users), events) == s;
    InvInit(cfg, now, users);
    InvRun(Init(cfg, now, users), events);
  }

  /**
   * Ownership: every stored row is one that was created, every row created repeats the tenant, user
   * and expiry signed into its token, and all rows ever created in one family are of one session,
   * through login, rotation and the user's re-lookup.
   */
  lemma RowsBelongToTheirTokens(s: State)
    requires Reachable(s)
    ensures forall id :: id in s.rows ==> s.rows[id].id == id && s.rows[id].AsCreated() in s.created
    ensures forall row :: row in s.created ==>
        IssuedFor(s.cfg, row.tokenHash.raw, row.session) && ExpiresAtOf(row.tokenHash.raw) == Some(row.expiresAt)
    ensures forall a, b | a in s.created && b in s.created ::
        a.session.familyId == b.session.familyId ==> a.session == b.session
  {
    ReachableInv(s);
    assert forall row :: row in s.created ==> GoodRow(s, row);
  }
}
