/**
 * What revoking a family (reuse detected, user refused, or logout) achieves under interleaving. The
 * update takes out the live row, but not a rotation already past its claim, which can still create
 * the next row. Revocation is permanent exactly when no such rotation is in flight.
 */
module Revocation {
  import opened Wrappers
  import opened Tokens
  import opened TokenTable
  import opened SessionProtocol
  import opened ProtocolInvariants
  import opened SessionSafety

  ghost predicate HasLiveRow(s: State, family: Uuid) {
    exists id :: id in s.rows && s.rows[id].Live() && s.rows[id].session.familyId == family
  }

  predicate Revokes(s: State, e: Event) {
    e.Advance? && Enabled(s, e) && s.requests[e.id].Revoking?
  }

  lemma RevokedByStep(s: State, e: Event)
    requires Revokes(s, e)
    ensures Step(s, e).rows == RevokeFamily(s.rows, s.requests[e.id].tenant, s.requests[e.id].family, s.now)
  {
  }

  /** The update's tenant is that of every row of the family. */
  lemma FamilyIsInReach(s: State, e: Event, id: Uuid)
    requires Inv(s) && Revokes(s, e) && id in s.rows && s.rows[id].session.familyId == s.requests[e.id].family
    ensures InFamily(s.rows[id], s.requests[e.id].tenant, s.requests[e.id].family)
  {
    assert s.rows[id].AsCreated() in s.created;
  }

  lemma NoLiveRowAfterRevoke(s: State, e: Event)
    requires Inv(s) && Revokes(s, e)
    ensures !HasLiveRow(Step(s, e), s.requests[e.id].family)
  {
    RevokedByStep(s, e);
    forall id | id in s.rows && s.rows[id].session.familyId == s.requests[e.id].family
      ensures InFamily(s.rows[id], s.requests[e.id].tenant, s.requests[e.id].family)
    {
      FamilyIsInReach(s, e, id);
    }
  }

  // ----- with a rotation in flight, it can come back -----

  /** In flight, and not with a token that was signed without an expiry, which create() never stores. */
  predicate Lands(q: Request) {
    q.InFlight() && (q.Carries() ==> ExpiresAtOf(q.raw).Some?)
  }

  ghost predicate CanLand(s: State, family: Uuid) {
    exists r :: r in s.requests && Lands(s.requests[r]) && s.requests[r].session.familyId == family
  }

  function StepsLeft(q: Request): nat {
    match q
    case Claimed(_) => 4
    case Checked(_) => 3
    case Signed(_, _) => 2
    case Pruned(_, _) => 1
    case _ => 0
  }

  /** One step towards the insert, the account being active and the clock past its first second. */
  lemma NextLands(s: State, q: Request, uuid: Uuid)
    requires Lands(q) && !q.Pruned? && s.now >= 1000
    requires ActiveInTenant(s.users, q.session.userId, q.session.tenantId)
    ensures
      var q' := Next(s, q, uuid);
      Lands(q') && q'.session == q.session && StepsLeft(q') < StepsLeft(q)
  {
  }

  lemma InsertLands(s: State, e: Event)
    requires Inserts(s, e)
    ensures HasLiveRow(Step(s, e), Inserted(s, e).session.familyId)
  {
    assert Step(s, e).rows[e.uuid] == Inserted(s, e);
  }

  /** Left to itself, such a request gives its family a live row. */
  lemma {:induction false} FlightLands(s: State, r: RequestId) returns (events: seq<Event>)
    requires r in s.requests && Lands(s.requests[r]) && s.now >= 1000
    requires ActiveInTenant(s.users, s.requests[r].session.userId, s.requests[r].session.tenantId)
    ensures HasLiveRow(Run(s, events), s.requests[r].session.familyId)
    decreases StepsLeft(s.requests[r])
  {
    var uuid := AboveAll(s.used);
    var e := Advance(r, uuid);
    if s.requests[r].Pruned? {
      InsertLands(s, e);
      events := [e];
      assert Run(s, events) == Run(Step(s, e), []);
    } else {
      AdvanceMoves(s, e);
      NextLands(s, s.requests[r], uuid);
      var rest := FlightLands(Step(s, e), r);
      RunCons(s, e, rest);
      events := [e] + rest;
    }
  }

  /** In some continuation the account is active, and the request goes on. */
  lemma HeldCanLand(s: State, family: Uuid) returns (events: seq<Event>)
    requires Inv(s) && CanLand(s, family)
    ensures HasLiveRow(Run(s, events), family)
  {
    var r :| r in s.requests && Lands(s.requests[r]) && s.requests[r].session.familyId == family;
    var session := s.requests[r].session;
    assert GoodRequest(s, s.requests[r]);
    var activate := SetAccount(session.userId, Account(session.tenantId, true));
    var later := Step(s, Tick(1000));
    var rest := FlightLands(Step(later, activate), r);
    RunCons(later, activate, rest);
    RunCons(s, Tick(1000), [activate] + rest);
    events := [Tick(1000)] + ([activate] + rest);
  }

  // ----- with none, it cannot -----

  /** No live row, and what is in flight will not be stored. */
  ghost predicate Barren(s: State, family: Uuid) {
    family in s.used && !HasLiveRow(s, family) && !CanLand(s, family)
  }

  lemma StillCannotLand(s: State, e: Event, family: Uuid, r: RequestId, q: Request)
    requires Inv(s) && Barren(s, family)
    requires RequestFrom(s, e, r, q) && Lands(q)
    ensures q.session.familyId != family
  {
    if e.Advance? && Enabled(s, e) && e.id == r && q == Next(s, s.requests[r], e.uuid) {
      InFlightByNext(s, s.requests[r], e.uuid);
      if q.Carries() {
        CarriedByNext(s, s.requests[r], e.uuid);
      }
      if Claims(s, e) {
        ClaimedRow(s, e);
      }
    }
  }

  lemma BarrenStep(s: State, e: Event, family: Uuid)
    requires Inv(s) && Barren(s, family)
    ensures Barren(Step(s, e), family)
  {
    var s' := Step(s, e);
    StepGrows(s, e);
    forall id | id in s'.rows && s'.rows[id].Live() ensures s'.rows[id].session.familyId != family {
      TableByStep(s, e, id);
      if Inserts(s, e) && s'.rows[id] == Inserted(s, e) {
        assert Lands(s.requests[e.id]);
      }
    }
    forall r | r in s'.requests && Lands(s'.requests[r]) ensures s'.requests[r].session.familyId != family {
      RequestByStep(s, e, r);
      StillCannotLand(s, e, family, r, s'.requests[r]);
    }
  }

  lemma {:induction false} BarrenRun(s: State, events: seq<Event>, family: Uuid)
    requires Inv(s) && Barren(s, family)
    ensures !HasLiveRow(Run(s, events), family)
    decreases |events|
  {
    if events == [] {
    } else {
      BarrenStep(s, events[0], family);
      InvStep(s, events[0]);
      BarrenRun(Step(s, events[0]), events[1..], family);
    }
  }

  /** A revocation moves no request but its own. */
  lemma OthersThroughRevoke(s: State, e: Event)
    requires Revokes(s, e)
    ensures
      var requests := Step(s, e).requests;
      && requests.Keys == s.requests.Keys && requests[e.id] == Done(None)
      && forall r :: r in s.requests && r != e.id ==> requests[r] == s.requests[r]
  {
  }

  lemma CanLandThroughRevoke(s: State, e: Event, family: Uuid)
    requires Revokes(s, e)
    ensures CanLand(Step(s, e), family) <==> CanLand(s, family)
    ensures Held(Step(s, e), family) <==> Held(s, family)
  {
    OthersThroughRevoke(s, e);
    var s' := Step(s, e);
    if CanLand(s, family) {
      var r :| r in s.requests && Lands(s.requests[r]) && s.requests[r].session.familyId == family;
      assert Lands(s'.requests[r]);
    }
    if Held(s, family) {
      var r :| r in s.requests && s.requests[r].InFlight() && s.requests[r].session.familyId == family;
      assert s'.requests[r].InFlight();
    }
  }

  lemma SomedayLive(s: State, family: Uuid)
    requires Inv(s) && CanLand(s, family)
    ensures exists events :: HasLiveRow(Run(s, events), family)
  {
    var events := HeldCanLand(s, family);
  }

  lemma NeverAgainIff(s: State, family: Uuid)
    requires Inv(s) && family in s.used && !HasLiveRow(s, family)
    ensures (forall events :: !HasLiveRow(Run(s, events), family)) <==> !CanLand(s, family)
  {
    if CanLand(s, family) {
      SomedayLive(s, family);
    } else {
      forall events ensures !HasLiveRow(Run(s, events), family) {
        BarrenRun(s, events, family);
      }
    }
  }

  /**
   * After revokeFamily no row of the family is live, and it stays so in every continuation if and
   * only if no request that can still store a row is in flight for the family at that moment.
   */
  lemma RevocationIsPermanentIff(s: State, e: Event)
    requires Reachable(s) && Revokes(s, e)
    ensures
      var family := s.requests[e.id].family;
      && !HasLiveRow(Step(s, e), family)
      && ((forall events :: !HasLiveRow(Run(Step(s, e), events), family)) <==> !CanLand(s, family))
  {
    ReachableInv(s);
    assert GoodRequest(s, s.requests[e.id]);
    NoLiveRowAfterRevoke(s, e);
    InvStep(s, e);
    StepGrows(s, e);
    CanLandThroughRevoke(s, e, s.requests[e.id].family);
    NeverAgainIff(Step(s, e), s.requests[e.id].family);
  }

  /** With a positive lifetime every signed token has an expiry, so every request in flight can land. */
  lemma HeldLands(s: State, family: Uuid)
    requires Reachable(s) && s.cfg.lifetime > 0
    ensures CanLand(s, family) <==> Held(s, family)
  {
    ReachableInv(s);
    if Held(s, family) {
      var r :| r in s.requests && s.requests[r].InFlight() && s.requests[r].session.familyId == family;
      assert GoodRequest(s, s.requests[r]) && Lands(s.requests[r]);
    }
  }

  lemma RefusedEndsFamily(s: State, e: Event)
    requires Inv(s) && Refuses(s, e)
    ensures Dead(Step(s, e), s.requests[e.id].session.familyId)
  {
    var family := s.requests[e.id].session.familyId;
    assert GoodRequest(s, s.requests[e.id]);
    StepIsFromStep(s, e);
    forall id | id in Step(s, e).rows && Step(s, e).rows[id].Live()
      ensures Step(s, e).rows[id].session.familyId != family
    {
      assert s.requests[e.id].InFlight();
    }
    forall r | r in Step(s, e).requests && Step(s, e).requests[r].InFlight()
      ensures Step(s, e).requests[r].session.familyId != family
    {
      RefusedWasAlone(s, e, r, Step(s, e).requests[r]);
    }
  }

  /**
   * The revokeFamily that follows a failed user check finds no live row to revoke, in any
   * interleaving: the rotation's own claim has already ended the session for good.
   */
  lemma RevokingARefusedUserIsRedundant(s: State, e: Event, events: seq<Event>)
    requires Reachable(s) && Refuses(s, e)
    ensures
      var session := s.requests[e.id].session;
      var end := Run(Step(s, e), events);
      RevokeFamily(end.rows, session.tenantId, session.familyId, end.now) == end.rows
  {
    ReachableInv(s);
    RefusedEndsFamily(s, e);
    InvStep(s, e);
    DeadRun(Step(s, e), events, s.requests[e.id].session.familyId);
    RevokingNothing(Run(Step(s, e), events), s.requests[e.id].session.tenantId, s.requests[e.id].session.familyId);
  }

  lemma RevokingNothing(s: State, tenant: Uuid, family: Uuid)
    requires Dead(s, family)
    ensures RevokeFamily(s.rows, tenant, family, s.now) == s.rows
  {
  }
}
