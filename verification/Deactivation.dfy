/** What is left of a user's sessions once the account is inactive and stays so. */
module Deactivation {
  import opened Wrappers
  import opened Tokens
  import opened TokenTable
  import opened SessionProtocol
  import opened ProtocolInvariants
  import opened SessionSafety
  import opened Revocation

  ghost predicate Inactive(s: State, user: Uuid) {
    user in s.users && !s.users[user].isActive
  }

  /** No event of the run makes the user active again. */
  ghost predicate NeverActivates(events: seq<Event>, user: Uuid) {
    forall e :: e in events && e.SetAccount? && e.user == user ==> !e.account.isActive
  }

  /** The family was opened for the user: its rows and its request in flight are the user's. */
  ghost predicate BelongsTo(s: State, family: Uuid, user: Uuid) {
    && family in s.used
    && (forall row :: row in s.created && row.session.familyId == family ==> row.session.userId == user)
    && (forall r | r in s.requests && s.requests[r].InFlight() ::
          s.requests[r].session.familyId == family ==> s.requests[r].session.userId == user)
  }

  lemma BelongsAfter(s: State, e: Event, s': State, family: Uuid, user: Uuid)
    requires Sourced(s) && BelongsTo(s, family, user) && FromStep(s, e, s')
    ensures BelongsTo(s', family, user)
  {
    forall r | r in s'.requests && s'.requests[r].InFlight()
      ensures s'.requests[r].session.familyId == family ==> s'.requests[r].session.userId == user
    {
      if Claims(s, e) {
        assert GoodRequest(s, s.requests[e.id]);
        assert s.requests[e.id].row.AsCreated().session == s.requests[e.id].row.session;
      }
    }
  }

  lemma BelongsStep(s: State, e: Event, family: Uuid, user: Uuid)
    requires Inv(s) && BelongsTo(s, family, user)
    ensures BelongsTo(Step(s, e), family, user)
  {
    StepIsFromStep(s, e);
    BelongsAfter(s, e, Step(s, e), family, user);
  }

  ghost predicate PastCheck(s: State, family: Uuid) {
    exists r :: r in s.requests && s.requests[r].PastUserCheck() && s.requests[r].session.familyId == family
  }

  /** Rows created in the family so far, and the one a request past the user check may still create. */
  ghost function Potential(s: State, family: Uuid): nat {
    CountIn(s.created, family) + if PastCheck(s, family) then 1 else 0
  }

  lemma NextPastCheck(s: State, q: Request, uuid: Uuid)
    requires !q.Done? && Next(s, q, uuid).PastUserCheck()
    ensures
      var q' := Next(s, q, uuid);
      || (q.PastUserCheck() && !q.Pruned? && q'.session == q.session)
      || (q.LoginAccepted? && q'.session == Session(q.tenant, q.user, uuid))
      || (q.Claimed? && ActiveInTenant(s.users, q.session.userId, q.session.tenantId) && q'.session == q.session)
  {
  }

  /** Nobody passes the user check into the family: its user is inactive, and a login opens its own. */
  lemma NoNewPastCheck(s: State, e: Event, r: RequestId, q: Request, family: Uuid, user: Uuid)
    requires BelongsTo(s, family, user) && Inactive(s, user)
    requires RequestFrom(s, e, r, q) && q.PastUserCheck() && q.session.familyId == family
    ensures r in s.requests && s.requests[r].PastUserCheck() && s.requests[r].session.familyId == family
    ensures q == s.requests[r] || !s.requests[r].Pruned?
  {
    if e.Advance? && Enabled(s, e) && e.id == r && q == Next(s, s.requests[r], e.uuid) {
      NextPastCheck(s, s.requests[r], e.uuid);
    }
  }

  lemma PastCheckByStep(s: State, e: Event, family: Uuid, user: Uuid)
    requires Inv(s) && BelongsTo(s, family, user) && Inactive(s, user)
    requires PastCheck(Step(s, e), family)
    ensures PastCheck(s, family)
    ensures !(Inserts(s, e) && Inserted(s, e).session.familyId == family)
  {
    var r :| r in Step(s, e).requests && Step(s, e).requests[r].PastUserCheck() &&
        Step(s, e).requests[r].session.familyId == family;
    RequestByStep(s, e, r);
    NoNewPastCheck(s, e, r, Step(s, e).requests[r], family, user);
    if Inserts(s, e) {
      InsertEnds(s, e);
      assert s.requests[e.id].InFlight();
    }
  }

  lemma PotentialStep(s: State, e: Event, family: Uuid, user: Uuid)
    requires Inv(s) && BelongsTo(s, family, user) && Inactive(s, user)
    ensures Potential(Step(s, e), family) <= Potential(s, family)
  {
    CreatedByStep(s, e);
    if Inserts(s, e) {
      CountInPush(s.created, Inserted(s, e), family);
      assert s.requests[e.id].PastUserCheck();
    }
    if PastCheck(Step(s, e), family) {
      PastCheckByStep(s, e, family, user);
    }
  }

  lemma QuietStep(s: State, events: seq<Event>, user: Uuid)
    requires Inactive(s, user) && events != [] && NeverActivates(events, user)
    ensures Inactive(Step(s, events[0]), user) && NeverActivates(events[1..], user)
  {
    assert events[0] in events;
    assert forall e :: e in events[1..] ==> e in events;
  }

  lemma {:induction false} PotentialRun(s: State, events: seq<Event>, family: Uuid, user: Uuid)
    requires Inv(s) && BelongsTo(s, family, user) && Inactive(s, user) && NeverActivates(events, user)
    ensures Potential(Run(s, events), family) <= Potential(s, family)
    decreases |events|
  {
    if events == [] {
    } else {
      QuietStep(s, events, user);
      PotentialStep(s, events[0], family, user);
      BelongsStep(s, events[0], family, user);
      InvStep(s, events[0]);
      PotentialRun(Step(s, events[0]), events[1..], family, user);
    }
  }

  /**
   * While the user stays inactive, each existing family of theirs gains at most one row, and none
   * unless a request was already past the active check.
   */
  lemma AtMostOneMoreRow(s: State, events: seq<Event>, family: Uuid, user: Uuid)
    requires Reachable(s) && BelongsTo(s, family, user) && Inactive(s, user) && NeverActivates(events, user)
    ensures CountIn(Run(s, events).created, family) <=
        CountIn(s.created, family) + if PastCheck(s, family) then 1 else 0
  {
    ReachableInv(s);
    PotentialRun(s, events, family, user);
  }

  // ----- all the user's families at once -----

  /** An accepted login, or a request past the user check: it may still store a row for the user. */
  predicate MayStore(q: Request, user: Uuid) {
    (q.LoginAccepted? && q.user == user) || (q.PastUserCheck() && q.session.userId == user)
  }

  ghost function Pending(s: State, user: Uuid): set<RequestId> {
    set r | r in s.requests && MayStore(s.requests[r], user)
  }

  function CountFor(rows: seq<Row>, user: Uuid): nat {
    if rows == [] then 0
    else CountFor(rows[..|rows| - 1], user) + if rows[|rows| - 1].session.userId == user then 1 else 0
  }

  lemma CountForPush(rows: seq<Row>, row: Row, user: Uuid)
    ensures CountFor(rows + [row], user) == CountFor(rows, user) + if row.session.userId == user then 1 else 0
  {
    assert (rows + [row])[..|rows|] == rows;
  }

  lemma NextMayStore(s: State, q: Request, uuid: Uuid, user: Uuid)
    requires !q.Done? && Inactive(s, user) && MayStore(Next(s, q, uuid), user)
    ensures MayStore(q, user) && !q.Pruned?
  {
  }

  lemma PendingByStep(s: State, e: Event, user: Uuid)
    requires Inactive(s, user)
    ensures Pending(Step(s, e), user) <= Pending(s, user)
    ensures Inserts(s, e) && Inserted(s, e).session.userId == user ==>
        e.id in Pending(s, user) && e.id !in Pending(Step(s, e), user)
  {
    forall r | r in Pending(Step(s, e), user) ensures r in Pending(s, user) {
      RequestByStep(s, e, r);
      if e.Advance? && Enabled(s, e) && e.id == r && Step(s, e).requests[r] == Next(s, s.requests[r], e.uuid) {
        NextMayStore(s, s.requests[r], e.uuid, user);
      }
    }
    if Inserts(s, e) {
      InsertEnds(s, e);
    }
  }

  lemma UserPotentialStep(s: State, e: Event, user: Uuid)
    requires Inactive(s, user)
    ensures CountFor(Step(s, e).created, user) + |Pending(Step(s, e), user)| <=
        CountFor(s.created, user) + |Pending(s, user)|
  {
    PendingByStep(s, e, user);
    CreatedByStep(s, e);
    if Inserts(s, e) && Inserted(s, e).session.userId == user {
      SubsetIsSmaller(Pending(Step(s, e), user), Pending(s, user) - {e.id});
    } else {
      SubsetIsSmaller(Pending(Step(s, e), user), Pending(s, user));
    }
    if Inserts(s, e) {
      CountForPush(s.created, Inserted(s, e), user);
    }
  }

  /**
   * While the user stays inactive, the rows created for the user in all families, new ones included,
   * are at most as many as the requests that were past the check, or accepted logins, at the start.
   */
  lemma {:induction false} RowsArePending(s: State, events: seq<Event>, user: Uuid)
    requires Inactive(s, user) && NeverActivates(events, user)
    ensures CountFor(Run(s, events).created, user) <= CountFor(s.created, user) + |Pending(s, user)|
    decreases |events|
  {
    if events == [] {
    } else {
      QuietStep(s, events, user);
      UserPotentialStep(s, events[0], user);
      RowsArePending(Step(s, events[0]), events[1..], user);
    }
  }

  // ----- a refresh after the deactivation -----

  /** A claimed rotation of an inactive user: still waiting for its check, or refused with its family dead. */
  ghost predicate Doomed(s: State, r: RequestId, session: Session) {
    && r in s.requests
    && (|| s.requests[r] == Claimed(session)
        || (Dead(s, session.familyId) &&
            (s.requests[r] == Revoking(session.tenantId, session.familyId) || s.requests[r] == Done(None))))
  }

  lemma DoomedMoves(s: State, e: Event, r: RequestId, session: Session)
    requires Inv(s) && Inactive(s, session.userId) && r in s.requests && s.requests[r] == Claimed(session)
    requires e.Advance? && e.id == r && Enabled(s, e)
    ensures Doomed(Step(s, e), r, session)
  {
    RefusedEndsFamily(s, e);
  }

  /** A claimed request that is aborted was the only one in flight for its family. */
  lemma AbortEndsFamily(s: State, r: RequestId)
    requires Inv(s) && r in s.requests && s.requests[r].Claimed?
    ensures Dead(Step(s, Abort(r)), s.requests[r].session.familyId)
  {
    assert GoodRequest(s, s.requests[r]) && s.requests[r].InFlight();
  }

  lemma DoomedStep(s: State, e: Event, r: RequestId, session: Session)
    requires Inv(s) && Inactive(s, session.userId) && Doomed(s, r, session)
    ensures Doomed(Step(s, e), r, session)
  {
    RequestStays(s, e, r);
    if Dead(s, session.familyId) {
      DeadStep(s, e, session.familyId);
    } else if e == Abort(r) {
      AbortEndsFamily(s, r);
    } else if e.Advance? && e.id == r && Enabled(s, e) {
      DoomedMoves(s, e, r, session);
    }
  }

  /** What a request that has begun can become. */
  lemma RequestStays(s: State, e: Event, r: RequestId)
    requires r in s.requests
    ensures r in Step(s, e).requests
    ensures
      var q, q' := s.requests[r], Step(s, e).requests[r];
      || q' == q
      || (e == Abort(r) && q' == Done(None) && !q.Done?)
      || (e.Advance? && e.id == r && Enabled(s, e) && q' == Next(s, q, e.uuid))
  {
  }

  lemma {:induction false} DoomedRun(s: State, events: seq<Event>, r: RequestId, session: Session)
    requires Inv(s) && Inactive(s, session.userId) && NeverActivates(events, session.userId)
    requires Doomed(s, r, session)
    ensures Doomed(Run(s, events), r, session)
    decreases |events|
  {
    if events == [] {
    } else {
      QuietStep(s, events, session.userId);
      DoomedStep(s, events[0], r, session);
      InvStep(s, events[0]);
      DoomedRun(Step(s, events[0]), events[1..], r, session);
    }
  }

  /**
   * A refresh whose claim and user check both come after the deactivation is refused, and from the
   * check on its family is dead whatever else runs.
   */
  lemma InactiveUserIsRefused(s: State, claim: Event, events: seq<Event>, user: Uuid)
    requires Reachable(s) && Claims(s, claim) && s.requests[claim.id].row.session.userId == user
    requires Inactive(s, user) && NeverActivates(events, user)
    ensures
      var end := Run(Step(s, claim), events);
      var session := s.requests[claim.id].row.session;
      && claim.id in end.requests
      && (end.requests[claim.id] == Claimed(session) ||
          (end.requests[claim.id] in {Revoking(session.tenantId, session.familyId), Done(None)} &&
           Dead(end, session.familyId)))
  {
    ReachableInv(s);
    InvStep(s, claim);
    DoomedByClaim(s, claim);
    DoomedRun(Step(s, claim), events, claim.id, s.requests[claim.id].row.session);
  }

  lemma DoomedByClaim(s: State, claim: Event)
    requires Claims(s, claim)
    ensures Doomed(Step(s, claim), claim.id, s.requests[claim.id].row.session)
    ensures Step(s, claim).users == s.users
  {
  }
}
