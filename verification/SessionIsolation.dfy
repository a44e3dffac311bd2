/** Sessions do not disturb each other, although pruning is per user and so crosses families. */
module SessionIsolation {
  import opened Tokens
  import opened TokenTable
  import opened SessionProtocol
  import opened ProtocolInvariants

  /** The family a request's writes are aimed at. */
  predicate WorksOn(q: Request, family: Uuid) {
    match q
    case RefreshClaiming(row) => row.session.familyId == family
    case Claimed(session) => session.familyId == family
    case Checked(session) => session.familyId == family
    case Signed(session, _) => session.familyId == family
    case Pruned(session, _) => session.familyId == family
    case Revoking(_, f) => f == family
    case _ => false
  }

  /** No step of the run is taken by a request that works on the family. */
  ghost predicate Avoids(s: State, events: seq<Event>, family: Uuid)
    decreases |events|
  {
    events == [] ||
    (!(events[0].Advance? && Enabled(s, events[0]) && WorksOn(s.requests[events[0].id], family)) &&
     Avoids(Step(s, events[0]), events[1..], family))
  }

  /** The family's rows that expire at or after the given time. */
  ghost function Unexpired(rows: Table, family: Uuid, at: Millis): Table {
    map id | id in rows && rows[id].session.familyId == family && rows[id].expiresAt >= at :: rows[id]
  }

  /** Each kind of write leaves the rows it is not aimed at alone, unless they have expired. */
  lemma AvoidingEffect(s: State, e: Event, family: Uuid, at: Millis, id: Uuid)
    requires Inv(s) && s.now <= at && e.Advance? && Enabled(s, e) && !WorksOn(s.requests[e.id], family)
    requires id in s.rows && s.rows[id].session.familyId == family && s.rows[id].expiresAt >= at
    ensures
      var rows := Effect(s, s.requests[e.id], e.uuid).rows;
      id in rows && rows[id] == s.rows[id]
  {
    match s.requests[e.id]
    case RefreshClaiming(row) =>
      if Claims(s, e) {
        ClaimedRow(s, e);
      }
    case Pruned(_, _) => assert GoodRow(s, s.rows[id].AsCreated());
    case _ =>
  }

  lemma AvoidingWrite(s: State, e: Event, family: Uuid, at: Millis, id: Uuid)
    requires Inv(s) && s.now <= at
    requires !(e.Advance? && Enabled(s, e) && WorksOn(s.requests[e.id], family))
    requires id in s.rows && s.rows[id].session.familyId == family && s.rows[id].expiresAt >= at
    ensures id in Step(s, e).rows && Step(s, e).rows[id] == s.rows[id]
  {
    if e.Advance? && Enabled(s, e) {
      AdvanceMoves(s, e);
      AvoidingEffect(s, e, family, at, id);
    } else {
      OthersKeepRows(s, e);
    }
  }

  lemma AvoidingAdd(s: State, e: Event, family: Uuid, at: Millis, id: Uuid)
    requires Inv(s) && s.now <= at
    requires !(e.Advance? && Enabled(s, e) && WorksOn(s.requests[e.id], family))
    requires id in Step(s, e).rows
    requires Step(s, e).rows[id].session.familyId == family && Step(s, e).rows[id].expiresAt >= at
    ensures id in s.rows && Step(s, e).rows[id] == s.rows[id]
  {
    TableByStep(s, e, id);
    if id in s.rows {
      AvoidingWrite(s, e, family, at, id);
    }
  }

  lemma SameUnexpired(rows: Table, rows': Table, family: Uuid, at: Millis)
    requires forall id | id in rows && rows[id].session.familyId == family && rows[id].expiresAt >= at ::
        id in rows' && rows'[id] == rows[id]
    requires forall id | id in rows' && rows'[id].session.familyId == family && rows'[id].expiresAt >= at ::
        id in rows && rows'[id] == rows[id]
    ensures Unexpired(rows', family, at) == Unexpired(rows, family, at)
  {
  }

  lemma AvoidingStep(s: State, e: Event, family: Uuid, at: Millis)
    requires Inv(s) && s.now <= at
    requires !(e.Advance? && Enabled(s, e) && WorksOn(s.requests[e.id], family))
    ensures Unexpired(Step(s, e).rows, family, at) == Unexpired(s.rows, family, at)
  {
    forall id | id in s.rows && s.rows[id].session.familyId == family && s.rows[id].expiresAt >= at
      ensures id in Step(s, e).rows && Step(s, e).rows[id] == s.rows[id]
    {
      AvoidingWrite(s, e, family, at, id);
    }
    AvoidingAdds(s, e, family, at);
    SameUnexpired(s.rows, Step(s, e).rows, family, at);
  }

  lemma AvoidingAdds(s: State, e: Event, family: Uuid, at: Millis)
    requires Inv(s) && s.now <= at
    requires !(e.Advance? && Enabled(s, e) && WorksOn(s.requests[e.id], family))
    ensures
      var rows := Step(s, e).rows;
      forall id | id in rows && rows[id].session.familyId == family && rows[id].expiresAt >= at ::
        id in s.rows && rows[id] == s.rows[id]
  {
    var rows := Step(s, e).rows;
    forall id | id in rows && rows[id].session.familyId == family && rows[id].expiresAt >= at
      ensures id in s.rows && rows[id] == s.rows[id]
    {
      AvoidingAdd(s, e, family, at, id);
    }
  }

  lemma {:induction false} AvoidingRun(s: State, events: seq<Event>, family: Uuid, at: Millis)
    requires Inv(s) && Avoids(s, events, family) && Run(s, events).now <= at
    ensures Unexpired(Run(s, events).rows, family, at) == Unexpired(s.rows, family, at)
    decreases |events|
  {
    if events == [] {
    } else {
      ClockNeverGoesBack(s, events);
      AvoidingStep(s, events[0], family, at);
      InvStep(s, events[0]);
      AvoidingRun(Step(s, events[0]), events[1..], family, at);
    }
  }

  /**
   * A run whose requests all work on other families, replays and logouts included, neither changes,
   * removes nor adds a row of this family that is unexpired when the run ends.
   */
  lemma SessionsAreIndependent(s: State, events: seq<Event>, family: Uuid)
    requires Reachable(s) && Avoids(s, events, family)
    ensures
      var end := Run(s, events);
      Unexpired(end.rows, family, end.now) == Unexpired(s.rows, family, end.now)
  {
    ReachableInv(s);
    AvoidingRun(s, events, family, Run(s, events).now);
  }
}
