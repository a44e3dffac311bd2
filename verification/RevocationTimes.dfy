/** When rows are revoked: the stored time is the clock of the step that revoked the row, for good. */
module RevocationTimes {
  import opened Wrappers
  import opened Tokens
  import opened TokenTable
  import opened SessionProtocol
  import opened ProtocolInvariants

  /** A step that revokes a row writes the clock; a step that does not leaves the time. */
  lemma EffectOnRow(s: State, q: Request, uuid: Uuid, id: Uuid)
    requires id in s.rows && id in Effect(s, q, uuid).rows && id != uuid
    ensures
      var before, after := s.rows[id], Effect(s, q, uuid).rows[id];
      if before.revokedAt.Some? then after.revokedAt == before.revokedAt
      else after.revokedAt == None || after.revokedAt == Some(s.now)
  {
  }

  lemma RevokedByStep(s: State, e: Event, id: Uuid)
    requires Inv(s) && id in s.rows && id in Step(s, e).rows
    ensures
      var before, after := s.rows[id], Step(s, e).rows[id];
      if before.revokedAt.Some? then after.revokedAt == before.revokedAt
      else after.revokedAt == None || after.revokedAt == Some(s.now)
  {
    if e.Advance? && Enabled(s, e) {
      assert GoodRow(s, s.rows[id].AsCreated());
      AdvanceMoves(s, e);
      EffectOnRow(s, s.requests[e.id], e.uuid, id);
    } else {
      OthersKeepRows(s, e);
    }
  }

  /** A row appears unrevoked, under an id that was never used. */
  lemma AppearsLive(s: State, e: Event, id: Uuid)
    requires id !in s.rows && id in Step(s, e).rows
    ensures Step(s, e).rows[id].revokedAt == None && id !in s.used
  {
    TableByStep(s, e, id);
  }

  lemma RunLast(s: State, events: seq<Event>)
    requires events != []
    ensures Run(s, events) == Step(Run(s, events[..|events| - 1]), events[|events| - 1])
  {
    var n := |events| - 1;
    assert events == events[..n] + [events[n]];
    RunAppend(s, events[..n], [events[n]]);
  }

  lemma {:induction false} UsedStays(s: State, events: seq<Event>)
    ensures s.used <= Run(s, events).used
    decreases |events|
  {
    if events == [] {
    } else {
      StepGrows(s, events[0]);
      UsedStays(Step(s, events[0]), events[1..]);
    }
  }

  /** Once a row is revoked its revocation time never changes, as long as the row is stored. */
  lemma {:induction false} RevocationTimeStays(s: State, events: seq<Event>, id: Uuid)
    requires Reachable(s) && id in s.rows && s.rows[id].revokedAt.Some? && id in Run(s, events).rows
    ensures Run(s, events).rows[id].revokedAt == s.rows[id].revokedAt
    decreases |events|
  {
    if events == [] {
    } else {
      var n := |events| - 1;
      var last := Run(s, events[..n]);
      RunLast(s, events);
      ReachableInv(s);
      assert GoodRow(s, s.rows[id].AsCreated());
      UsedStays(s, events[..n]);
      ReachableRun(s, events[..n]);
      ReachableInv(last);
      if id !in last.rows {
        AppearsLive(last, events[n], id);
      } else {
        RevocationTimeStays(s, events[..n], id);
        RevokedByStep(last, events[n], id);
      }
    }
  }

  /** The n-th event found the row unrevoked, and left it revoked at the clock it ran at. */
  ghost predicate RevokedBy(s: State, events: seq<Event>, n: nat, id: Uuid, at: Millis) {
    && n < |events|
    && var before, after := Run(s, events[..n]), Run(s, events[..n + 1]);
    && id in before.rows && before.rows[id].revokedAt == None && before.now == at
    && id in after.rows && after.rows[id].revokedAt == Some(at)
  }

  lemma StillRevokedBy(s: State, events: seq<Event>, k: nat, n: nat, id: Uuid, at: Millis)
    requires k <= |events| && RevokedBy(s, events[..k], n, id, at)
    ensures RevokedBy(s, events, n, id, at)
  {
    assert events[..k][..n] == events[..n] && events[..k][..n + 1] == events[..n + 1];
  }

  lemma RevokedNowOrBefore(s: State, e: Event, s': State, id: Uuid)
    requires Inv(s) && s' == Step(s, e) && id in s'.rows && s'.rows[id].revokedAt.Some?
    ensures id in s.rows
    ensures s.rows[id].revokedAt.Some? ==> s.rows[id].revokedAt == s'.rows[id].revokedAt
    ensures s.rows[id].revokedAt.None? ==> s'.rows[id].revokedAt == Some(s.now)
  {
    if id !in s.rows {
      AppearsLive(s, e, id);
    }
    RevokedByStep(s, e, id);
  }

  lemma RevokedAtLast(s: State, events: seq<Event>, last: State, id: Uuid)
    requires Inv(s) && events != [] && last == Run(s, events[..|events| - 1])
    requires id in Run(s, events).rows && Run(s, events).rows[id].revokedAt.Some?
    ensures
      var end := Run(s, events);
      && id in last.rows
      && (last.rows[id].revokedAt.Some? ==> last.rows[id].revokedAt == end.rows[id].revokedAt)
      && (last.rows[id].revokedAt.None? ==> end.rows[id].revokedAt == Some(last.now))
  {
    RunLast(s, events);
    InvRun(s, events[..|events| - 1]);
    RevokedNowOrBefore(last, events[|events| - 1], Run(s, events), id);
  }

  /** The last event revoked the row, or it was revoked before. */
  lemma RevokedLast(s: State, events: seq<Event>, id: Uuid)
    requires Inv(s) && events != [] && id in Run(s, events).rows && Run(s, events).rows[id].revokedAt.Some?
    ensures
      var n, end := |events| - 1, Run(s, events);
      var last := Run(s, events[..n]);
      && id in last.rows
      && if last.rows[id].revokedAt.Some? then last.rows[id].revokedAt == end.rows[id].revokedAt
         else RevokedBy(s, events, n, id, end.rows[id].revokedAt.value)
  {
    RevokedAtLast(s, events, Run(s, events[..|events| - 1]), id);
    assert events[..|events|] == events;
  }

  lemma {:induction false} RevokedSometime(s: State, events: seq<Event>, id: Uuid) returns (n: nat)
    requires Inv(s) && s.rows == map[]
    requires id in Run(s, events).rows && Run(s, events).rows[id].revokedAt.Some?
    ensures RevokedBy(s, events, n, id, Run(s, events).rows[id].revokedAt.value)
    decreases |events|
  {
    n := |events| - 1;
    RevokedLast(s, events, id);
    if Run(s, events[..n]).rows[id].revokedAt.Some? {
      var m := RevokedSometime(s, events[..n], id);
      StillRevokedBy(s, events, n, m, id, Run(s, events).rows[id].revokedAt.value);
      n := m;
    }
  }

  /** In every run, a row's revocation time is the clock of the step that revoked it. */
  lemma RevocationTimesAreTrue(cfg: Config, now: Millis, users: map<Uuid, Account>, events: seq<Event>, id: Uuid)
    requires
      var end := Run(Init(cfg, now, users), events);
      id in end.rows && end.rows[id].revokedAt.Some?
    ensures
      var end := Run(Init(cfg, now, users), events);
      exists n: nat :: RevokedBy(Init(cfg, now, users), events, n, id, end.rows[id].revokedAt.value)
  {
    InvInit(cfg, now, users);
    var n := RevokedSometime(Init(cfg, now, users), events, id);
  }
}
