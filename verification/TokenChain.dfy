/** A family is a chain: each rotation appends, expiries never decrease, and pruning eats from the front. */
module TokenChain {
  import opened Tokens
  import opened TokenTable
  import opened SessionProtocol
  import opened ProtocolInvariants

  predicate SameFamily(a: Row, b: Row) {
    a.session.familyId == b.session.familyId
  }

  function ExpOf(raw: RawToken): nat {
    if raw.Jwt? && raw.payload.exp.Some? then raw.payload.exp.value else 0
  }

  /** No token outlives one signed now, and a token being issued outlives its family's rows. */
  ghost predicate Bounded(s: State) {
    && (forall row :: row in s.created ==> ExpOf(row.tokenHash.raw) <= s.now / 1000 + s.cfg.lifetime)
    && (forall r | r in s.requests && s.requests[r].Carries() ::
          ExpOf(s.requests[r].raw) <= s.now / 1000 + s.cfg.lifetime)
    && (forall row, r | row in s.created && r in s.requests && s.requests[r].Carries() ::
          row.session.familyId == s.requests[r].session.familyId ==>
            ExpOf(row.tokenHash.raw) <= ExpOf(s.requests[r].raw))
  }

  /** Along creation order, expiries in a family never decrease. */
  ghost predicate Sorted(s: State) {
    forall i, j | 0 <= i < j < |s.created| && SameFamily(s.created[i], s.created[j]) ::
      s.created[i].expiresAt <= s.created[j].expiresAt
  }

  /** What is still stored of a family is the end of its chain: pruning removed a prefix. */
  ghost predicate SuffixStored(s: State) {
    forall i, j | 0 <= i < j < |s.created| && SameFamily(s.created[i], s.created[j]) ::
      s.created[i].id in s.rows ==> s.created[j].id in s.rows
  }

  /** The live row of a family, if any, is the last one created in it. */
  ghost predicate LiveIsLast(s: State) {
    forall i, j | 0 <= i < j < |s.created| && SameFamily(s.created[i], s.created[j]) ::
      s.created[i].id in s.rows ==> !s.rows[s.created[i].id].Live()
  }

  /** A request carries a token after a step: it did before, or it has just signed one. */
  lemma SignedByStep(s: State, e: Event, r: RequestId)
    requires r in Step(s, e).requests && Step(s, e).requests[r].Carries()
    ensures
      var q := Step(s, e).requests[r];
      || (r in s.requests && s.requests[r].Carries() && s.requests[r].raw == q.raw &&
          s.requests[r].session == q.session)
      || (ExpOf(q.raw) == s.now / 1000 + s.cfg.lifetime && !Inserts(s, e))
  {
    RequestByStep(s, e, r);
  }

  lemma BoundedStep(s: State, e: Event)
    requires Inv(s) && Bounded(s)
    ensures Bounded(Step(s, e))
  {
    var s' := Step(s, e);
    StepGrows(s, e);
    ClockNeverGoesBack(s, [e]);
    CreatedByStep(s, e);
    forall r | r in s'.requests && s'.requests[r].Carries()
      ensures ExpOf(s'.requests[r].raw) <= s'.now / 1000 + s'.cfg.lifetime
    {
      SignedByStep(s, e, r);
    }
    forall row, r | row in s'.created && r in s'.requests && s'.requests[r].Carries()
      ensures row.session.familyId == s'.requests[r].session.familyId ==>
          ExpOf(row.tokenHash.raw) <= ExpOf(s'.requests[r].raw)
    {
      BoundedPair(s, e, row, r);
    }
  }

  lemma BoundedPair(s: State, e: Event, row: Row, r: RequestId)
    requires Inv(s) && Bounded(s)
    requires row in Step(s, e).created && r in Step(s, e).requests && Step(s, e).requests[r].Carries()
    ensures row.session.familyId == Step(s, e).requests[r].session.familyId ==>
        ExpOf(row.tokenHash.raw) <= ExpOf(Step(s, e).requests[r].raw)
  {
    CreatedByStep(s, e);
    SignedByStep(s, e, r);
  }

  lemma SortedStep(s: State, e: Event)
    requires Inv(s) && Bounded(s) && Sorted(s)
    ensures Sorted(Step(s, e))
  {
    CreatedByStep(s, e);
    if Inserts(s, e) {
      var last := Inserted(s, e);
      forall i | 0 <= i < |s.created| && SameFamily(s.created[i], last)
        ensures s.created[i].expiresAt <= last.expiresAt
      {
        assert s.created[i] in s.created && GoodRow(s, s.created[i]);
        assert GoodRequest(s, s.requests[e.id]);
      }
    }
  }

  /** A row leaves the table only when pruned: it is its owner's and has expired. */
  lemma DroppedByStep(s: State, e: Event, id: Uuid)
    requires id in s.rows && id !in Step(s, e).rows
    ensures e.Advance? && Enabled(s, e) && s.requests[e.id].Signed?
    ensures
      var session := s.requests[e.id].session;
      && Prunable(s.rows[id], session.tenantId, session.userId, s.now)
      && Step(s, e).rows == DeleteExpiredForUser(s.rows, session.tenantId, session.userId, s.now)
  {
  }

  /** A row created earlier in the family is as old, so that what prunes the later one prunes it too. */
  lemma PrunedTogether(s: State, a: Row, b: Row, tenant: Uuid, user: Uuid)
    requires Sourced(s) && Distinct(s) && OneSessionPerFamily(s) && a in s.created && b in s.created
    requires SameFamily(a, b) && a.expiresAt <= b.expiresAt && a.id in s.rows && b.id in s.rows
    requires Prunable(s.rows[b.id], tenant, user, s.now)
    ensures Prunable(s.rows[a.id], tenant, user, s.now)
  {
    SameId(s, a, s.rows[a.id].AsCreated());
    SameId(s, b, s.rows[b.id].AsCreated());
  }

  lemma SuffixPair(s: State, e: Event, i: nat, j: nat)
    requires Inv(s) && Sorted(s) && SuffixStored(s)
    requires i < j < |s.created| && SameFamily(s.created[i], s.created[j])
    requires s.created[i].id in Step(s, e).rows
    ensures s.created[j].id in Step(s, e).rows
  {
    var a, b := s.created[i], s.created[j];
    assert a in s.created && b in s.created && GoodRow(s, a);
    TableByStep(s, e, a.id);
    assert a.id in s.rows && b.id in s.rows;
    if b.id !in Step(s, e).rows {
      DroppedByStep(s, e, b.id);
      PrunedTogether(s, a, b, s.requests[e.id].session.tenantId, s.requests[e.id].session.userId);
    }
  }

  lemma SuffixStep(s: State, e: Event)
    requires Inv(s) && Sorted(s) && SuffixStored(s)
    ensures SuffixStored(Step(s, e))
  {
    var s' := Step(s, e);
    CreatedByStep(s, e);
    forall i, j | 0 <= i < j < |s'.created| && SameFamily(s'.created[i], s'.created[j])
      ensures s'.created[i].id in s'.rows ==> s'.created[j].id in s'.rows
    {
      if s'.created[i].id in s'.rows && j < |s.created| {
        SuffixPair(s, e, i, j);
      }
    }
  }

  lemma LiveIsLastStep(s: State, e: Event)
    requires Inv(s) && LiveIsLast(s)
    ensures LiveIsLast(Step(s, e))
  {
    var s' := Step(s, e);
    CreatedByStep(s, e);
    forall i, j | 0 <= i < j < |s'.created| && SameFamily(s'.created[i], s'.created[j])
      ensures s'.created[i].id in s'.rows ==> !s'.rows[s'.created[i].id].Live()
    {
      var a := s'.created[i];
      assert a in s.created && GoodRow(s, a);
      if a.id in s'.rows {
        TableByStep(s, e, a.id);
        if j == |s.created| && s.rows[a.id].Live() {
          SameId(s, a, s.rows[a.id].AsCreated());
          assert s.requests[e.id].InFlight();
        }
      }
    }
  }

  ghost predicate Chained(s: State) {
    Bounded(s) && Sorted(s) && SuffixStored(s) && LiveIsLast(s)
  }

  lemma {:induction false} ChainedRun(s: State, events: seq<Event>)
    requires Inv(s) && Chained(s)
    ensures Chained(Run(s, events))
    decreases |events|
  {
    if events == [] {
    } else {
      BoundedStep(s, events[0]);
      SortedStep(s, events[0]);
      SuffixStep(s, events[0]);
      LiveIsLastStep(s, events[0]);
      InvStep(s, events[0]);
      ChainedRun(Step(s, events[0]), events[1..]);
    }
  }

  /** In every reachable state each family is such a chain. */
  lemma FamiliesAreChains(s: State)
    requires Reachable(s)
    ensures Sorted(s) && SuffixStored(s) && LiveIsLast(s)
  {
    var cfg, now, users, events :| Run(Init(cfg, now, users), events) == s;
    InvInit(cfg, now, users);
    ChainedRun(Init(cfg, now, users), events);
  }
}
