/** Safety of sessions over every run: exclusivity, single use, conservation, and death of a family. */
module SessionSafety {
  import opened Tokens
  import opened TokenTable
  import opened SessionProtocol
  import opened ProtocolInvariants

  // ----- exclusivity -----

  /** A right to continue a session: a live row, or a request that will create the next one. */
  datatype Right = Stored(row: Uuid) | Flying(request: RequestId)

  ghost function Rights(s: State, family: Uuid): set<Right> {
    (set id | id in s.rows && s.rows[id].Live() && s.rows[id].session.familyId == family :: Stored(id)) +
    (set r | r in s.requests && s.requests[r].InFlight() && s.requests[r].session.familyId == family :: Flying(r))
  }

  lemma AtMostOneElement<T>(xs: set<T>)
    requires forall x, y :: x in xs && y in xs ==> x == y
    ensures |xs| <= 1
  {
    if xs != {} {
      var x :| x in xs;
      assert xs == {x};
    }
  }

  /** In every reachable state, live rows and requests in flight of a family number at most one. */
  lemma OneRightPerFamily(s: State, family: Uuid)
    requires Reachable(s)
    ensures |Rights(s, family)| <= 1
  {
    ReachableInv(s);
    AtMostOneElement(Rights(s, family));
  }

  /** What consume() would accept now: it verifies, its row is stored, unexpired and unrevoked. */
  ghost predicate Usable(s: State, raw: RawToken) {
    var payload := TryVerify(s.cfg, raw, s.now);
    payload.Some? &&
    var found := FindByHash(s.rows, payload.value.tenantId, Sha256(raw));
    found.Some? && found.value.expiresAt > s.now && found.value.Live()
  }

  ghost function FamilyOf(s: State, raw: RawToken): Uuid
    requires Usable(s, raw)
  {
    FindByHash(s.rows, TryVerify(s.cfg, raw, s.now).value.tenantId, Sha256(raw)).value.session.familyId
  }

  /** A session never has two usable refresh tokens. */
  lemma OneUsableToken(s: State, a: RawToken, b: RawToken)
    requires Reachable(s)
    requires Usable(s, a) && Usable(s, b) && FamilyOf(s, a) == FamilyOf(s, b)
    ensures a == b
  {
    ReachableInv(s);
  }

  // ----- single use -----

  ghost predicate IdsDiffer(rows: seq<Row>) {
    forall i, j :: 0 <= i < j < |rows| ==> rows[i].id != rows[j].id
  }

  lemma IdsDifferPush(rows: seq<Row>, row: Row)
    requires IdsDiffer(rows) && forall r :: r in rows ==> r.id != row.id
    ensures IdsDiffer(rows + [row])
  {
  }

  /** No row is claimed twice, and no claimed row is live again. */
  ghost predicate Spent(s: State) {
    && IdsDiffer(s.claimed)
    && (forall row :: row in s.claimed && row.id in s.rows ==> !s.rows[row.id].Live())
  }

  lemma ClaimAppends(s: State, e: Event)
    ensures Step(s, e).claimed ==
        if Claims(s, e) then s.claimed + [s.requests[e.id].row.AsCreated()] else s.claimed
  {
  }

  lemma ClaimedByStep(s: State, e: Event)
    requires Inv(s)
    ensures Step(s, e).claimed ==
        if Claims(s, e) then s.claimed + [s.rows[s.requests[e.id].row.id]] else s.claimed
  {
    ClaimAppends(s, e);
    if Claims(s, e) {
      ClaimedRow(s, e);
    }
  }

  lemma SpentRowStep(s: State, e: Event, row: Row)
    requires Inv(s) && Spent(s) && row in s.claimed && row.id in Step(s, e).rows
    ensures !Step(s, e).rows[row.id].Live()
  {
    TableByStep(s, e, row.id);
    assert row in s.created && GoodRow(s, row);
  }

  lemma SpentOnce(s: State, e: Event)
    requires Inv(s) && Spent(s)
    ensures IdsDiffer(Step(s, e).claimed)
  {
    ClaimAppends(s, e);
    if Claims(s, e) {
      ClaimedRow(s, e);
      IdsDifferPush(s.claimed, s.requests[e.id].row.AsCreated());
    }
  }

  lemma SpentStep(s: State, e: Event)
    requires Inv(s) && Spent(s)
    ensures Spent(Step(s, e))
  {
    var s' := Step(s, e);
    SpentOnce(s, e);
    ClaimAppends(s, e);
    forall row | row in s'.claimed && row.id in s'.rows ensures !s'.rows[row.id].Live() {
      if row in s.claimed {
        SpentRowStep(s, e, row);
      } else {
        ClaimKills(s, e);
      }
    }
  }

  lemma {:induction false} SpentRun(s: State, events: seq<Event>)
    requires Inv(s) && Spent(s)
    ensures Spent(Run(s, events))
    decreases |events|
  {
    if events == [] {
    } else {
      SpentStep(s, events[0]);
      InvStep(s, events[0]);
      SpentRun(Step(s, events[0]), events[1..]);
    }
  }

  /** Across every interleaving each token is consumed successfully at most once, and stays consumed. */
  lemma SingleUse(s: State, i: nat, j: nat)
    requires Reachable(s)
    requires i < |s.claimed| && j < |s.claimed|
    ensures s.claimed[i].tokenHash == s.claimed[j].tokenHash ==> i == j
    ensures s.claimed[i] in s.created
    ensures s.claimed[i].id in s.rows ==> s.rows[s.claimed[i].id].revokedAt.Some?
  {
    ReachableInv(s);
    var cfg, now, users, events :| Run(Init(cfg, now, users), events) == s;
    InvInit(cfg, now, users);
    SpentRun(Init(cfg, now, users), events);
    assert s.claimed[i] in s.claimed && s.claimed[j] in s.claimed;
    if s.claimed[i].tokenHash == s.claimed[j].tokenHash {
      SameId(s, s.claimed[i], s.claimed[j]);
    }
  }

  // ----- conservation -----

  function CountIn(rows: seq<Row>, family: Uuid): nat {
    if rows == [] then 0
    else CountIn(rows[..|rows| - 1], family) + if rows[|rows| - 1].session.familyId == family then 1 else 0
  }

  lemma CountInPush(rows: seq<Row>, row: Row, family: Uuid)
    ensures CountIn(rows + [row], family) ==
        CountIn(rows, family) + if row.session.familyId == family then 1 else 0
  {
    assert (rows + [row])[..|rows|] == rows;
  }

  ghost predicate Held(s: State, family: Uuid) {
    exists r :: r in s.requests && s.requests[r].InFlight() && s.requests[r].session.familyId == family
  }

  ghost predicate Conserved(s: State, family: Uuid) {
    CountIn(s.created, family) + (if Held(s, family) then 1 else 0)
      <= CountIn(s.claimed, family) + if family in s.used then 1 else 0
  }

  /** A family becomes held only by a claim in it, or by being opened. */
  lemma HeldByStep(s: State, e: Event, family: Uuid)
    requires Inv(s)
    requires Held(Step(s, e), family) && !Held(s, family)
    ensures (Claims(s, e) && s.requests[e.id].row.session.familyId == family) ||
        (family !in s.used && family in Step(s, e).used && !Inserts(s, e))
  {
    var r :| r in Step(s, e).requests && Step(s, e).requests[r].InFlight() &&
        Step(s, e).requests[r].session.familyId == family;
    InFlightByStep(s, e, r);
  }

  /** The request that inserts a row gives up its hold, and no other request has one. */
  lemma ReleasedByInsert(s: State, e: Event)
    requires Inv(s) && Inserts(s, e)
    ensures Held(s, Inserted(s, e).session.familyId)
    ensures !Held(Step(s, e), Inserted(s, e).session.familyId)
  {
    var family := Inserted(s, e).session.familyId;
    assert s.requests[e.id].InFlight() && s.requests[e.id].session.familyId == family;
  }

  lemma ConservedStep(s: State, e: Event, family: Uuid)
    requires Inv(s) && Conserved(s, family)
    ensures Conserved(Step(s, e), family)
  {
    var s' := Step(s, e);
    StepGrows(s, e);
    CreatedByStep(s, e);
    ClaimedByStep(s, e);
    if Inserts(s, e) {
      CountInPush(s.created, Inserted(s, e), family);
      ReleasedByInsert(s, e);
    }
    if Claims(s, e) {
      ClaimedRow(s, e);
      CountInPush(s.claimed, s.rows[s.requests[e.id].row.id], family);
    }
    if Held(s', family) && !Held(s, family) {
      HeldByStep(s, e, family);
    }
  }

  lemma {:induction false} ConservedRun(s: State, events: seq<Event>, family: Uuid)
    requires Inv(s) && Conserved(s, family)
    ensures Conserved(Run(s, events), family)
    decreases |events|
  {
    if events == [] {
    } else {
      ConservedStep(s, events[0], family);
      InvStep(s, events[0]);
      ConservedRun(Step(s, events[0]), events[1..], family);
    }
  }

  /** Rows ever created in a family, plus the one in flight, are at most one more than its claims. */
  lemma RowsAreConserved(s: State, family: Uuid)
    requires Reachable(s)
    ensures CountIn(s.created, family) + (if Held(s, family) then 1 else 0) <= 1 + CountIn(s.claimed, family)
  {
    var cfg, now, users, events :| Run(Init(cfg, now, users), events) == s;
    InvInit(cfg, now, users);
    ConservedRun(Init(cfg, now, users), events, family);
  }

  // ----- a dead family stays dead -----

  /** Opened, with no live row and nothing in flight. */
  ghost predicate Dead(s: State, family: Uuid) {
    && family in s.used
    && (forall id :: id in s.rows && s.rows[id].Live() ==> s.rows[id].session.familyId != family)
    && !Held(s, family)
  }

  lemma DeadStep(s: State, e: Event, family: Uuid)
    requires Inv(s) && Dead(s, family)
    ensures Dead(Step(s, e), family)
    ensures !(Inserts(s, e) && Inserted(s, e).session.familyId == family)
    ensures !(Claims(s, e) && s.rows[s.requests[e.id].row.id].session.familyId == family)
  {
    var s' := Step(s, e);
    StepGrows(s, e);
    if Inserts(s, e) {
      ReleasedByInsert(s, e);
    }
    if Claims(s, e) {
      ClaimedRow(s, e);
    }
    forall id | id in s'.rows && s'.rows[id].Live() ensures s'.rows[id].session.familyId != family {
      TableByStep(s, e, id);
    }
    if Held(s', family) {
      HeldByStep(s, e, family);
    }
  }

  lemma DeadCounts(s: State, e: Event, family: Uuid)
    requires Inv(s) && Dead(s, family)
    ensures CountIn(Step(s, e).created, family) == CountIn(s.created, family)
    ensures CountIn(Step(s, e).claimed, family) == CountIn(s.claimed, family)
  {
    DeadStep(s, e, family);
    CreatedByStep(s, e);
    ClaimedByStep(s, e);
    if Inserts(s, e) {
      CountInPush(s.created, Inserted(s, e), family);
    }
    if Claims(s, e) {
      CountInPush(s.claimed, s.rows[s.requests[e.id].row.id], family);
    }
  }

  lemma {:induction false} DeadRun(s: State, events: seq<Event>, family: Uuid)
    requires Inv(s) && Dead(s, family)
    ensures Dead(Run(s, events), family)
    ensures CountIn(Run(s, events).created, family) == CountIn(s.created, family)
    ensures CountIn(Run(s, events).claimed, family) == CountIn(s.claimed, family)
    decreases |events|
  {
    if events == [] {
    } else {
      DeadStep(s, events[0], family);
      DeadCounts(s, events[0], family);
      InvStep(s, events[0]);
      DeadRun(Step(s, events[0]), events[1..], family);
    }
  }

  /**
   * Once a family has no live row and nothing in flight, no later run gives it a live row, creates a
   * row in it, or consumes a token of it.
   */
  lemma DeadFamilyStaysDead(s: State, events: seq<Event>, family: Uuid)
    requires Reachable(s) && Dead(s, family)
    ensures Rights(Run(s, events), family) == {}
    ensures CountIn(Run(s, events).created, family) == CountIn(s.created, family)
    ensures CountIn(Run(s, events).claimed, family) == CountIn(s.claimed, family)
  {
    ReachableInv(s);
    DeadRun(s, events, family);
    assert Dead(Run(s, events), family);
  }
}
