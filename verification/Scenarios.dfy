/**
 * Short runs of one user, from an empty table, in which what the theorems warn of does occur: a
 * revocation with a rotation in flight, and a claim and a logout that lose their row to a prune.
 */
module Scenarios {
  import opened Wrappers
  import opened Tokens
  import opened TokenTable
  import opened SessionProtocol
  import opened ProtocolInvariants
  import opened SessionSafety
  import opened Revocation
  import opened InterleavedPruning

  const CONFIG: Config := Config("secret", 10)
  const ACCOUNTS: map<Uuid, Account> := map[1 := Account(1, true)]
  const SESSION: Session := Session(1, 1, 1)

  /** The token signed at the given time with the given jti, and its row. */
  function Token(jti: Uuid, at: Millis): RawToken {
    Sign(CONFIG, 1, 1, jti, at)
  }

  function RowOf(id: Uuid, session: Session, jti: Uuid, at: Millis): Row {
    NewRow(id, session, Token(jti, at))
  }

  datatype View = View(now: Millis, rows: Table, requests: map<RequestId, Request>, used: set<Uuid>) {
    function With(r: RequestId, q: Request, uuid: Uuid): View {
      this.(requests := requests[r := q], used := used + {uuid})
    }
  }

  /** A reachable state of the one user that looks like this. */
  ghost predicate At(s: State, v: View) {
    && Reachable(s) && s.cfg == CONFIG && s.users == ACCOUNTS
    && s.now == v.now && s.rows == v.rows && s.requests == v.requests && s.used == v.used
  }

  // ----- single steps -----

  /** A step of a request that leaves the table alone. */
  lemma Moves(s: State, v: View, r: RequestId, uuid: Uuid, q: Request) returns (s': State)
    requires At(s, v) && r in v.requests && uuid !in v.used && !v.requests[r].Done?
    requires Next(s, v.requests[r], uuid) == q && Effect(s, v.requests[r], uuid) == s
    ensures At(s', v.With(r, q, uuid))
  {
    s' := Step(s, Advance(r, uuid));
    ReachableStep(s, Advance(r, uuid));
    AdvanceMoves(s, Advance(r, uuid));
  }

  lemma Waits(s: State, v: View, elapsed: nat) returns (s': State)
    requires At(s, v)
    ensures At(s', v.(now := v.now + elapsed))
  {
    s' := Step(s, Tick(elapsed));
    ReachableStep(s, Tick(elapsed));
  }

  /** A login opens its family. */
  lemma Begins(s: State, v: View, r: RequestId, family: Uuid) returns (s': State)
    requires At(s, v) && r !in v.requests && family !in v.used
    ensures At(s', v.With(r, Checked(Session(1, 1, family)), family))
  {
    var begun := Step(s, StartLogin(r, 1, 1));
    ReachableStep(s, StartLogin(r, 1, 1));
    var seen := v.(requests := v.requests[r := LoginAccepted(1, 1)]);
    s' := Moves(begun, seen, r, family, Checked(Session(1, 1, family)));
    assert seen.With(r, Checked(Session(1, 1, family)), family) == v.With(r, Checked(Session(1, 1, family)), family);
  }

  lemma Verifies(s: State, v: View, r: RequestId, raw: RawToken, refresh: bool) returns (s': State)
    requires At(s, v) && r !in v.requests
    requires TryVerify(CONFIG, raw, v.now).Some? && raw.payload.tenantId == 1
    ensures At(s', v.(requests := v.requests[r := if refresh then RefreshVerified(1, raw) else LogoutVerified(1, raw)]))
  {
    var e := if refresh then StartRefresh(r, raw) else StartLogout(r, raw);
    s' := Step(s, e);
    ReachableStep(s, e);
  }

  /** A look-up finds the token's row. */
  lemma Finds(s: State, v: View, id: Uuid, raw: RawToken)
    requires At(s, v) && id in v.rows && Matches(v.rows[id], 1, Sha256(raw))
    ensures FindByHash(v.rows, 1, Sha256(raw)) == Some(v.rows[id])
  {
    ReachableInv(s);
    TableIsWellFormed(s);
    FoundIsUnique(v.rows, 1, Sha256(raw), id);
  }

  /** consume() up to the claim. */
  lemma Prepares(s: State, v: View, r: RequestId, raw: RawToken, id: Uuid, first: Uuid, second: Uuid)
    returns (s': State)
    requires At(s, v) && r !in v.requests && first !in v.used && second !in v.used && first != second
    requires TryVerify(CONFIG, raw, v.now).Some? && raw.payload.tenantId == 1
    requires id in v.rows && Matches(v.rows[id], 1, Sha256(raw)) && v.rows[id].expiresAt > v.now
    ensures At(s', v.With(r, RefreshFound(v.rows[id]), first).With(r, RefreshClaiming(v.rows[id]), second))
  {
    var s1 := Verifies(s, v, r, raw, true);
    var v1 := v.(requests := v.requests[r := RefreshVerified(1, raw)]);
    Finds(s1, v1, id, raw);
    var s2 := Moves(s1, v1, r, first, RefreshFound(v.rows[id]));
    var v2 := v.With(r, RefreshFound(v.rows[id]), first);
    assert v1.With(r, RefreshFound(v.rows[id]), first) == v2;
    s' := Moves(s2, v2, r, second, RefreshClaiming(v.rows[id]));
  }

  lemma ClaimsRow(s: State, v: View, r: RequestId, uuid: Uuid) returns (s': State)
    requires At(s, v) && r in v.requests && uuid !in v.used && v.requests[r].RefreshClaiming?
    requires Claimable(v.rows, v.requests[r].row.session.tenantId, v.requests[r].row.id)
    ensures
      var row := v.requests[r].row;
      At(s', v.(rows := v.rows[row.id := v.rows[row.id].Revoke(v.now)]).With(r, Claimed(row.session), uuid))
  {
    s' := Step(s, Advance(r, uuid));
    ReachableStep(s, Advance(r, uuid));
    AdvanceMoves(s, Advance(r, uuid));
  }

  lemma Signs(s: State, v: View, r: RequestId, session: Session, jti: Uuid) returns (s': State)
    requires At(s, v) && r in v.requests && v.requests[r] == Checked(session) && jti !in v.used
    requires session.tenantId == 1 && session.userId == 1
    ensures At(s', v.With(r, Signed(session, Token(jti, v.now)), jti))
  {
    s' := Moves(s, v, r, jti, Signed(session, Token(jti, v.now)));
  }

  /** The prune finds nothing expired, and the row is inserted. */
  lemma Stores(s: State, v: View, r: RequestId, session: Session, jti: Uuid, at: Millis, uuid: Uuid, id: Uuid)
    returns (s': State)
    requires At(s, v) && r in v.requests && v.requests[r] == Signed(session, Token(jti, at))
    requires uuid !in v.used && id !in v.used && uuid != id
    requires forall k :: k in v.rows ==> v.rows[k].expiresAt >= v.now
    ensures
      var raw := Token(jti, at);
      At(s', v.(rows := v.rows[id := RowOf(id, session, jti, at)])
              .With(r, Pruned(session, raw), uuid).With(r, Done(Some(raw)), id))
  {
    var raw := Token(jti, at);
    assert DeleteExpiredForUser(v.rows, session.tenantId, session.userId, v.now) == v.rows;
    var pruned := Moves(s, v, r, uuid, Pruned(session, raw));
    s' := Step(pruned, Advance(r, id));
    ReachableStep(pruned, Advance(r, id));
    AdvanceMoves(pruned, Advance(r, id));
  }

  /** A login opens a family, and some time later signs its token. */
  lemma LoginSigns(s: State, v: View, r: RequestId, family: Uuid, jti: Uuid, elapsed: nat) returns (s': State)
    requires At(s, v) && r !in v.requests && family !in v.used && jti !in v.used && family != jti
    ensures
      var session, later := Session(1, 1, family), v.(now := v.now + elapsed);
      At(s', later.With(r, Checked(session), family).With(r, Signed(session, Token(jti, later.now)), jti))
  {
    var session := Session(1, 1, family);
    var s1 := Begins(s, v, r, family);
    var v1 := v.With(r, Checked(session), family);
    var s2 := Waits(s1, v1, elapsed);
    s' := Signs(s2, v1.(now := v.now + elapsed), r, session, jti);
  }

  /** A logout verifies its token and finds the row. */
  lemma LogoutFinds(s: State, v: View, r: RequestId, raw: RawToken, id: Uuid, uuid: Uuid) returns (s': State)
    requires At(s, v) && r !in v.requests && uuid !in v.used
    requires TryVerify(CONFIG, raw, v.now).Some? && raw.payload.tenantId == 1
    requires id in v.rows && Matches(v.rows[id], 1, Sha256(raw))
    ensures At(s', v.With(r, LogoutVerified(1, raw), uuid).With(r, Revoking(1, v.rows[id].session.familyId), uuid))
  {
    var s1 := Verifies(s, v, r, raw, false);
    var v1 := v.(requests := v.requests[r := LogoutVerified(1, raw)]);
    Finds(s1, v1, id, raw);
    s' := Moves(s1, v1, r, uuid, Revoking(1, v.rows[id].session.familyId));
    assert v.used + {uuid} + {uuid} == v.used + {uuid};
  }

  // ----- the runs -----

  /** At time zero a login has signed the first token... */
  lemma FirstSigned() returns (s: State, v: View)
    ensures At(s, v) && v == View(0, map[], map[0 := Signed(SESSION, Token(2, 0))], {1, 2})
  {
    var s0, v0 := Init(CONFIG, 0, ACCOUNTS), View(0, map[], map[], {});
    assert Reachable(s0) by { assert Run(s0, []) == s0; }
    s := LoginSigns(s0, v0, 0, 1, 2, 0);
    v := v0.With(0, Checked(SESSION), 1).With(0, Signed(SESSION, Token(2, 0)), 2);
  }

  /** ... and stored it: its live row has id 4. */
  lemma LoggedIn() returns (s: State, v: View)
    ensures At(s, v)
    ensures v == View(0, map[4 := RowOf(4, SESSION, 2, 0)], map[0 := Done(Some(Token(2, 0)))], {1, 2, 3, 4})
  {
    var s2, v2 := FirstSigned();
    s := Stores(s2, v2, 0, SESSION, 2, 0, 3, 4);
    v := v2.(rows := map[4 := RowOf(4, SESSION, 2, 0)])
           .With(0, Pruned(SESSION, Token(2, 0)), 3).With(0, Done(Some(Token(2, 0))), 4);
  }

  /** Some time later, a refresh has found the row and is about to claim it. */
  lemma Claiming(elapsed: nat) returns (s: State, v: View)
    requires elapsed < 10000
    ensures At(s, v) && v.now == elapsed && v.rows == map[4 := RowOf(4, SESSION, 2, 0)]
    ensures v.requests == map[0 := Done(Some(Token(2, 0))), 1 := RefreshClaiming(RowOf(4, SESSION, 2, 0))]
    ensures v.used == {1, 2, 3, 4, 5, 6}
  {
    var s0, v0 := LoggedIn();
    var raw, row := Token(2, 0), RowOf(4, SESSION, 2, 0);
    var s1 := Waits(s0, v0, elapsed);
    var v1 := v0.(now := elapsed);
    s := Prepares(s1, v1, 1, raw, 4, 5, 6);
    v := v1.With(1, RefreshFound(row), 5).With(1, RefreshClaiming(row), 6);
  }

  /** It has claimed the row. */
  lemma HasClaimed(elapsed: nat) returns (s: State, v: View)
    requires elapsed < 10000
    ensures At(s, v) && v.now == elapsed && v.rows == map[4 := RowOf(4, SESSION, 2, 0).Revoke(elapsed)]
    ensures v.requests == map[0 := Done(Some(Token(2, 0))), 1 := Claimed(SESSION)] && v.used == {1, 2, 3, 4, 5, 6, 7}
  {
    var s1, v1 := Claiming(elapsed);
    s := ClaimsRow(s1, v1, 1, 7);
    v := v1.(rows := v1.rows[4 := v1.rows[4].Revoke(elapsed)]).With(1, Claimed(SESSION), 7);
  }

  ghost predicate RotationInFlight(s: State, e: Event) {
    Reachable(s) && Revokes(s, e) && Held(s, s.requests[e.id].family) && CanLand(s, s.requests[e.id].family)
  }

  /** A refresh has claimed the session's row, and a logout of the same token is about to revoke the family. */
  lemma RevocationMeetsRotation()
    ensures exists s, e :: RotationInFlight(s, e)
  {
    var s2, v2 := HasClaimed(0);
    var s := LogoutFinds(s2, v2, 2, Token(2, 0), 4, 8);
    MeetsRotation(s);
    assert RotationInFlight(s, Advance(2, 9));
  }

  lemma MeetsRotation(s: State)
    requires Reachable(s) && 1 in s.requests && s.requests[1] == Claimed(SESSION)
    requires 2 in s.requests && s.requests[2] == Revoking(1, 1) && 9 !in s.used
    ensures RotationInFlight(s, Advance(2, 9))
  {
    assert Lands(s.requests[1]);
  }

  ghost predicate ClaimIsLost(s: State, claim: Event, prune: Event) {
    && Reachable(s) && Claims(s, claim) && Prunes(s, prune) && prune.uuid != claim.uuid
    && Step(Step(s, prune), claim).requests[claim.id].Revoking?
  }

  /** A refresh is about to claim a row that has expired since it was checked, and a login to prune it. */
  ghost predicate ClaimWaiting(s: State) {
    && Reachable(s) && s.now == 20000 && 4 in s.rows && s.rows[4] == RowOf(4, SESSION, 2, 0)
    && 1 in s.requests && s.requests[1] == RefreshClaiming(RowOf(4, SESSION, 2, 0))
    && 2 in s.requests && s.requests[2] == Signed(Session(1, 1, 7), Token(8, 20000))
    && 9 !in s.used && 10 !in s.used
  }

  lemma ClaimWaits() returns (s: State)
    ensures ClaimWaiting(s)
  {
    var s1, v1 := Claiming(0);
    s := SecondLogin(s1, v1);
  }

  /** Another login of the user signs its token long after the first one has expired. */
  lemma SecondLogin(s: State, v: View) returns (s': State)
    requires At(s, v) && v.now == 0 && 4 in v.rows && v.rows[4] == RowOf(4, SESSION, 2, 0)
    requires 1 in v.requests && v.requests[1] == RefreshClaiming(RowOf(4, SESSION, 2, 0))
    requires 2 !in v.requests && v.used == {1, 2, 3, 4, 5, 6}
    ensures ClaimWaiting(s')
  {
    s' := LoginSigns(s, v, 2, 7, 8, 20000);
  }

  lemma ClaimLostAt(s: State)
    requires ClaimWaiting(s)
    ensures ClaimIsLost(s, Advance(1, 9), Advance(2, 10))
  {
    assert Claims(s, Advance(1, 9)) && Prunes(s, Advance(2, 10));
    ClaimLostToPruneIff(s, Advance(1, 9), Advance(2, 10));
  }

  /** So a claim that would have succeeded takes the reuse branch. */
  lemma ClaimMeetsPrune()
    ensures exists s, claim, prune :: ClaimIsLost(s, claim, prune)
  {
    var s := ClaimWaits();
    ClaimLostAt(s);
  }

  /** Five seconds after the login, a refresh has signed the second token. */
  lemma HasSigned() returns (s: State, v: View)
    ensures At(s, v) && v.now == 5000 && v.rows == map[4 := RowOf(4, SESSION, 2, 0).Revoke(5000)]
    ensures v.requests == map[0 := Done(Some(Token(2, 0))), 1 := Signed(SESSION, Token(12, 5000))]
    ensures v.used == {1, 2, 3, 4, 5, 6, 7, 8, 12}
  {
    var s3, v3 := HasClaimed(5000);
    var s4 := Moves(s3, v3, 1, 8, Checked(SESSION));
    var v4 := v3.With(1, Checked(SESSION), 8);
    s := Signs(s4, v4, 1, SESSION, 12);
    v := v4.With(1, Signed(SESSION, Token(12, 5000)), 12);
  }

  /** It has stored it. */
  lemma RotatedOnce() returns (s: State, v: View)
    ensures At(s, v) && v.now == 5000
    ensures v.rows == map[4 := RowOf(4, SESSION, 2, 0).Revoke(5000), 14 := RowOf(14, SESSION, 12, 5000)]
    ensures v.requests.Keys == {0, 1} && v.used == {1, 2, 3, 4, 5, 6, 7, 8, 12, 13, 14}
  {
    var s5, v5 := HasSigned();
    var stored := Token(12, 5000);
    s := Stores(s5, v5, 1, SESSION, 12, 5000, 13, 14);
    v := v5.(rows := v5.rows[14 := RowOf(14, SESSION, 12, 5000)])
           .With(1, Pruned(SESSION, stored), 13).With(1, Done(Some(stored)), 14);
  }

  /** The first token's row has expired, the second's has not; the logout waits, and so does the prune. */
  ghost predicate LogoutWaiting(s: State) {
    && Reachable(s) && s.cfg == CONFIG && s.users == ACCOUNTS && s.now == 12000
    && s.rows == map[4 := RowOf(4, SESSION, 2, 0).Revoke(5000), 14 := RowOf(14, SESSION, 12, 5000)]
    && 2 in s.requests && s.requests[2] == LogoutVerified(1, Token(2, 0))
    && 3 in s.requests && s.requests[3] == Signed(Session(1, 1, 20), Token(21, 12000))
    && 30 !in s.used && 31 !in s.used
  }

  lemma LogoutVerifies() returns (s: State, v: View)
    ensures At(s, v) && v.now == 5000
    ensures v.rows == map[4 := RowOf(4, SESSION, 2, 0).Revoke(5000), 14 := RowOf(14, SESSION, 12, 5000)]
    ensures v.requests.Keys == {0, 1, 2} && v.requests[2] == LogoutVerified(1, Token(2, 0))
    ensures v.used == {1, 2, 3, 4, 5, 6, 7, 8, 12, 13, 14}
  {
    var s1, v1 := RotatedOnce();
    s := Verifies(s1, v1, 2, Token(2, 0), false);
    v := v1.(requests := v1.requests[2 := LogoutVerified(1, Token(2, 0))]);
  }

  lemma LogoutWaits() returns (s: State)
    ensures LogoutWaiting(s)
  {
    var s2, v2 := LogoutVerifies();
    s := LoginSigns(s2, v2, 3, 20, 21, 7000);
  }

  lemma LogoutLooksUp(s: State)
    requires LogoutWaiting(s)
    ensures LooksUp(s, Advance(2, 30)) && LookedUp(s, Advance(2, 30)) == Some(s.rows[4])
    ensures Prunes(s, Advance(3, 31))
  {
    ReachableInv(s);
    TableIsWellFormed(s);
    FoundIsUnique(s.rows, 1, Sha256(Token(2, 0)), 4);
    AdvanceMoves(s, Advance(2, 30));
  }

  /** The second token is usable wherever its row is. */
  lemma SecondIsUsable(s: State)
    requires Reachable(s) && s.cfg == CONFIG && s.now == 12000
    requires 14 in s.rows && s.rows[14] == RowOf(14, SESSION, 12, 5000)
    ensures Usable(s, Token(12, 5000)) && FamilyOf(s, Token(12, 5000)) == 1
  {
    ReachableInv(s);
    TableIsWellFormed(s);
    FoundIsUnique(s.rows, 1, Sha256(Token(12, 5000)), 14);
  }

  ghost predicate LogoutIsLost(s: State, look: Event, prune: Event, other: RawToken) {
    && Reachable(s) && LooksUp(s, look) && Prunes(s, prune) && prune.uuid != look.uuid
    && LookedUp(s, look).Some? && Usable(s, other)
    && FamilyOf(s, other) == LookedUp(s, look).value.session.familyId
    && Step(Step(s, prune), look).requests[look.id] == Done(None)
    && Usable(Step(Step(s, prune), look), other)
  }

  /**
   * A logout has verified the session's first token when a refresh has already replaced it. The first
   * token's row expires and a login prunes it; the look-up finds nothing, and the second token, which
   * the logout would have revoked, stays usable.
   */
  lemma LogoutMeetsPrune()
    ensures exists s, look, prune, other :: LogoutIsLost(s, look, prune, other)
  {
    var s := LogoutWaits();
    var look, prune := Advance(2, 30), Advance(3, 31);
    LogoutLooksUp(s);
    SecondIsUsable(s);
    LogoutLostToPruneIff(s, look, prune);
    SecondSurvives(s);
    assert LogoutIsLost(s, look, prune, Token(12, 5000));
  }

  lemma SecondSurvives(s: State)
    requires LogoutWaiting(s)
    ensures Usable(Step(Step(s, Advance(3, 31)), Advance(2, 30)), Token(12, 5000))
  {
    var pruned := Step(s, Advance(3, 31));
    AdvanceMoves(s, Advance(3, 31));
    ReachableStep(s, Advance(3, 31));
    assert pruned.rows[14] == s.rows[14];
    AdvanceMoves(pruned, Advance(2, 30));
    ReachableStep(pruned, Advance(2, 30));
    SecondIsUsable(Step(pruned, Advance(2, 30)));
  }
}
