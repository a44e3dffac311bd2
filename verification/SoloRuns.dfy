/**
 * The step-by-step programs and the whole requests are the same thing: a request whose steps run
 * with nothing in between leaves the table, and gives the answer, of the call taken whole.
 */
module SoloRuns {
  import opened Wrappers
  import opened Tokens
  import opened TokenTable
  import opened SessionProtocol
  import SessionCalls

  /** The request's own steps, one per UUID; once it is done the rest do nothing. */
  function Alone(r: RequestId, uuids: seq<Uuid>): seq<Event> {
    seq(|uuids|, i requires 0 <= i < |uuids| => Advance(r, uuids[i]))
  }

  ghost predicate Unused(s: State, uuids: seq<Uuid>) {
    && (forall i :: 0 <= i < |uuids| ==> uuids[i] !in s.used)
    && (forall i, j :: 0 <= i < j < |uuids| ==> uuids[i] != uuids[j])
  }

  lemma AloneStep(s: State, r: RequestId, uuids: seq<Uuid>)
    requires uuids != [] && Unused(s, uuids) && r in s.requests && !s.requests[r].Done?
    ensures
      var s' := Step(s, Advance(r, uuids[0]));
      && Run(s, Alone(r, uuids)) == Run(s', Alone(r, uuids[1..]))
      && Unused(s', uuids[1..]) && s'.now == s.now && s'.cfg == s.cfg && s'.users == s.users
      && r in s'.requests && s'.requests[r] == Next(s, s.requests[r], uuids[0])
      && s'.rows == Effect(s, s.requests[r], uuids[0]).rows
  {
    assert Alone(r, uuids)[1..] == Alone(r, uuids[1..]);
  }

  lemma {:induction false} AloneDone(s: State, r: RequestId, uuids: seq<Uuid>)
    requires r in s.requests && s.requests[r].Done?
    ensures Run(s, Alone(r, uuids)) == s
    decreases |uuids|
  {
    if uuids == [] {
    } else {
      assert Alone(r, uuids)[1..] == Alone(r, uuids[1..]);
      AloneDone(s, r, uuids[1..]);
    }
  }

  /** No time passes, and no other request moves. */
  ghost predicate LeavesOthers(s: State, end: State, r: RequestId) {
    && end.now == s.now && end.cfg == s.cfg && end.users == s.users && s.used <= end.used
    && end.requests - {r} == s.requests - {r}
  }

  lemma {:induction false} AloneLeavesOthers(s: State, r: RequestId, uuids: seq<Uuid>)
    ensures LeavesOthers(s, Run(s, Alone(r, uuids)), r)
    decreases |uuids|
  {
    if uuids == [] {
    } else {
      assert Alone(r, uuids)[1..] == Alone(r, uuids[1..]);
      AloneLeavesOthers(Step(s, Advance(r, uuids[0])), r, uuids[1..]);
    }
  }

  function AllAt(now: Millis): SessionCalls.Times {
    SessionCalls.Times(now, now, now, now, now)
  }

  /** What a solo run must come to: the given table, and the given answer from the request. */
  ghost predicate EndsAs(s: State, r: RequestId, uuids: seq<Uuid>, end: (Table, Option<RawToken>)) {
    var s' := Run(s, Alone(r, uuids));
    s'.rows == end.0 && r in s'.requests && s'.requests[r] == Done(end.1)
  }

  lemma SoloRevoke(s: State, r: RequestId, uuids: seq<Uuid>)
    requires |uuids| >= 1 && Unused(s, uuids) && r in s.requests && s.requests[r].Revoking?
    ensures EndsAs(s, r, uuids, (RevokeFamily(s.rows, s.requests[r].tenant, s.requests[r].family, s.now), None))
  {
    AloneStep(s, r, uuids);
    AloneDone(Step(s, Advance(r, uuids[0])), r, uuids[1..]);
  }

  lemma SoloIssue(s: State, r: RequestId, uuids: seq<Uuid>)
    requires |uuids| == 3 && Unused(s, uuids) && r in s.requests && s.requests[r].Checked?
    ensures
      var draw := SessionCalls.Draw(uuids[0], uuids[2]);
      EndsAs(s, r, uuids, SessionCalls.Issue(s.cfg, s.rows, s.requests[r].session, draw, AllAt(s.now), true))
  {
    AloneStep(s, r, uuids);
    var signed := Step(s, Advance(r, uuids[0]));
    AloneStep(signed, r, uuids[1..]);
    var pruned := Step(signed, Advance(r, uuids[1]));
    assert uuids[1..][1..] == uuids[2..];
    AloneStep(pruned, r, uuids[2..]);
    AloneDone(Step(pruned, Advance(r, uuids[2])), r, uuids[2..][1..]);
  }

  lemma SoloUserCheck(s: State, r: RequestId, uuids: seq<Uuid>)
    requires |uuids| == 4 && Unused(s, uuids) && r in s.requests && s.requests[r].Claimed?
    ensures
      var session := s.requests[r].session;
      var draw := SessionCalls.Draw(uuids[1], uuids[3]);
      EndsAs(s, r, uuids,
        if ActiveInTenant(s.users, session.userId, session.tenantId)
        then SessionCalls.Issue(s.cfg, s.rows, session, draw, AllAt(s.now), true)
        else (RevokeFamily(s.rows, session.tenantId, session.familyId, s.now), None))
  {
    AloneStep(s, r, uuids);
    var s' := Step(s, Advance(r, uuids[0]));
    if s'.requests[r].Checked? {
      SoloIssue(s', r, uuids[1..]);
    } else {
      SoloRevoke(s', r, uuids[1..]);
    }
  }

  lemma SoloClaim(s: State, r: RequestId, uuids: seq<Uuid>)
    requires |uuids| == 5 && Unused(s, uuids) && r in s.requests && s.requests[r].RefreshClaiming?
    ensures
      var row := s.requests[r].row;
      var session := row.session;
      var rows := Claim(s.rows, session.tenantId, row.id, s.now);
      var draw := SessionCalls.Draw(uuids[2], uuids[4]);
      EndsAs(s, r, uuids,
        if !Claimable(s.rows, session.tenantId, row.id)
        then (RevokeFamily(s.rows, session.tenantId, session.familyId, s.now), None)
        else if ActiveInTenant(s.users, session.userId, session.tenantId)
        then SessionCalls.Issue(s.cfg, rows, session, draw, AllAt(s.now), true)
        else (RevokeFamily(rows, session.tenantId, session.familyId, s.now), None))
  {
    AloneStep(s, r, uuids);
    var s' := Step(s, Advance(r, uuids[0]));
    if s'.requests[r].Claimed? {
      SoloUserCheck(s', r, uuids[1..]);
    } else {
      SoloRevoke(s', r, uuids[1..]);
    }
  }

  lemma SoloVerified(s: State, r: RequestId, uuids: seq<Uuid>)
    requires |uuids| == 7 && Unused(s, uuids) && r in s.requests && s.requests[r].RefreshVerified?
    requires TryVerify(s.cfg, s.requests[r].raw, s.now).Some?
    requires s.requests[r].tenant == s.requests[r].raw.payload.tenantId
    ensures
      var draw := SessionCalls.Draw(uuids[4], uuids[6]);
      EndsAs(s, r, uuids, SessionCalls.Refresh(s.cfg, s.rows, s.users, s.requests[r].raw, draw, AllAt(s.now), true))
  {
    AloneStep(s, r, uuids);
    var found := Step(s, Advance(r, uuids[0]));
    if found.requests[r].Done? {
      AloneDone(found, r, uuids[1..]);
    } else {
      AloneStep(found, r, uuids[1..]);
      var checked := Step(found, Advance(r, uuids[1]));
      assert uuids[1..][1..] == uuids[2..];
      if checked.requests[r].Done? {
        AloneDone(checked, r, uuids[2..]);
      } else {
        SoloClaim(checked, r, uuids[2..]);
      }
    }
  }

  /** A refresh that runs alone does and answers what the whole call does. */
  lemma SoloRefreshIsTheCall(s: State, r: RequestId, raw: RawToken, uuids: seq<Uuid>)
    requires r !in s.requests && |uuids| == 7 && Unused(s, uuids)
    ensures
      var draw := SessionCalls.Draw(uuids[4], uuids[6]);
      EndsAs(Step(s, StartRefresh(r, raw)), r, uuids,
        SessionCalls.Refresh(s.cfg, s.rows, s.users, raw, draw, AllAt(s.now), true))
  {
    var s' := Step(s, StartRefresh(r, raw));
    if s'.requests[r].Done? {
      AloneDone(s', r, uuids);
    } else {
      SoloVerified(s', r, uuids);
    }
  }

  /** So does a logout, which answers nothing. */
  lemma SoloLogoutIsTheCall(s: State, r: RequestId, raw: RawToken, uuids: seq<Uuid>)
    requires r !in s.requests && |uuids| == 2 && Unused(s, uuids)
    ensures EndsAs(Step(s, StartLogout(r, raw)), r, uuids,
        (SessionCalls.Logout(s.cfg, s.rows, raw, AllAt(s.now)), None))
  {
    var s' := Step(s, StartLogout(r, raw));
    if s'.requests[r].Done? {
      AloneDone(s', r, uuids);
    } else {
      AloneStep(s', r, uuids);
      var found := Step(s', Advance(r, uuids[0]));
      if found.requests[r].Done? {
        AloneDone(found, r, uuids[1..]);
      } else {
        SoloRevoke(found, r, uuids[1..]);
      }
    }
  }

  /** And a login, from the moment its credentials are accepted, is issue() for a family it opens. */
  lemma SoloLoginIsTheCall(s: State, r: RequestId, tenant: Uuid, user: Uuid, uuids: seq<Uuid>)
    requires r !in s.requests && ActiveInTenant(s.users, user, tenant)
    requires |uuids| == 4 && Unused(s, uuids)
    ensures
      var draw := SessionCalls.Draw(uuids[1], uuids[3]);
      EndsAs(Step(s, StartLogin(r, tenant, user)), r, uuids,
        SessionCalls.Issue(s.cfg, s.rows, Session(tenant, user, uuids[0]), draw, AllAt(s.now), true))
  {
    var s' := Step(s, StartLogin(r, tenant, user));
    AloneStep(s', r, uuids);
    SoloIssue(Step(s', Advance(r, uuids[0])), r, uuids[1..]);
  }
}
