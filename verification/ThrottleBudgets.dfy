/** Every identity has a budget of its own: keys do not collide, and interleaved identities do not interfere. */
module ThrottleBudgets {
  import opened Tokens
  import opened RedisCounters
  import opened LoginThrottle
  import opened ThrottleWindow

  predicate ColonFree(text: string) {
    ':' !in text
  }

  /** A colon-free field ends where the first colon is. */
  lemma FirstColonSplits(a: string, b: string, x: string, y: string)
    requires ColonFree(a) && ColonFree(b) && a + ":" + x == b + ":" + y
    ensures a == b && x == y
  {
    var whole := a + ":" + x;
    assert whole[|a|] == ':' && whole[|b|] == ':';
    assert !(|a| < |b|) && !(|b| < |a|);
    assert whole[..|a|] == a && whole[..|b|] == b;
    assert whole[|a| + 1..] == x && whole[|b| + 1..] == y;
  }

  /** One identity, as far as the lockout is concerned. */
  predicate SameAs(lower: string -> string, a: Identity, b: Identity) {
    a.tenantId == b.tenantId && lower(a.email) == lower(b.email) && a.ip == b.ip
  }

  predicate NoColons(lower: string -> string, identity: Identity) {
    ColonFree(identity.tenantId) && ColonFree(lower(identity.email))
  }

  /**
   * Two identities share a counter exactly when tenant, case-folded email and address agree, provided
   * the tenants and folded emails hold no colon; addresses may.
   */
  lemma SharedCounterIff(lower: string -> string, a: Identity, b: Identity)
    requires NoColons(lower, a) && NoColons(lower, b)
    ensures KeyFor(lower, a) == KeyFor(lower, b) <==> SameAs(lower, a, b)
  {
    if KeyFor(lower, a) == KeyFor(lower, b) {
      var restA := a.tenantId + ":" + (lower(a.email) + ":" + a.ip);
      var restB := b.tenantId + ":" + (lower(b.email) + ":" + b.ip);
      assert KeyFor(lower, a) == KEY_PREFIX + ":" + restA;
      assert KeyFor(lower, b) == KEY_PREFIX + ":" + restB;
      FirstColonSplits(KEY_PREFIX, KEY_PREFIX, restA, restB);
      FirstColonSplits(a.tenantId, b.tenantId, lower(a.email) + ":" + a.ip, lower(b.email) + ":" + b.ip);
      FirstColonSplits(lower(a.email), lower(b.email), a.ip, b.ip);
    }
  }

  /** The proviso is needed: with a colon in a tenant or an email, different identities can share a counter. */
  lemma ColonsCanCollide(lower: string -> string, ip: string)
    requires lower("b:c") == "b:c" && lower("c") == "c"
    ensures
      var a, b := Identity("a", "b:c", ip), Identity("a:b", "c", ip);
      a != b && KeyFor(lower, a) == KeyFor(lower, b)
  {
    var a, b := Identity("a", "b:c", ip), Identity("a:b", "c", ip);
    assert KEY_PREFIX + ":" + "a" + ":" + "b:c" == KEY_PREFIX + ":" + "a:b" + ":" + "c";
    assert KeyFor(lower, a) == KEY_PREFIX + ":" + "a" + ":" + "b:c" + ":" + ip;
    assert KeyFor(lower, b) == KEY_PREFIX + ":" + "a:b" + ":" + "c" + ":" + ip;
  }

  // ----- many counters -----

  /** An attempt by some identity. */
  datatype IdentityTry = IdentityTry(identity: Identity, attempt: Try)

  /** How many of the identity's attempts, at times in [from, to), end so in a run of all identities. */
  function CountAmong(lower: string -> string, limits: Limits, store: Store, tries: seq<IdentityTry>,
                      identity: Identity, outcome: Outcome, from: Millis, to: Millis): nat
    decreases |tries|
  {
    if tries == [] then 0
    else
      var key, t := KeyFor(lower, tries[0].identity), tries[0].attempt;
      var (slot, seen) := Attempt(limits, At(store, key), t.at, t.passwordOk);
      (if SameAs(lower, tries[0].identity, identity) && seen == outcome && from <= t.at < to then 1 else 0) +
      CountAmong(lower, limits, With(store, key, slot), tries[1..], identity, outcome, from, to)
  }

  /** The identity's own attempts. */
  function Own(lower: string -> string, tries: seq<IdentityTry>, identity: Identity): seq<Try> {
    if tries == [] then [] else
      var rest := Own(lower, tries[1..], identity);
      if SameAs(lower, tries[0].identity, identity) then [tries[0].attempt] + rest else rest
  }

  ghost predicate AllColonFree(lower: string -> string, tries: seq<IdentityTry>) {
    forall i | 0 <= i < |tries| :: NoColons(lower, tries[i].identity)
  }

  /** Seen from one identity, a run of many identities is the run of that identity alone. */
  lemma {:induction false} RunsProject(lower: string -> string, limits: Limits, store: Store,
                                       tries: seq<IdentityTry>, identity: Identity, outcome: Outcome,
                                       from: Millis, to: Millis)
    requires NoColons(lower, identity) && AllColonFree(lower, tries)
    ensures CountAmong(lower, limits, store, tries, identity, outcome, from, to) ==
        Count(limits, At(store, KeyFor(lower, identity)), Own(lower, tries, identity), outcome, from, to)
    decreases |tries|
  {
    if tries == [] {
    } else {
      var key, t := KeyFor(lower, tries[0].identity), tries[0].attempt;
      var slot := Attempt(limits, At(store, key), t.at, t.passwordOk).0;
      var rest := Own(lower, tries[1..], identity);
      RunsProject(lower, limits, With(store, key, slot), tries[1..], identity, outcome, from, to);
      SharedCounterIff(lower, tries[0].identity, identity);
      if SameAs(lower, tries[0].identity, identity) {
        assert Own(lower, tries, identity)[1..] == rest;
      } else {
        assert Own(lower, tries, identity) == rest;
      }
    }
  }

  predicate InOrder(tries: seq<IdentityTry>) {
    forall i, j :: 0 <= i < j < |tries| ==> tries[i].attempt.at <= tries[j].attempt.at
  }

  lemma {:induction false} OwnIsChronological(lower: string -> string, tries: seq<IdentityTry>, identity: Identity)
    requires InOrder(tries)
    ensures Chronological(Own(lower, tries, identity))
    ensures forall t :: t in Own(lower, tries, identity) ==> exists k :: k in tries && k.attempt == t
    decreases |tries|
  {
    if tries == [] {
    } else {
      OwnIsChronological(lower, tries[1..], identity);
      assert tries[0] in tries;
      var rest := Own(lower, tries[1..], identity);
      forall j | 0 <= j < |rest| ensures tries[0].attempt.at <= rest[j].at {
        assert rest[j] in rest;
        var k :| k in tries[1..] && k.attempt == rest[j];
      }
    }
  }

  /**
   * So each identity meets the window bound whatever the others do in between: attempts count
   * against one budget exactly when tenant, folded email and address agree.
   */
  lemma WindowBoundPerIdentity(lower: string -> string, limits: Limits, tries: seq<IdentityTry>, identity: Identity,
                               from: Millis, to: Millis)
    requires limits.Valid() && InOrder(tries) && to <= from + limits.Lockout() + 1
    requires NoColons(lower, identity) && AllColonFree(lower, tries)
    ensures CountAmong(lower, limits, map[], tries, identity, Failed, from, to) <=
        MaxFailures(limits) +
        limits.maxAttempts * CountAmong(lower, limits, map[], tries, identity, Succeeded, from, to)
  {
    OwnIsChronological(lower, tries, identity);
    RunsProject(lower, limits, map[], tries, identity, Failed, from, to);
    RunsProject(lower, limits, map[], tries, identity, Succeeded, from, to);
    FailedChecksPerWindow(limits, Own(lower, tries, identity), from, to);
  }
}
