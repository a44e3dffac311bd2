/**
 * Attempts on one identity whose Redis calls interleave: the lock is checked in one call, the failure
 * counted in a later one, and the lockout started in a third.
 */
module ThrottleInterleaving {
  import opened Wrappers
  import opened Tokens
  import opened RedisCounters
  import opened LoginThrottle

  type AttemptId = nat

  datatype Phase =
    | Checked   // past assertNotLocked, its password still to be compared
    | Counted   // its failure reached the threshold; startLockout is still to come
    | Over

  datatype State = State(now: Millis, slot: Slot, attempts: map<AttemptId, Phase>)

  datatype Event =
    | Tick(elapsed: nat)
    | Check(id: AttemptId)
    | Fail(id: AttemptId)
    | StartLockout(id: AttemptId)
    | Succeed(id: AttemptId)

  predicate Enabled(s: State, e: Event) {
    match e
    case Tick(_) => true
    case Check(a) => a !in s.attempts
    case Fail(a) => a in s.attempts && s.attempts[a].Checked?
    case StartLockout(a) => a in s.attempts && s.attempts[a].Counted?
    case Succeed(a) => a in s.attempts && s.attempts[a].Checked?
  }

  function Step(limits: Limits, s: State, e: Event): State {
    if !Enabled(s, e) then s else
    match e
    case Tick(elapsed) => s.(now := s.now + elapsed)
    case Check(a) =>
      s.(attempts := s.attempts[a := if IsLocked(limits, s.slot, s.now) then Over else Checked])
    case Fail(a) =>
      var slot := Incremented(s.slot, limits.lockoutSeconds, s.now);
      s.(slot := slot,
         attempts := s.attempts[a := if slot.value.value < limits.maxAttempts then Over else Counted])
    case StartLockout(a) =>
      s.(slot := TtlReset(s.slot, limits.lockoutSeconds, s.now), attempts := s.attempts[a := Over])
    case Succeed(a) => s.(slot := None, attempts := s.attempts[a := Over])
  }

  function Run(limits: Limits, s: State, events: seq<Event>): State
    decreases |events|
  {
    if events == [] then s else Run(limits, Step(limits, s, events[0]), events[1..])
  }

  function Init(now: Millis): State {
    State(now, None, map[])
  }

  function InFlight(s: State): set<AttemptId> {
    set a | a in s.attempts && s.attempts[a].Checked?
  }

  /** No state of the run has more than k attempts between their check and their verdict. */
  predicate NeverMoreThan(limits: Limits, s: State, events: seq<Event>, k: nat)
    decreases |events|
  {
    |InFlight(s)| <= k && (events != [] ==> NeverMoreThan(limits, Step(limits, s, events[0]), events[1..], k))
  }

  lemma InFlightByStep(limits: Limits, s: State, e: Event)
    ensures
      var before, after := InFlight(s), InFlight(Step(limits, s, e));
      match e
      case Check(a) => Enabled(s, e) && !IsLocked(limits, s.slot, s.now) ==> after == before + {a} && a !in before
      case Fail(a) => Enabled(s, e) ==> after == before - {a} && a in before
      case Succeed(a) => Enabled(s, e) ==> after == before - {a} && a in before
      case _ => after == before
    ensures e.Check? && IsLocked(limits, s.slot, s.now) ==> InFlight(Step(limits, s, e)) == InFlight(s)
  {
  }

  /** What the counter shows, plus what the attempts in flight can still add, stays within the bound. */
  predicate Bounded(limits: Limits, s: State, k: nat)
    requires limits.maxAttempts > 0
  {
    CountOf(s.slot, s.now) + |InFlight(s)| <= limits.maxAttempts - 1 + k
  }

  lemma BoundedStep(limits: Limits, s: State, e: Event, k: nat)
    requires limits.Valid() && Bounded(limits, s, k) && |InFlight(Step(limits, s, e))| <= k
    ensures Bounded(limits, Step(limits, s, e), k)
  {
    InFlightByStep(limits, s, e);
  }

  lemma {:induction false} BoundedRun(limits: Limits, s: State, events: seq<Event>, k: nat)
    requires limits.Valid() && Bounded(limits, s, k) && NeverMoreThan(limits, s, events, k)
    ensures Bounded(limits, Run(limits, s, events), k)
    decreases |events|
  {
    if events == [] {
    } else {
      assert NeverMoreThan(limits, Step(limits, s, events[0]), events[1..], k);
      BoundedStep(limits, s, events[0], k);
      BoundedRun(limits, Step(limits, s, events[0]), events[1..], k);
    }
  }

  /** With at most k attempts in flight the counter never exceeds maxAttempts + k - 1. */
  lemma OvershootIsBounded(limits: Limits, now: Millis, events: seq<Event>, k: nat)
    requires limits.Valid() && NeverMoreThan(limits, Init(now), events, k)
    ensures
      var s := Run(limits, Init(now), events);
      CountOf(s.slot, s.now) <= limits.maxAttempts + k - 1
  {
    BoundedRun(limits, Init(now), events, k);
  }

  /** Every counter has a deadline, no later than a lockout from now. */
  predicate Expiring(limits: Limits, s: State) {
    s.slot.Some? ==> s.slot.value.deadline.Some? && s.slot.value.deadline.value <= s.now + limits.Lockout()
  }

  lemma {:induction false} ExpiringRun(limits: Limits, s: State, events: seq<Event>)
    requires limits.Valid() && Expiring(limits, s)
    ensures Expiring(limits, Run(limits, s, events))
    decreases |events|
  {
    if events == [] {
    } else {
      ExpiringRun(limits, Step(limits, s, events[0]), events[1..]);
    }
  }

  /** No event of the run records a failure. */
  predicate Quiet(events: seq<Event>) {
    forall e :: e in events ==> !e.Fail? && !e.StartLockout?
  }

  lemma {:induction false} QuietRun(limits: Limits, s: State, events: seq<Event>)
    requires Quiet(events)
    ensures Run(limits, s, events).slot == s.slot || Run(limits, s, events).slot == None
    ensures Run(limits, s, events).now >= s.now
    decreases |events|
  {
    if events == [] {
    } else {
      assert events[0] in events;
      assert Quiet(events[1..]) by {
        assert forall e :: e in events[1..] ==> e in events;
      }
      QuietRun(limits, Step(limits, s, events[0]), events[1..]);
    }
  }

  /** More than a lockout without a recorded failure always unlocks, whatever state the attempts are in. */
  lemma QuietTimeUnlocks(limits: Limits, now: Millis, past: seq<Event>, events: seq<Event>)
    requires limits.Valid() && Quiet(events)
    requires
      var from := Run(limits, Init(now), past);
      Run(limits, from, events).now > from.now + limits.Lockout()
    ensures
      var s := Run(limits, Run(limits, Init(now), past), events);
      !IsLocked(limits, s.slot, s.now)
  {
    ExpiringRun(limits, Init(now), past);
    QuietRun(limits, Run(limits, Init(now), past), events);
  }

  predicate LockedThroughout(limits: Limits, s: State, events: seq<Event>)
    decreases |events|
  {
    IsLocked(limits, s.slot, s.now) &&
    (events != [] ==> LockedThroughout(limits, Step(limits, s, events[0]), events[1..]))
  }

  lemma {:induction false} NobodyPassesTheLock(limits: Limits, s: State, events: seq<Event>)
    requires limits.Valid() && LockedThroughout(limits, s, events)
    ensures InFlight(Run(limits, s, events)) <= InFlight(s)
    ensures IsLocked(limits, Run(limits, s, events).slot, Run(limits, s, events).now)
    decreases |events|
  {
    if events == [] {
    } else {
      InFlightByStep(limits, s, events[0]);
      NobodyPassesTheLock(limits, Step(limits, s, events[0]), events[1..]);
    }
  }

  /** A lock ends only when its deadline passes, or by a success that was past the check before the lock. */
  lemma LockEndsOnlyBy(limits: Limits, s: State, events: seq<Event>, e: Event)
    requires limits.Valid() && LockedThroughout(limits, s, events)
    requires var end := Step(limits, Run(limits, s, events), e); !IsLocked(limits, end.slot, end.now)
    ensures
      var last := Run(limits, s, events);
      || (e.Tick? && last.slot.Some? && last.slot.value.deadline.Some? &&
          last.slot.value.deadline.value < last.now + e.elapsed)
      || (e.Succeed? && e.id in InFlight(s))
  {
    NobodyPassesTheLock(limits, s, events);
    InFlightByStep(limits, Run(limits, s, events), e);
  }

  // ----- an attempt that runs alone -----

  /** The calls of one attempt, none of another's in between. */
  function Alone(id: AttemptId, passwordOk: bool): seq<Event> {
    if passwordOk then [Check(id), Succeed(id)] else [Check(id), Fail(id), StartLockout(id)]
  }

  /** It leaves the counter of the attempt taken whole. */
  lemma SoloAttemptIsTheCall(limits: Limits, s: State, id: AttemptId, passwordOk: bool)
    requires limits.Valid() && id !in s.attempts
    ensures Run(limits, s, Alone(id, passwordOk)).slot == Attempt(limits, s.slot, s.now, passwordOk).0
  {
    var events := Alone(id, passwordOk);
    var s1 := Step(limits, s, events[0]);
    var s2 := Step(limits, s1, events[1]);
    assert events[1..][0] == events[1] && events[1..][1..] == events[2..];
    if passwordOk {
      assert events[2..] == [];
    } else {
      assert events[2..][0] == events[2] && events[2..][1..] == [];
      assert Run(limits, s2, events[2..]) == Step(limits, s2, events[2]);
    }
    assert Run(limits, s, events) == Run(limits, s1, events[1..]) == Run(limits, s2, events[2..]);
  }

  // ----- the overshoot is attained -----

  /** From here the events keep within k attempts in flight and bring the counter to the bound. */
  predicate Overshoots(limits: Limits, s: State, events: seq<Event>, k: nat)
    requires limits.maxAttempts > 0
  {
    && NeverMoreThan(limits, s, events, k)
    && var end := Run(limits, s, events);
       CountOf(end.slot, end.now) == limits.maxAttempts + k - 1
  }

  lemma OvershootsByStep(limits: Limits, s: State, e: Event, rest: seq<Event>, k: nat)
    requires limits.Valid() && |InFlight(s)| <= k && Overshoots(limits, Step(limits, s, e), rest, k)
    ensures Overshoots(limits, s, [e] + rest, k)
  {
    assert ([e] + rest)[1..] == rest;
  }

  /** All the attempts in flight fail. */
  lemma {:induction false} AllFail(limits: Limits, s: State, k: nat) returns (events: seq<Event>)
    requires limits.Valid() && |InFlight(s)| <= k
    requires CountOf(s.slot, s.now) + |InFlight(s)| == limits.maxAttempts + k - 1
    ensures Overshoots(limits, s, events, k)
    decreases |InFlight(s)|
  {
    if InFlight(s) == {} {
      events := [];
    } else {
      var id :| id in InFlight(s);
      InFlightByStep(limits, s, Fail(id));
      var rest := AllFail(limits, Step(limits, s, Fail(id)), k);
      OvershootsByStep(limits, s, Fail(id), rest, k);
      events := [Fail(id)] + rest;
    }
  }

  /** One failure below the threshold: k attempts pass the check before any of them fails. */
  lemma {:induction false} AllPass(limits: Limits, s: State, k: nat) returns (events: seq<Event>)
    requires limits.Valid() && |InFlight(s)| <= k && CountOf(s.slot, s.now) == limits.maxAttempts - 1
    ensures Overshoots(limits, s, events, k)
    decreases k - |InFlight(s)|
  {
    if |InFlight(s)| == k {
      events := AllFail(limits, s, k);
    } else {
      var id := AboveAll(s.attempts.Keys);
      InFlightByStep(limits, s, Check(id));
      var rest := AllPass(limits, Step(limits, s, Check(id)), k);
      OvershootsByStep(limits, s, Check(id), rest, k);
      events := [Check(id)] + rest;
    }
  }

  /** One after another, failures bring the counter to just below the threshold. */
  lemma {:induction false} CountUp(limits: Limits, s: State, k: nat) returns (events: seq<Event>)
    requires limits.Valid() && k >= 1 && InFlight(s) == {} && CountOf(s.slot, s.now) < limits.maxAttempts
    ensures Overshoots(limits, s, events, k)
    decreases limits.maxAttempts - CountOf(s.slot, s.now)
  {
    if CountOf(s.slot, s.now) == limits.maxAttempts - 1 {
      events := AllPass(limits, s, k);
    } else {
      var id := AboveAll(s.attempts.Keys);
      var checked := Step(limits, s, Check(id));
      InFlightByStep(limits, s, Check(id));
      InFlightByStep(limits, checked, Fail(id));
      var rest := CountUp(limits, Step(limits, checked, Fail(id)), k);
      OvershootsByStep(limits, checked, Fail(id), rest, k);
      OvershootsByStep(limits, s, Check(id), [Fail(id)] + rest, k);
      events := [Check(id)] + ([Fail(id)] + rest);
    }
  }

  /** For every k, some run with at most k attempts in flight brings the counter to the bound. */
  lemma OvershootIsAttained(limits: Limits, now: Millis, k: nat)
    requires limits.Valid() && k >= 1
    ensures exists events :: Overshoots(limits, Init(now), events, k)
  {
    var events := CountUp(limits, Init(now), k);
  }
}
