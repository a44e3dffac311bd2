/**
 * How many passwords one identity can get checked in any lockout-long window: the sharp bound, over
 * every run of attempts, and a run that attains it.
 */
module ThrottleWindow {
  import opened Wrappers
  import opened Tokens
  import opened RedisCounters
  import opened LoginThrottle

  /** A login attempt taken whole, at one clock reading, with the right password or a wrong one. */
  datatype Try = Try(at: Millis, passwordOk: bool)

  predicate Chronological(tries: seq<Try>) {
    forall i, j :: 0 <= i < j < |tries| ==> tries[i].at <= tries[j].at
  }

  /** How many of the tries, at times in [from, to), end with the given outcome. */
  function Count(limits: Limits, slot: Slot, tries: seq<Try>, outcome: Outcome, from: Millis, to: Millis): nat
    decreases |tries|
  {
    if tries == [] then 0
    else
      var (slot', seen) := Attempt(limits, slot, tries[0].at, tries[0].passwordOk);
      (if seen == outcome && from <= tries[0].at < to then 1 else 0) +
      Count(limits, slot', tries[1..], outcome, from, to)
  }

  /** The bound on failures in one window: the attempts left over from a window about to close, then a full one. */
  function MaxFailures(limits: Limits): nat
    requires limits.maxAttempts > 0
  {
    if limits.maxAttempts == 1 then 1 else 2 * limits.maxAttempts - 2
  }

  /** A counter this system writes: at least one failure, and always a deadline. */
  predicate Written(slot: Slot) {
    slot.Some? ==> slot.value.value >= 1 && slot.value.deadline.Some?
  }

  /** How many more failures the counter leaves room for before the window ends at to. */
  function Room(limits: Limits, slot: Slot, to: Millis): nat
    requires Written(slot)
  {
    var m := limits.maxAttempts;
    if slot.None? then m
    else
      var count, deadline := slot.value.value, slot.value.deadline.value;
      if deadline >= to - 1 then (if count >= m then 0 else m - count)
      else if count >= m then m
      else 2 * m - 1 - count
  }

  lemma WrittenStep(limits: Limits, slot: Slot, t: Try)
    requires Written(slot)
    ensures Written(Attempt(limits, slot, t.at, t.passwordOk).0)
  {
  }

  /** A failure inside the window uses up room; a lock or anything else never adds any, but a success refills it. */
  lemma RoomStep(limits: Limits, slot: Slot, t: Try, from: Millis, to: Millis)
    requires limits.Valid() && Written(slot) && to <= from + limits.Lockout() + 1
    requires from <= t.at < to
    ensures
      var (slot', seen) := Attempt(limits, slot, t.at, t.passwordOk);
      && Written(slot')
      && (seen == Failed ==> Room(limits, slot', to) + 1 <= Room(limits, slot, to))
      && (seen == Locked ==> Room(limits, slot', to) == Room(limits, slot, to))
      && (seen == Succeeded ==> Room(limits, slot', to) == limits.maxAttempts)
  {
  }

  lemma {:induction false} NothingAfter(limits: Limits, slot: Slot, tries: seq<Try>, outcome: Outcome,
                                        from: Millis, to: Millis)
    requires forall t :: t in tries ==> t.at >= to
    ensures Count(limits, slot, tries, outcome, from, to) == 0
    decreases |tries|
  {
    if tries == [] {
    } else {
      var (slot', _) := Attempt(limits, slot, tries[0].at, tries[0].passwordOk);
      NothingAfter(limits, slot', tries[1..], outcome, from, to);
    }
  }

  lemma CountStep(limits: Limits, slot: Slot, tries: seq<Try>, outcome: Outcome, from: Millis, to: Millis)
    requires tries != [] && from <= tries[0].at < to
    ensures
      var (slot', seen) := Attempt(limits, slot, tries[0].at, tries[0].passwordOk);
      Count(limits, slot, tries, outcome, from, to) ==
        Count(limits, slot', tries[1..], outcome, from, to) + if seen == outcome then 1 else 0
  {
  }

  lemma Refill(budget: nat, before: nat, after: nat, failures: nat, successes: nat, seen: Outcome)
    requires failures <= after + budget * successes
    requires seen == Failed ==> after + 1 <= before
    requires seen == Locked ==> after == before
    requires seen == Succeeded ==> after == budget
    ensures failures + (if seen == Failed then 1 else 0) <=
        before + budget * (successes + if seen == Succeeded then 1 else 0)
  {
    assert budget * (successes + 1) == budget + budget * successes;
  }

  /** The failures in the window fit the counter's room, refilled by each success. */
  predicate Fits(limits: Limits, slot: Slot, tries: seq<Try>, from: Millis, to: Millis)
    requires Written(slot)
  {
    Count(limits, slot, tries, Failed, from, to) <=
      Room(limits, slot, to) + limits.maxAttempts * Count(limits, slot, tries, Succeeded, from, to)
  }

  lemma FitsStep(limits: Limits, slot: Slot, tries: seq<Try>, from: Millis, to: Millis)
    requires limits.Valid() && Written(slot) && to <= from + limits.Lockout() + 1
    requires tries != [] && from <= tries[0].at < to
    requires
      var slot' := Attempt(limits, slot, tries[0].at, tries[0].passwordOk).0;
      Written(slot') && Fits(limits, slot', tries[1..], from, to)
    ensures Fits(limits, slot, tries, from, to)
  {
    var (slot', seen) := Attempt(limits, slot, tries[0].at, tries[0].passwordOk);
    RoomStep(limits, slot, tries[0], from, to);
    CountStep(limits, slot, tries, Failed, from, to);
    CountStep(limits, slot, tries, Succeeded, from, to);
    Refill(limits.maxAttempts, Room(limits, slot, to), Room(limits, slot', to),
           Count(limits, slot', tries[1..], Failed, from, to), Count(limits, slot', tries[1..], Succeeded, from, to),
           seen);
  }

  lemma {:induction false} FailuresFitTheRoom(limits: Limits, slot: Slot, tries: seq<Try>, from: Millis, to: Millis)
    requires limits.Valid() && Written(slot) && to <= from + limits.Lockout() + 1
    requires Chronological(tries) && (tries != [] ==> tries[0].at >= from)
    ensures Fits(limits, slot, tries, from, to)
    decreases |tries|
  {
    if tries == [] {
    } else if tries[0].at >= to {
      NothingAfter(limits, slot, tries, Failed, from, to);
    } else {
      WrittenStep(limits, slot, tries[0]);
      FailuresFitTheRoom(limits, Attempt(limits, slot, tries[0].at, tries[0].passwordOk).0, tries[1..], from, to);
      FitsStep(limits, slot, tries, from, to);
    }
  }

  lemma {:induction false} WindowBoundFrom(limits: Limits, slot: Slot, tries: seq<Try>, from: Millis, to: Millis)
    requires limits.Valid() && Written(slot) && to <= from + limits.Lockout() + 1 && Chronological(tries)
    ensures Count(limits, slot, tries, Failed, from, to) <=
        MaxFailures(limits) + limits.maxAttempts * Count(limits, slot, tries, Succeeded, from, to)
    decreases |tries|
  {
    if tries == [] {
    } else {
      var t := tries[0];
      if t.at >= from {
        FailuresFitTheRoom(limits, slot, tries, from, to);
      } else {
        WrittenStep(limits, slot, t);
        WindowBoundFrom(limits, Attempt(limits, slot, t.at, t.passwordOk).0, tries[1..], from, to);
      }
    }
  }

  /**
   * In any run of attempts on one identity, a half-open interval no longer than the lockout holds at
   * most MaxFailures failed password checks, plus one full budget for each success inside it. The
   * interval may even be a millisecond longer, because a counter lives through its deadline.
   */
  lemma FailedChecksPerWindow(limits: Limits, tries: seq<Try>, from: Millis, to: Millis)
    requires limits.Valid() && Chronological(tries) && to <= from + limits.Lockout() + 1
    ensures Count(limits, None, tries, Failed, from, to) <=
        MaxFailures(limits) + limits.maxAttempts * Count(limits, None, tries, Succeeded, from, to)
  {
    WindowBoundFrom(limits, None, tries, from, to);
  }

  // ----- the bound is attained -----

  function Wrong(n: nat, at: Millis): seq<Try> {
    seq(n, i => Try(at, false))
  }

  function AfterWrong(limits: Limits, slot: Slot, n: nat, at: Millis): Slot
    decreases n
  {
    if n == 0 then slot else AfterWrong(limits, Attempt(limits, slot, at, false).0, n - 1, at)
  }

  /** n wrong tries at one time, with room for them below the threshold, all reach the password check. */
  lemma {:induction false} AllChecked(limits: Limits, slot: Slot, n: nat, at: Millis, rest: seq<Try>,
                                      from: Millis, to: Millis)
    requires CountOf(slot, at) + n <= limits.maxAttempts
    ensures Count(limits, slot, Wrong(n, at) + rest, Failed, from, to) ==
        (if from <= at < to then n else 0) + Count(limits, AfterWrong(limits, slot, n, at), rest, Failed, from, to)
    decreases n
  {
    var tries := Wrong(n, at) + rest;
    if n == 0 {
      assert tries == rest;
    } else {
      assert tries[0] == Try(at, false) && tries[1..] == Wrong(n - 1, at) + rest;
      AllChecked(limits, Attempt(limits, slot, at, false).0, n - 1, at, rest, from, to);
    }
  }

  /** Below the threshold the tries leave the running window's deadline where it is. */
  lemma {:induction false} DeadlineKept(limits: Limits, entry: Entry, n: nat, at: Millis)
    requires entry.deadline.Some? && at <= entry.deadline.value && entry.value + n < limits.maxAttempts
    ensures AfterWrong(limits, Some(entry), n, at) == Some(Entry(entry.value + n, entry.deadline))
    decreases n
  {
    if n == 0 {
    } else {
      DeadlineKept(limits, Entry(entry.value + 1, entry.deadline), n - 1, at);
    }
  }

  /** One failure before the interval, M - 2 as it begins, and a full budget in its last millisecond. */
  function Burst(limits: Limits): seq<Try>
    requires limits.maxAttempts >= 2
  {
    Wrong(1, 0) + (Wrong(limits.maxAttempts - 2, 2) + (Wrong(limits.maxAttempts, limits.Lockout() + 1) + []))
  }

  /** A chronological run of wrong passwords with as many of them checked in one window as the bound allows. */
  predicate Attains(limits: Limits, tries: seq<Try>, from: Millis)
    requires limits.maxAttempts > 0
  {
    && Chronological(tries)
    && (forall t :: t in tries ==> !t.passwordOk)
    && Count(limits, None, tries, Failed, from, from + limits.Lockout()) == MaxFailures(limits)
  }

  /** Whatever the limits, some chronological run with no success attains the bound. */
  lemma BoundIsAttained(limits: Limits)
    requires limits.Valid()
    ensures exists tries, from :: Attains(limits, tries, from)
  {
    if limits.maxAttempts == 1 {
      var tries := Wrong(1, 0) + [];
      AllChecked(limits, None, 1, 0, [], 0, limits.Lockout());
      assert Attains(limits, tries, 0);
    } else {
      BurstCounts(limits);
      assert Attains(limits, Burst(limits), 2);
    }
  }

  lemma BurstCounts(limits: Limits)
    requires limits.Valid() && limits.maxAttempts >= 2
    ensures Count(limits, None, Burst(limits), Failed, 2, 2 + limits.Lockout()) == 2 * limits.maxAttempts - 2
  {
    var m, l := limits.maxAttempts, limits.Lockout();
    var first := Some(Entry(1, Some(l)));
    assert AfterWrong(limits, None, 1, 0) == first;
    AllChecked(limits, None, 1, 0, Wrong(m - 2, 2) + (Wrong(m, l + 1) + []), 2, 2 + l);
    AllChecked(limits, first, m - 2, 2, Wrong(m, l + 1) + [], 2, 2 + l);
    DeadlineKept(limits, Entry(1, Some(l)), m - 2, 2);
    AllChecked(limits, Some(Entry(m - 1, Some(l))), m, l + 1, [], 2, 2 + l);
  }
}
