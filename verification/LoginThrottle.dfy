/** The lockout: how many failed logins one identity may make, and what a login attempt does to its counter. */
module LoginThrottle {
  import opened Wrappers
  import opened Tokens
  import opened RedisCounters

  /** LOGIN_MAX_ATTEMPTS and LOGIN_LOCKOUT_SECONDS, both positive by the environment schema. */
  datatype Limits = Limits(maxAttempts: nat, lockoutSeconds: nat) {
    ghost predicate Valid() {
      maxAttempts > 0 && lockoutSeconds > 0
    }

    function Lockout(): Millis {
      lockoutSeconds * 1000
    }
  }

  datatype Outcome = Locked | Failed | Succeeded

  predicate IsLocked(limits: Limits, slot: Slot, now: Millis) {
    CountOf(slot, now) >= limits.maxAttempts
  }

  /** recordFailure: count the failure and, at the threshold, restart the time to live. */
  function AfterFailure(limits: Limits, slot: Slot, now: Millis): Slot {
    var counted := Incremented(slot, limits.lockoutSeconds, now);
    if CountOf(slot, now) + 1 < limits.maxAttempts then counted
    else TtlReset(counted, limits.lockoutSeconds, now)
  }

  /** What is left of the counter; a failure whose count Redis discarded is forgotten. */
  function Recorded(limits: Limits, slot: Slot, now: Millis, executed: bool): Slot {
    if executed then AfterFailure(limits, slot, now)
    else if 0 < limits.maxAttempts then slot
    else TtlReset(slot, limits.lockoutSeconds, now)
  }

  /** One login attempt taken whole: the counter it leaves, and how it went. */
  function Attempt(limits: Limits, slot: Slot, now: Millis, passwordOk: bool): (Slot, Outcome) {
    if IsLocked(limits, slot, now) then (slot, Locked)
    else if passwordOk then (None, Succeeded)
    else (AfterFailure(limits, slot, now), Failed)
  }

  /** The stored counter, if the key still exists. */
  predicate Live(slot: Slot, now: Millis) {
    slot.Some? && (slot.value.deadline.None? || now <= slot.value.deadline.value)
  }

  /** Locked: a counter that still exists has reached the limit. */
  lemma LockedIff(limits: Limits, slot: Slot, now: Millis)
    requires limits.Valid()
    ensures IsLocked(limits, slot, now) <==> Live(slot, now) && slot.value.value >= limits.maxAttempts
  {
  }

  /**
   * A recorded failure leaves one more than the counter that still existed. The first one, and every
   * one that reaches the limit, starts a whole lockout; in between the deadline stays.
   */
  lemma RecordedMeans(limits: Limits, slot: Slot, now: Millis, executed: bool)
    requires limits.Valid()
    ensures
      var failures := if Live(slot, now) then slot.value.value + 1 else 1;
      var kept := Live(slot, now) && slot.value.deadline.Some? && failures < limits.maxAttempts;
      Recorded(limits, slot, now, executed) ==
        if !executed then slot
        else Some(Entry(failures, if kept then slot.value.deadline else Some(now + limits.lockoutSeconds * 1000)))
  {
  }

  /** A whole attempt: no check while locked, a clean counter after a success, a recorded failure otherwise. */
  lemma AttemptMeans(limits: Limits, slot: Slot, now: Millis, passwordOk: bool)
    requires limits.Valid()
    ensures Attempt(limits, slot, now, passwordOk) ==
        if Live(slot, now) && slot.value.value >= limits.maxAttempts then (slot, Locked)
        else if passwordOk then (None, Succeeded)
        else (Recorded(limits, slot, now, true), Failed)
  {
  }

  datatype Identity = Identity(tenantId: string, email: string, ip: string)

  const KEY_PREFIX: string := "login-attempts"

  /** keyFor; lower stands for String.prototype.toLowerCase. */
  function KeyFor(lower: string -> string, identity: Identity): string {
    KEY_PREFIX + ":" + identity.tenantId + ":" + lower(identity.email) + ":" + identity.ip
  }

  class LoginAttemptsRepository {
    const redis: RedisService
    const lower: string -> string

    constructor (redis: RedisService, lower: string -> string)
      ensures this.redis == redis && this.lower == lower
    {
      this.redis, this.lower := redis, lower;
    }

    method Count(identity: Identity, now: Millis) returns (failures: nat)
      ensures failures == CountOf(At(redis.store, KeyFor(lower, identity)), now)
    {
      failures := redis.Count(KeyFor(lower, identity), now);
    }

    method Increment(identity: Identity, windowSeconds: nat, now: Millis, executed: bool) returns (failures: nat)
      modifies redis
      ensures executed ==>
        var key := KeyFor(lower, identity);
        && redis.store == With(old(redis.store), key, Incremented(At(old(redis.store), key), windowSeconds, now))
        && failures == CountOf(At(old(redis.store), key), now) + 1
      ensures !executed ==> redis.store == old(redis.store) && failures == 0
    {
      failures := redis.IncrementWithTtl(KeyFor(lower, identity), windowSeconds, now, executed);
    }

    method StartLockout(identity: Identity, lockoutSeconds: nat, now: Millis)
      modifies redis
      ensures
        var key := KeyFor(lower, identity);
        redis.store == With(old(redis.store), key, TtlReset(At(old(redis.store), key), lockoutSeconds, now))
    {
      redis.ResetTtl(KeyFor(lower, identity), lockoutSeconds, now);
    }

    method Clear(identity: Identity)
      modifies redis
      ensures redis.store == With(old(redis.store), KeyFor(lower, identity), None)
    {
      redis.Delete(KeyFor(lower, identity));
    }
  }

  class LoginThrottleService {
    const attempts: LoginAttemptsRepository
    const limits: Limits

    constructor (attempts: LoginAttemptsRepository, limits: Limits)
      ensures this.attempts == attempts && this.limits == limits
    {
      this.attempts, this.limits := attempts, limits;
    }

    function Key(identity: Identity): string {
      KeyFor(attempts.lower, identity)
    }

    method AssertNotLocked(identity: Identity, now: Millis) returns (locked: bool)
      ensures locked <==> IsLocked(limits, At(attempts.redis.store, Key(identity)), now)
    {
      var failures := attempts.Count(identity, now);
      return failures >= limits.maxAttempts;
    }

    method RecordFailure(identity: Identity, now: Millis, executed: bool)
      modifies attempts.redis
      ensures
        var slot := At(old(attempts.redis.store), Key(identity));
        attempts.redis.store == With(old(attempts.redis.store), Key(identity), Recorded(limits, slot, now, executed))
    {
      var failures := attempts.Increment(identity, limits.lockoutSeconds, now, executed);
      if failures < limits.maxAttempts {
        return;
      }
      attempts.StartLockout(identity, limits.lockoutSeconds, now);
    }

    method Reset(identity: Identity)
      modifies attempts.redis
      ensures attempts.redis.store == With(old(attempts.redis.store), Key(identity), None)
    {
      attempts.Clear(identity);
    }
  }
}
