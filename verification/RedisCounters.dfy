/** Redis counters with a time to live, key by key, and the service that updates them in place. */
module RedisCounters {
  import opened Wrappers
  import opened Tokens

  /** A stored integer; without a deadline it never expires. */
  datatype Entry = Entry(value: nat, deadline: Option<Millis>)

  /** What is stored under one key. */
  type Slot = Option<Entry>

  /** A key past its deadline no longer exists, whether or not it has been evicted; at the deadline it does. */
  predicate Exists(slot: Slot, now: Millis) {
    slot.Some? && (slot.value.deadline.None? || now <= slot.value.deadline.value)
  }

  /** GET, with a missing key counting as zero. */
  function CountOf(slot: Slot, now: Millis): nat {
    if Exists(slot, now) then slot.value.value else 0
  }

  /** MULTI; INCR; EXPIRE NX; EXEC: the deadline is set only if the key has none yet. */
  function Incremented(slot: Slot, ttlSeconds: nat, now: Millis): Slot {
    if !Exists(slot, now) then Some(Entry(1, Some(now + ttlSeconds * 1000)))
    else if slot.value.deadline.None? then Some(Entry(slot.value.value + 1, Some(now + ttlSeconds * 1000)))
    else Some(Entry(slot.value.value + 1, slot.value.deadline))
  }

  /** EXPIRE: no effect on a missing key. */
  function TtlReset(slot: Slot, ttlSeconds: nat, now: Millis): Slot {
    if Exists(slot, now) then Some(Entry(slot.value.value, Some(now + ttlSeconds * 1000))) else slot
  }

  type Store = map<string, Entry>

  function At(store: Store, key: string): Slot {
    if key in store then Some(store[key]) else None
  }

  function With(store: Store, key: string, slot: Slot): Store {
    if slot.Some? then store[key := slot.value] else store - {key}
  }

  class RedisService {
    var store: Store

    constructor ()
      ensures store == map[]
    {
      store := map[];
    }

    /** executed is false when EXEC discards the commands: it then answers no number, which counts as zero. */
    method IncrementWithTtl(key: string, ttlSeconds: nat, now: Millis, executed: bool) returns (count: nat)
      modifies this
      ensures executed ==>
        && store == With(old(store), key, Incremented(At(old(store), key), ttlSeconds, now))
        && count == CountOf(At(old(store), key), now) + 1
      ensures !executed ==> store == old(store) && count == 0
    {
      if !executed {
        return 0;
      }
      var entry := Entry(0, None);
      if key in store && Exists(Some(store[key]), now) {
        entry := store[key];
      }
      entry := entry.(value := entry.value + 1);
      if entry.deadline.None? {
        entry := entry.(deadline := Some(now + ttlSeconds * 1000));
      }
      store := store[key := entry];
      return entry.value;
    }

    method Count(key: string, now: Millis) returns (count: nat)
      ensures count == CountOf(At(store, key), now)
    {
      if key in store && Exists(Some(store[key]), now) {
        return store[key].value;
      }
      return 0;
    }

    method ResetTtl(key: string, ttlSeconds: nat, now: Millis)
      modifies this
      ensures store == With(old(store), key, TtlReset(At(old(store), key), ttlSeconds, now))
    {
      if key in store && Exists(Some(store[key]), now) {
        store := store[key := store[key].(deadline := Some(now + ttlSeconds * 1000))];
      }
    }

    method Delete(key: string)
      modifies this
      ensures store == With(old(store), key, None)
    {
      store := store - {key};
    }
  }
}
