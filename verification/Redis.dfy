/**
 * The key-value store every protocol rests on. Time is a millisecond clock that
 * the caller reads; a key written at `t` with a lifetime of `n` seconds is there
 * at every instant in [t, t + 1000 n) and gone from then on.
 */
module Redis {
  import opened Common

  const MILLIS := 1000

  datatype Entry<+V> = Entry(value: V, expiresAt: Option<nat>)
  {
    predicate Live(now: nat) {
      expiresAt.Some? ==> now < expiresAt.value
    }
  }

  type Store<V> = map<string, Entry<V>>

  function Lookup<V>(store: Store<V>, now: nat, key: string): Option<V>
  {
    if key in store && store[key].Live(now) then Some(store[key].value) else None
  }

  /** SET, with EX when the lifetime is not zero. */
  function Put<V>(store: Store<V>, now: nat, key: string, value: V, ttlSeconds: nat): Store<V>
  {
    store[key := Entry(value, if ttlSeconds == 0 then None else Some(now + ttlSeconds * MILLIS))]
  }

  /** INCR counts a missing or expired key as zero and keeps the lifetime of a live one. */
  function Incremented(store: Store<nat>, now: nat, key: string): Store<nat>
  {
    match Lookup(store, now, key)
    case Some(n) => store[key := store[key].(value := n + 1)]
    case None => store[key := Entry(1, None)]
  }

  /** EXPIRE changes the lifetime of a live key only; a lifetime of zero removes it. */
  function Expiring<V>(store: Store<V>, now: nat, key: string, seconds: nat): Store<V>
  {
    if Lookup(store, now, key).None? then store
    else if seconds == 0 then store - {key}
    else store[key := store[key].(expiresAt := Some(now + seconds * MILLIS))]
  }

  class RedisService<V> {
    var keys: Store<V>

    constructor ()
      ensures keys == map[]
    {
      keys := map[];
    }

    method Get(now: nat, key: string) returns (value: Option<V>)
      ensures value == Lookup(keys, now, key)
    {
      value := None;
      if key in keys && keys[key].Live(now) {
        value := Some(keys[key].value);
      }
    }

    method Set(now: nat, key: string, value: V, ttlSeconds: nat)
      modifies this
      ensures keys == Put(old(keys), now, key, value, ttlSeconds)
    {
      if ttlSeconds != 0 {
        keys := keys[key := Entry(value, Some(now + ttlSeconds * MILLIS))];
      } else {
        keys := keys[key := Entry(value, None)];
      }
    }

    method Del(key: string)
      modifies this
      ensures keys == old(keys) - {key}
    {
      keys := keys - {key};
    }

    method Expire(now: nat, key: string, seconds: nat)
      modifies this
      ensures keys == Expiring(old(keys), now, key, seconds)
    {
      var current := Get(now, key);
      if current.Some? {
        if seconds == 0 {
          Del(key);
        } else {
          keys := keys[key := keys[key].(expiresAt := Some(now + seconds * MILLIS))];
        }
      }
    }
  }

  /** INCR on a store of counters; the new count is returned. */
  method Incr(redis: RedisService<nat>, now: nat, key: string) returns (count: nat)
    modifies redis
    ensures redis.keys == Incremented(old(redis.keys), now, key)
    ensures Lookup(redis.keys, now, key) == Some(count)
  {
    var current := redis.Get(now, key);
    match current {
      case Some(n) =>
        count := n + 1;
        redis.keys := redis.keys[key := redis.keys[key].(value := count)];
      case None =>
        count := 1;
        redis.keys := redis.keys[key := Entry(1, None)];
    }
  }

  /** Two keys with the same prefix are the same key only for the same suffix. */
  lemma PrefixedKeys(prefix: string, a: string, b: string)
    ensures prefix + a == prefix + b ==> a == b
  {
    if prefix + a == prefix + b {
      assert a == (prefix + a)[|prefix|..];
      assert b == (prefix + b)[|prefix|..];
    }
  }

  // ---- What the commands mean for later reads ----

  /** A value that was set is read in [at, at + lifetime) and not after, without a lifetime always; other keys stay. */
  lemma {:induction false} SetLivesForItsLifetime<V>(store: Store<V>, at: nat, key: string, value: V, ttlSeconds: nat,
                                                     now: nat, other: string)
    requires at <= now
    ensures Lookup(Put(store, at, key, value, ttlSeconds), now, key) == Some(value)
            <==> ttlSeconds == 0 || now < at + ttlSeconds * MILLIS
    ensures Lookup(Put(store, at, key, value, ttlSeconds), now, key) in {None, Some(value)}
    ensures other != key ==> Lookup(Put(store, at, key, value, ttlSeconds), now, other) == Lookup(store, now, other)
  {
  }

  /** EXPIRE gives what was live a new lifetime from now on, and revives nothing. */
  lemma {:induction false} ExpireRenewsLiveKeys<V>(store: Store<V>, at: nat, key: string, seconds: nat, now: nat)
    requires at <= now
    ensures Lookup(Expiring(store, at, key, seconds), now, key)
            == if now < at + seconds * MILLIS then Lookup(store, at, key) else None
  {
  }

  /** INCR goes on from the live count, within its lifetime, and starts at one, without a lifetime, otherwise. */
  lemma {:induction false} IncrementKeepsLifetime(store: Store<nat>, at: nat, key: string, now: nat)
    requires at <= now
    ensures Lookup(Incremented(store, at, key), now, key) ==
            match Lookup(store, at, key)
            case None => Some(1)
            case Some(n) => if Lookup(store, now, key).Some? then Some(n + 1) else None
  {
  }
}
