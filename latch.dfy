/**
 * The per-process lock that serialises updates of one message when no Redis
 * store is configured (api/discord.js:52-87): a map from lock key to expiry
 * time in milliseconds.  The clock is a parameter.
 */
module Latch {
  import opened Wrappers
  import opened RosterModel
  import opened Component
  import opened LiveRoster
  import opened Variants

  /** `expireAt && expireAt > now`: a stored 0 counts as absent, as it is falsy. */
  predicate HeldIn(m: map<string, nat>, k: string, now: nat) {
    k in m && m[k] != 0 && m[k] > now
  }

  /** `tryLocalLatch` on a map value: None when refused, else the map with the new expiry. */
  function Acquire(m: map<string, nat>, k: string, ttlMs: nat, now: nat): Option<map<string, nat>>
  {
    if HeldIn(m, k, now) then None else Some(m[k := now + ttlMs])
  }

  /**
   * Exclusion: once the latch is taken at `now`, every attempt before its
   * expiry is refused, and the first attempt at or after the expiry succeeds.
   */
  lemma AcquireExcludes(m: map<string, nat>, k: string, ttlMs: nat, now: nat, later: nat)
    requires Acquire(m, k, ttlMs, now).Some?
    ensures now <= later < now + ttlMs ==> Acquire(Acquire(m, k, ttlMs, now).value, k, ttlMs, later).None?
    ensures later >= now + ttlMs ==> Acquire(Acquire(m, k, ttlMs, now).value, k, ttlMs, later).Some?
  {
  }

  /** A released key can be taken again straight away. */
  lemma ReleaseFrees(m: map<string, nat>, k: string, ttlMs: nat, now: nat)
    ensures Acquire(m - {k}, k, ttlMs, now) == Some(m[k := now + ttlMs])
  {
    assert (m - {k})[k := now + ttlMs] == m[k := now + ttlMs];
  }

  /**
   * The latch lapses after its time to live even while the press that took
   * it is still running.  A second press then takes the key, and when the
   * first press releases it on its way out, the key is free again although
   * the second press still holds it: a third press gets in straight away.
   */
  lemma LateReleaseFreesNextHolder(m: map<string, nat>, k: string, ttlMs: nat, t0: nat, t1: nat, t2: nat)
    requires Acquire(m, k, ttlMs, t0).Some?
    requires t0 + ttlMs <= t1 <= t2 < t1 + ttlMs
    ensures var first := Acquire(m, k, ttlMs, t0).value;
            && Acquire(first, k, ttlMs, t1).Some?
            && HeldIn(Acquire(first, k, ttlMs, t1).value, k, t2)
            && Acquire(Acquire(first, k, ttlMs, t1).value - {k}, k, ttlMs, t2).Some?
  {
  }

  /** What `withLock` did. */
  datatype LockResult = Busy | Ran | Threw

  /** The module-level `localLatch` map. */
  class LocalLatch {
    var expireAt: map<string, nat>

    constructor ()
      ensures expireAt == map[]
    {
      expireAt := map[];
    }

    predicate Held(k: string, now: nat)
      reads this
    {
      HeldIn(expireAt, k, now)
    }

    /** `tryLocalLatch(k, ttlMs)` at time `now`. */
    method TryAcquire(k: string, ttlMs: nat, now: nat) returns (ok: bool)
      modifies this
      ensures ok <==> Acquire(old(expireAt), k, ttlMs, now).Some?
      ensures expireAt == if ok then Acquire(old(expireAt), k, ttlMs, now).value else old(expireAt)
      ensures ok ==> forall t :: now <= t < now + ttlMs ==> Held(k, t)
    {
      var e := if k in expireAt then expireAt[k] else 0;
      if e != 0 && e > now {
        return false;
      }
      expireAt := expireAt[k := now + ttlMs];
      return true;
    }

    /** `releaseLocalLatch(k)`. */
    method Release(k: string)
      modifies this
      ensures expireAt == old(expireAt) - {k}
      ensures forall t :: !Held(k, t)
    {
      expireAt := expireAt - {k};
    }

    /** The `setTimeout` callback: it removes the entry only once it has expired, so it never frees a held latch. */
    method Sweep(k: string, now: nat)
      modifies this
      ensures expireAt == if k in old(expireAt) && old(expireAt)[k] <= now then old(expireAt) - {k} else old(expireAt)
      ensures forall j :: Held(j, now) <==> old(Held(j, now))
    {
      if k in expireAt && expireAt[k] <= now {
        expireAt := expireAt - {k};
      }
    }
  }

  /** The lock key `withLock` uses for a key. */
  function LockKey(key: string): string
  {
    "lock:" + key
  }

  /**
   * `withLock(key, ttlSec, fn)` with the local latch, where `fn` is the
   * mutation block: it runs only after the latch is taken, and the latch is
   * released on every exit, whether the block finished or threw.
   */
  method WithLock(v: Variant, latch: LocalLatch, key: string, ttlSec: nat, now: nat,
                  r: Roster, customId: string, values: seq<string>, c: Caller)
    returns (res: LockResult, notices: seq<Notice>)
    requires WellFormed(r.Value())
    modifies latch, r
    ensures res == Busy <==> old(latch.Held(LockKey(key), now))
    ensures res == Busy ==> latch.expireAt == old(latch.expireAt) && r.Value() == old(r.Value())
    ensures res != Busy ==> latch.expireAt == old(latch.expireAt) - {LockKey(key)}
    ensures res == Threw ==> ApplyComponent(v, old(r.Value()), customId, values, c).Fault?
    ensures res == Ran ==> ApplyComponent(v, old(r.Value()), customId, values, c) == Outcome(r.Value(), notices)
  {
    var rkey := LockKey(key);
    var locked := latch.TryAcquire(rkey, ttlSec * 1000, now);
    if !locked {
      return Busy, [];
    }
    var fault;
    notices, fault := r.Apply(v, customId, values, c);
    latch.Release(rkey);
    assert old(latch.expireAt)[rkey := now + ttlSec * 1000] - {rkey} == old(latch.expireAt) - {rkey};
    res := if fault then Threw else Ran;
  }
}
