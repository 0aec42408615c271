/**
 * The "already notified" store: transaction id -> the time it was added.
 * `time.time()` becomes an explicit `now` argument (whole seconds).
 */
module Cache {

  /** Ids whose age at `now` is strictly greater than `ttl`. */
  function Stale(m: map<string, int>, now: int, ttl: int): set<string> {
    set k | k in m && now - m[k] > ttl
  }

  /** The entries a cleanup at `now` keeps: exactly those of age at most `ttl`, timestamps untouched. */
  function Sweep(m: map<string, int>, now: int, ttl: int): (r: map<string, int>)
    ensures forall k :: k in r <==> k in m && now - m[k] <= ttl
    ensures forall k | k in r :: r[k] == m[k]
  {
    m - Stale(m, now, ttl)
  }

  /** A second cleanup at the same time removes nothing more. */
  lemma SweepIdempotent(m: map<string, int>, now: int, ttl: int)
    ensures Sweep(Sweep(m, now, ttl), now, ttl) == Sweep(m, now, ttl)
  {
  }

  /** After a cleanup at `now`, every entry is at most `ttl` old. */
  lemma SweepLeavesFresh(m: map<string, int>, now: int, ttl: int)
    ensures forall k | k in Sweep(m, now, ttl) :: now - Sweep(m, now, ttl)[k] <= ttl
  {
  }

  /**
   * An id added at time `t` survives a cleanup up to `t + ttl` (the age test is
   * strict) and is gone after a cleanup at `t + ttl + 1`.
   */
  lemma ExpiryWindow(m: map<string, int>, k: string, ttl: int)
    requires k in m
    ensures k in Sweep(m, m[k] + ttl - 1, ttl)
    ensures k in Sweep(m, m[k] + ttl, ttl)
    ensures k !in Sweep(m, m[k] + ttl + 1, ttl)
  {
  }

  class SeenCache {
    /** `SEEN_CACHE_SECONDS`. */
    const ttl: int
    var entries: map<string, int>

    constructor (ttl: int)
      ensures this.ttl == ttl && entries == map[]
    {
      this.ttl := ttl;
      entries := map[];
    }

    /** Record `tx` as notified at `now`, overwriting an earlier entry; no other id changes. */
    method Add(tx: string, now: int)
      modifies this
      ensures entries == old(entries)[tx := now]
      ensures tx in entries && entries[tx] == now
    {
      entries := entries[tx := now];
    }

    /** Membership, whatever the entry's age. */
    method Seen(tx: string) returns (b: bool)
      ensures b <==> tx in entries
    {
      b := tx in entries;
    }

    /** The `to_del` comprehension: every id whose age at `now` exceeds `ttl`. */
    method StaleIds(now: int) returns (stale: set<string>)
      ensures stale == Stale(entries, now, ttl)
    {
      stale := {};
      var todo := entries.Keys;
      while todo != {}
        invariant todo <= entries.Keys
        invariant forall k :: k in stale <==> k in entries && k !in todo && now - entries[k] > ttl
        decreases todo
      {
        var k :| k in todo;
        if now - entries[k] > ttl {
          stale := stale + {k};
        }
        todo := todo - {k};
      }
    }

    /** Delete every entry older than `ttl` at `now`; the rest keep their timestamps. */
    method Cleanup(now: int)
      modifies this
      ensures entries == Sweep(old(entries), now, ttl)
      ensures forall k | k in entries :: now - entries[k] <= ttl
    {
      var toDel := StaleIds(now);
      ghost var before := entries;
      var rest := toDel;
      while rest != {}
        invariant rest <= toDel
        invariant entries == before - (toDel - rest)
        decreases rest
      {
        var k :| k in rest;
        entries := entries - {k};
        rest := rest - {k};
      }
    }
  }
}
