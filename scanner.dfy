/**
 * The rule both per-block scans apply to each transaction of the tip block,
 * stated once over decoded candidates: skip an entry without an id or whose
 * id is already cached; skip it when its amount could not be decoded; otherwise
 * alert and cache it exactly when amount * price >= threshold.
 */
module Scanner {
  import opened Wrappers

  /** Where an alert's transaction was found. */
  datatype BlockInfo = EthBlockInfo(number: int, timestamp: int) | BtcBlockInfo(height: int)

  /** The record handed to the alert sink in place of the formatted message. */
  datatype Alert = Alert(info: BlockInfo, id: string, amount: real, usd: real)

  /**
   * One transaction of the block as the scan sees it: its id (`None` when the
   * entry has none) and its native amount (`None` when decoding or fetching it
   * raised).
   */
  datatype Candidate = Candidate(id: Option<string>, amount: Option<real>)

  /** What one scan works with: the block, the asset's price, the threshold and the clock. */
  datatype ScanEnv = ScanEnv(info: BlockInfo, price: real, threshold: real, now: int)

  /** The cache and the alerts emitted so far. */
  datatype ScanState = ScanState(cache: map<string, int>, alerts: seq<Alert>)

  /** The inclusive threshold test `usd >= THRESHOLD_USD` on a decoded amount. */
  predicate Qualifies(c: Candidate, env: ScanEnv) {
    c.amount.Some? && c.amount.value * env.price >= env.threshold
  }

  /** One iteration of the scan loop. */
  function Step(st: ScanState, c: Candidate, env: ScanEnv): ScanState {
    if c.id.Some? && c.id.value !in st.cache && Qualifies(c, env) then
      var a := c.amount.value;
      ScanState(st.cache[c.id.value := env.now], st.alerts + [Alert(env.info, c.id.value, a, a * env.price)])
    else
      st
  }

  /** An iteration that alerts: `id` is cached at `now` and its alert, worth `usd`, appended. */
  lemma StepTakes(st: ScanState, c: Candidate, env: ScanEnv, id: string, amount: real, usd: real)
    requires c == Candidate(Some(id), Some(amount)) && usd == amount * env.price
    requires id !in st.cache && usd >= env.threshold
    ensures Step(st, c, env) == ScanState(st.cache[id := env.now], st.alerts + [Alert(env.info, id, amount, usd)])
  {
    var a := c.amount.value;
    assert a == amount;
    assert a * env.price == usd;
    assert Qualifies(c, env);
  }

  /** An iteration that skips leaves cache and alerts as they were. */
  lemma StepSkips(st: ScanState, c: Candidate, env: ScanEnv)
    requires c.id.None? || c.id.value in st.cache || !Qualifies(c, env)
    ensures Step(st, c, env) == st
  {
  }

  /** The loop over `cs` from state `st`, in order. */
  function ScanFrom(st: ScanState, cs: seq<Candidate>, env: ScanEnv): ScanState
    decreases |cs|
  {
    if cs == [] then st else Step(ScanFrom(st, cs[..|cs| - 1], env), cs[|cs| - 1], env)
  }

  /** One more loop iteration: the scan of the first `i + 1` candidates. */
  lemma ScanFromSnoc(st: ScanState, cs: seq<Candidate>, i: nat, env: ScanEnv)
    requires i < |cs|
    ensures ScanFrom(st, cs[..i + 1], env) == Step(ScanFrom(st, cs[..i], env), cs[i], env)
  {
    assert cs[..i + 1][..i] == cs[..i];
  }

  /** A whole scan of `cs` against cache `m`. */
  function Scan(m: map<string, int>, cs: seq<Candidate>, env: ScanEnv): ScanState {
    ScanFrom(ScanState(m, []), cs, env)
  }

  function AlertIds(alerts: seq<Alert>): set<string> {
    set a | a in alerts :: a.id
  }

  /** Ids of candidates that qualify and were not cached before the scan. */
  function QualifyingIds(m: map<string, int>, cs: seq<Candidate>, env: ScanEnv): set<string> {
    set i | 0 <= i < |cs| && cs[i].id.Some? && cs[i].id.value !in m && Qualifies(cs[i], env) :: cs[i].id.value
  }

  /** No id appears in two alerts. */
  predicate DistinctIds(alerts: seq<Alert>) {
    forall i, j | 0 <= i < j < |alerts| :: alerts[i].id != alerts[j].id
  }

  lemma AlertIdsSnoc(alerts: seq<Alert>, a: Alert)
    ensures AlertIds(alerts + [a]) == AlertIds(alerts) + {a.id}
  {
    assert a in alerts + [a];
    forall x | x in AlertIds(alerts + [a]) ensures x in AlertIds(alerts) + {a.id} {
      var b :| b in alerts + [a] && b.id == x;
    }
    forall x | x in AlertIds(alerts) ensures x in AlertIds(alerts + [a]) {
      var b :| b in alerts && b.id == x;
      assert b in alerts + [a];
    }
  }

  /** Joining two alert lists with no id in common keeps ids distinct. */
  lemma AlertsAppend(a: seq<Alert>, b: seq<Alert>)
    requires DistinctIds(a) && DistinctIds(b) && AlertIds(a) !! AlertIds(b)
    ensures AlertIds(a + b) == AlertIds(a) + AlertIds(b)
    ensures DistinctIds(a + b)
  {
    var r := a + b;
    forall x | x in AlertIds(r) ensures x in AlertIds(a) + AlertIds(b) {
      var y :| y in r && y.id == x;
      assert y in a || y in b;
    }
    forall x | x in AlertIds(a) + AlertIds(b) ensures x in AlertIds(r) {
      if x in AlertIds(a) {
        var y :| y in a && y.id == x;
        assert y in r;
      } else {
        var y :| y in b && y.id == x;
        assert y in r;
      }
    }
    forall i, j | 0 <= i < j < |r| ensures r[i].id != r[j].id {
      if j < |a| {
        assert r[i] == a[i] && r[j] == a[j];
      } else if i >= |a| {
        assert r[i] == b[i - |a|] && r[j] == b[j - |a|];
      } else {
        assert r[i] == a[i] && r[j] == b[j - |a|];
        assert r[i].id in AlertIds(a) && r[j].id in AlertIds(b);
      }
    }
  }

  /**
   * What a scan from cache `m` at `now` keeps true of its state `r`: the cache
   * gains exactly the alerted ids, none of which was cached before, old entries
   * keep their timestamps, alerted ids are stamped `now`, no id is alerted
   * twice, and each alert is worth its amount at `price` and reached `threshold`.
   */
  predicate CacheTracksAlerts(m: map<string, int>, r: ScanState, price: real, threshold: real, now: int) {
    && r.cache.Keys == m.Keys + AlertIds(r.alerts)
    && AlertIds(r.alerts) !! m.Keys
    && (forall k | k in m :: r.cache[k] == m[k])
    && (forall k | k in AlertIds(r.alerts) :: r.cache[k] == now)
    && DistinctIds(r.alerts)
    && (forall a | a in r.alerts :: a.usd == a.amount * price && a.usd >= threshold)
  }

  /** The scan invariant: the above, and every alert names the scanned block. */
  predicate ScanInvariant(m: map<string, int>, r: ScanState, env: ScanEnv) {
    && CacheTracksAlerts(m, r, env.price, env.threshold, env.now)
    && (forall a | a in r.alerts :: a.info == env.info)
  }

  /** One iteration preserves the scan invariant. */
  lemma StepKeepsInvariant(m: map<string, int>, r0: ScanState, c: Candidate, env: ScanEnv)
    requires ScanInvariant(m, r0, env)
    ensures ScanInvariant(m, Step(r0, c, env), env)
  {
    if c.id.Some? && c.id.value !in r0.cache && Qualifies(c, env) {
      var r := Step(r0, c, env);
      var a := r.alerts[|r.alerts| - 1];
      assert r.alerts == r0.alerts + [a];
      AlertIdsSnoc(r0.alerts, a);
      forall i, j | 0 <= i < j < |r.alerts| ensures r.alerts[i].id != r.alerts[j].id {
        if j == |r0.alerts| {
          assert r.alerts[i] in r0.alerts;
        } else {
          assert r.alerts[i] == r0.alerts[i] && r.alerts[j] == r0.alerts[j];
        }
      }
    }
  }

  /** Every scan keeps the scan invariant, starting from no alerts. */
  lemma {:induction false} ScanSound(m: map<string, int>, cs: seq<Candidate>, env: ScanEnv)
    ensures ScanInvariant(m, Scan(m, cs, env), env)
    decreases |cs|
  {
    if cs == [] {
      assert AlertIds([]) == {};
    } else {
      ScanSound(m, cs[..|cs| - 1], env);
      StepKeepsInvariant(m, Scan(m, cs[..|cs| - 1], env), cs[|cs| - 1], env);
    }
  }

  /**
   * The alerted ids are exactly the ids of the candidates that qualify and were
   * not in the cache when the scan started.
   */
  lemma {:induction false} ScanAlertsExactly(m: map<string, int>, cs: seq<Candidate>, env: ScanEnv)
    ensures AlertIds(Scan(m, cs, env).alerts) == QualifyingIds(m, cs, env)
    decreases |cs|
  {
    if cs != [] {
      var p := cs[..|cs| - 1];
      var c := cs[|cs| - 1];
      ScanAlertsExactly(m, p, env);
      ScanSound(m, p, env);
      var r0 := Scan(m, p, env);
      var isNew := c.id.Some? && c.id.value !in m && Qualifies(c, env);
      assert QualifyingIds(m, cs, env) == QualifyingIds(m, p, env) + (if isNew then {c.id.value} else {}) by {
        forall x | x in QualifyingIds(m, cs, env)
          ensures x in QualifyingIds(m, p, env) + (if isNew then {c.id.value} else {})
        {
          var i :| 0 <= i < |cs| && cs[i].id.Some? && cs[i].id.value !in m && Qualifies(cs[i], env) && cs[i].id.value == x;
          if i < |p| { assert cs[i] == p[i]; }
        }
        forall x | x in QualifyingIds(m, p, env) ensures x in QualifyingIds(m, cs, env) {
          var i :| 0 <= i < |p| && p[i].id.Some? && p[i].id.value !in m && Qualifies(p[i], env) && p[i].id.value == x;
          assert cs[i] == p[i];
        }
        if isNew {
          assert cs[|cs| - 1] == c;
        }
      }
      if c.id.Some? && c.id.value !in r0.cache && Qualifies(c, env) {
        AlertIdsSnoc(r0.alerts, Alert(env.info, c.id.value, c.amount.value, c.amount.value * env.price));
      }
    }
  }

  /** Scanning a concatenation is scanning the first part, then the second from where it left off. */
  lemma {:induction false} ScanFromAppend(st: ScanState, a: seq<Candidate>, b: seq<Candidate>, env: ScanEnv)
    ensures ScanFrom(st, a + b, env) == ScanFrom(ScanFrom(st, a, env), b, env)
    decreases |b|
  {
    if b == [] {
      assert a + b == a;
    } else {
      var b' := b[..|b| - 1];
      assert (a + b)[..|a + b| - 1] == a + b';
      assert (a + b)[|a + b| - 1] == b[|b| - 1];
      ScanFromAppend(st, a, b', env);
    }
  }

  /**
   * Fault isolation: an entry that has no id or fails to decode changes nothing,
   * so the scan of the rest of the block is the same as if it were absent.
   */
  lemma SkippedEntryIsInert(st: ScanState, a: seq<Candidate>, c: Candidate, b: seq<Candidate>, env: ScanEnv)
    requires c.id.None? || c.amount.None?
    ensures ScanFrom(st, a + [c] + b, env) == ScanFrom(st, a + b, env)
  {
    ScanFromAppend(st, a + [c], b, env);
    ScanFromAppend(st, a, [c], env);
    ScanFromAppend(st, a, b, env);
    assert [c][..0] == [];
  }

  /** A cached id is never alerted, whatever its age. */
  lemma CachedNeverAlerted(m: map<string, int>, cs: seq<Candidate>, env: ScanEnv, k: string)
    requires k in m
    ensures k !in AlertIds(Scan(m, cs, env).alerts)
  {
    ScanSound(m, cs, env);
  }

  /** With price 0 and a positive threshold nothing qualifies: no alert, cache unchanged. */
  lemma {:induction false} ZeroPriceInert(m: map<string, int>, cs: seq<Candidate>, env: ScanEnv)
    requires env.price == 0.0 && env.threshold > 0.0
    ensures Scan(m, cs, env) == ScanState(m, [])
    decreases |cs|
  {
    if cs != [] {
      ZeroPriceInert(m, cs[..|cs| - 1], env);
    }
  }

  /** A block of one candidate is one step. */
  lemma ScanOne(m: map<string, int>, c: Candidate, env: ScanEnv)
    ensures Scan(m, [c], env) == Step(ScanState(m, []), c, env)
  {
    assert [c][..0] == [];
    assert ScanFrom(ScanState(m, []), [c][..0], env) == ScanState(m, []);
  }

  /**
   * The threshold is inclusive: a fresh candidate alerts exactly when
   * amount * price >= threshold, so a value equal to the threshold alerts.
   */
  lemma ThresholdInclusive(m: map<string, int>, c: Candidate, env: ScanEnv)
    requires c.id.Some? && c.id.value !in m && c.amount.Some?
    ensures |Scan(m, [c], env).alerts| == 1 <==> c.amount.value * env.price >= env.threshold
    ensures c.amount.value * env.price == env.threshold ==> Scan(m, [c], env).alerts == [Alert(env.info, c.id.value, c.amount.value, env.threshold)]
  {
    var st := ScanState(m, []);
    ScanOne(m, c, env);
    var a := Alert(env.info, c.id.value, c.amount.value, c.amount.value * env.price);
    assert [] + [a] == [a];
  }
}
