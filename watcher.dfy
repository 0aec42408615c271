/**
 * One tick of `main_loop`: take a price snapshot (zero prices when the price
 * fetch fails), run the ETH scan and then the BTC scan against the shared
 * cache, then clean the cache once. Sleeping and the endless repetition are
 * not modelled; `TwoTicksNoRepeat` relates consecutive ticks.
 */
module Watcher {
  import opened Wrappers
  import opened Scanner
  import opened Cache
  import opened Amounts
  import opened Chains

  /** The CoinGecko response: each asset's `usd` price, `None` when the key is missing. */
  datatype PriceQuote = PriceQuote(bitcoin: Option<real>, ethereum: Option<real>)

  /** The `prices` tuple `(btc, eth)`. */
  datatype Prices = Prices(btc: real, eth: real)

  /** `get_prices`, with a missing price read as 0, and the fallback to `(0, 0)` when the fetch raised. */
  function Snapshot(quote: Option<PriceQuote>): (p: Prices)
    ensures quote.None? ==> p == Prices(0.0, 0.0)
    ensures quote.Some? ==> p.btc == quote.value.bitcoin.GetOr(0.0) && p.eth == quote.value.ethereum.GetOr(0.0)
  {
    match quote
    case None => Prices(0.0, 0.0)
    case Some(q) => Prices(q.bitcoin.GetOr(0.0), q.ethereum.GetOr(0.0))
  }

  /**
   * Everything a tick receives from outside: the price response, the ETH and
   * BTC responses, and the clock as read by the ETH scan, the BTC scan and the
   * cleanup.
   */
  datatype TickInput = TickInput(
    quote: Option<PriceQuote>,
    eth: Option<EthBlock>,
    btc: BtcFeed,
    ethNow: int,
    btcNow: int,
    sweepNow: int)

  /** The cache and alerts after one tick: ETH scan, then BTC scan, then cleanup. */
  function TickSpec(m: map<string, int>, ttl: int, threshold: real, t: TickInput): ScanState {
    var p := Snapshot(t.quote);
    var e := EthScan(m, t.eth, p.eth, threshold, t.ethNow);
    var b := BtcScan(e.cache, t.btc, p.btc, threshold, t.btcNow);
    ScanState(Sweep(b.cache, t.sweepNow, ttl), e.alerts + b.alerts)
  }

  /** One iteration of `main_loop`'s body. */
  method Tick(seen: SeenCache, threshold: real, t: TickInput) returns (alerts: seq<Alert>)
    modifies seen
    ensures ScanState(seen.entries, alerts) == TickSpec(old(seen.entries), seen.ttl, threshold, t)
  {
    var prices := Snapshot(t.quote);
    var ethAlerts := ProcessEthBlock(seen, t.eth, prices.eth, threshold, t.ethNow);
    var btcAlerts := ProcessBtcBlock(seen, t.btc, prices.btc, threshold, t.btcNow);
    seen.Cleanup(t.sweepNow);
    alerts := ethAlerts + btcAlerts;
  }

  /**
   * A tick never alerts an id that was cached when it started, never alerts an
   * id twice, and every alert reached the threshold.
   */
  lemma TickAlertsFresh(m: map<string, int>, ttl: int, threshold: real, t: TickInput)
    ensures var r := TickSpec(m, ttl, threshold, t);
      && AlertIds(r.alerts) !! m.Keys
      && DistinctIds(r.alerts)
      && (forall a | a in r.alerts :: a.usd >= threshold)
  {
    var p := Snapshot(t.quote);
    var e := EthScan(m, t.eth, p.eth, threshold, t.ethNow);
    var b := BtcScan(e.cache, t.btc, p.btc, threshold, t.btcNow);
    EthScanSound(m, t.eth, p.eth, threshold, t.ethNow);
    BtcScanSound(e.cache, t.btc, p.btc, threshold, t.btcNow);
    AlertsAppend(e.alerts, b.alerts);
  }

  /**
   * When the price fetch fails and the threshold is positive, the tick emits
   * no alert and only cleans the cache.
   */
  lemma PriceFailureInert(m: map<string, int>, ttl: int, threshold: real, t: TickInput)
    requires t.quote.None? && threshold > 0.0
    ensures TickSpec(m, ttl, threshold, t) == ScanState(Sweep(m, t.sweepNow, ttl), [])
  {
    var e := EthScan(m, t.eth, 0.0, threshold, t.ethNow);
    if t.eth.Some? {
      var b := t.eth.value;
      match (HexField(b.number), HexField(b.timestamp))
      case (Some(n), Some(ts)) =>
        ZeroPriceInert(m, EthCandidates(b.txs), ScanEnv(EthBlockInfo(n, ts), 0.0, threshold, t.ethNow));
      case _ =>
    }
    match (TipHeight(t.btc), t.btc.block)
    case (Some(h), Some(txs)) =>
      ZeroPriceInert(e.cache, BtcCandidates(txs), ScanEnv(BtcBlockInfo(h), 0.0, threshold, t.btcNow));
    case _ =>
  }

  /**
   * A price response without an `ethereum` `usd` value reads as price 0: with a
   * positive threshold, the tick's ETH scan alerts nothing and leaves the cache
   * it starts from unchanged.
   */
  lemma MissingEthPriceInert(m: map<string, int>, threshold: real, t: TickInput)
    requires t.quote.Some? && t.quote.value.ethereum.None? && threshold > 0.0
    ensures EthScan(m, t.eth, Snapshot(t.quote).eth, threshold, t.ethNow) == ScanState(m, [])
  {
    if t.eth.Some? {
      var b := t.eth.value;
      match (HexField(b.number), HexField(b.timestamp))
      case (Some(n), Some(ts)) =>
        ZeroPriceInert(m, EthCandidates(b.txs), ScanEnv(EthBlockInfo(n, ts), 0.0, threshold, t.ethNow));
      case _ =>
    }
  }

  /** As `MissingEthPriceInert`, for a response without a `bitcoin` `usd` value and the BTC scan. */
  lemma MissingBtcPriceInert(m: map<string, int>, threshold: real, t: TickInput)
    requires t.quote.Some? && t.quote.value.bitcoin.None? && threshold > 0.0
    ensures BtcScan(m, t.btc, Snapshot(t.quote).btc, threshold, t.btcNow) == ScanState(m, [])
  {
    match (TipHeight(t.btc), t.btc.block)
    case (Some(h), Some(txs)) =>
      ZeroPriceInert(m, BtcCandidates(txs), ScanEnv(BtcBlockInfo(h), 0.0, threshold, t.btcNow));
    case _ =>
  }

  /**
   * After a tick, every entry is at most `ttl` old at the cleanup time, and an
   * id alerted during the tick is still cached when the tick's scans ran
   * within `ttl` of its cleanup.
   */
  lemma TickCacheAfter(m: map<string, int>, ttl: int, threshold: real, t: TickInput)
    ensures var r := TickSpec(m, ttl, threshold, t);
      && (forall k | k in r.cache :: t.sweepNow - r.cache[k] <= ttl)
      && (t.sweepNow - t.ethNow <= ttl && t.sweepNow - t.btcNow <= ttl ==> AlertIds(r.alerts) <= r.cache.Keys)
  {
    var p := Snapshot(t.quote);
    var e := EthScan(m, t.eth, p.eth, threshold, t.ethNow);
    var b := BtcScan(e.cache, t.btc, p.btc, threshold, t.btcNow);
    if t.sweepNow - t.ethNow <= ttl && t.sweepNow - t.btcNow <= ttl {
      EthScanSound(m, t.eth, p.eth, threshold, t.ethNow);
      BtcScanSound(e.cache, t.btc, p.btc, threshold, t.btcNow);
      var r := e.alerts + b.alerts;
      forall k | k in AlertIds(r) ensures k in Sweep(b.cache, t.sweepNow, ttl) {
        var a :| a in r && a.id == k;
        if a in e.alerts {
          assert k in AlertIds(e.alerts) && k in e.cache;
          assert b.cache[k] == e.cache[k] == t.ethNow;
        } else {
          assert a in b.alerts;
          assert k in AlertIds(b.alerts);
          assert b.cache[k] == t.btcNow;
        }
      }
    }
  }

  /**
   * Dedupe across ticks: when a tick's scans run within `ttl` of its cleanup,
   * nothing it alerted is alerted again by the next tick, whatever that tick
   * fetches.
   */
  lemma TwoTicksNoRepeat(m: map<string, int>, ttl: int, threshold: real, t1: TickInput, t2: TickInput)
    requires t1.sweepNow - t1.ethNow <= ttl && t1.sweepNow - t1.btcNow <= ttl
    ensures var r1 := TickSpec(m, ttl, threshold, t1);
      AlertIds(r1.alerts) !! AlertIds(TickSpec(r1.cache, ttl, threshold, t2).alerts)
  {
    var r1 := TickSpec(m, ttl, threshold, t1);
    TickCacheAfter(m, ttl, threshold, t1);
    TickAlertsFresh(r1.cache, ttl, threshold, t2);
  }
}
