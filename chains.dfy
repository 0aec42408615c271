/**
 * The two per-block scans, `process_eth_block` and `process_btc_block`, over
 * responses that have already been fetched. A fetch that raised, returned
 * nothing, or (for ETH) ran without an API key is an absent response.
 */
module Chains {
  import opened Wrappers
  import opened PyInt
  import opened Amounts
  import opened Scanner
  import opened Cache

  // ---------------------------------------------------------------- ETH

  /** A transaction object of the block: `hash` (missing or null is `None`) and `value` (missing is `None`). */
  datatype EthTx = EthTx(hash: Option<string>, value: Option<Json>)

  /**
   * The `result` of `eth_getBlockByNumber`: the `number` and `timestamp` fields
   * (missing is `None`) and the transaction list (missing or null is empty);
   * an entry that is not an object is `None`.
   */
  datatype EthBlock = EthBlock(number: Option<Json>, timestamp: Option<Json>, txs: seq<Option<EthTx>>)

  /** The id the loop tests with `not txhash`: a missing, null or empty hash has none. */
  function EthId(tx: EthTx): Option<string> {
    if tx.hash.Some? && tx.hash.value != "" then tx.hash else None
  }

  /** What the ETH loop sees of one entry; `value` defaults to `"0x0"`. */
  function EthCandidate(entry: Option<EthTx>): Candidate {
    match entry
    case None => Candidate(None, None)
    case Some(tx) => Candidate(EthId(tx), WeiToEther(tx.value.GetOr(JText("0x0"))))
  }

  function EthCandidates(txs: seq<Option<EthTx>>): seq<Candidate> {
    seq(|txs|, i requires 0 <= i < |txs| => EthCandidate(txs[i]))
  }

  /**
   * `process_eth_block` on cache `m`: nothing when there is no block or its
   * number or timestamp does not parse, otherwise the scan of its transactions.
   */
  function EthScan(m: map<string, int>, block: Option<EthBlock>, price: real, threshold: real, now: int): ScanState {
    if block.None? then ScanState(m, [])
    else
      match (HexField(block.value.number), HexField(block.value.timestamp))
      case (Some(n), Some(t)) => Scan(m, EthCandidates(block.value.txs), ScanEnv(EthBlockInfo(n, t), price, threshold, now))
      case _ => ScanState(m, [])
  }

  /** `process_eth_block`: give up on a missing block or an unparsable header, otherwise scan its transactions. */
  method ProcessEthBlock(seen: SeenCache, block: Option<EthBlock>, price: real, threshold: real, now: int)
    returns (alerts: seq<Alert>)
    modifies seen
    ensures ScanState(seen.entries, alerts) == EthScan(old(seen.entries), block, price, threshold, now)
  {
    alerts := [];
    if block.None? {
      return;
    }
    var number := HexField(block.value.number);
    var timestamp := HexField(block.value.timestamp);
    if number.None? || timestamp.None? {
      return;
    }
    var env := ScanEnv(EthBlockInfo(number.value, timestamp.value), price, threshold, now);
    alerts := ScanEthTxs(seen, block.value.txs, env);
  }

  /** The ETH transaction loop: skip hashless and cached entries and entries that raise; cache and alert qualifying ones. */
  method ScanEthTxs(seen: SeenCache, txs: seq<Option<EthTx>>, env: ScanEnv) returns (alerts: seq<Alert>)
    modifies seen
    ensures ScanState(seen.entries, alerts) == Scan(old(seen.entries), EthCandidates(txs), env)
  {
    alerts := [];
    ghost var cs := EthCandidates(txs);
    ghost var m0 := seen.entries;
    var i := 0;
    while i < |txs|
      invariant 0 <= i <= |txs|
      invariant ScanFrom(ScanState(m0, []), cs[..i], env) == ScanState(seen.entries, alerts)
    {
      ghost var before := ScanState(seen.entries, alerts);
      var entry := txs[i];
      assert cs[i] == EthCandidate(entry);
      ghost var taken := false;
      if entry.Some? {
        var tx := entry.value;
        if tx.hash.Some? && tx.hash.value != "" {
          var txhash := tx.hash.value;
          var dup := seen.Seen(txhash);
          if !dup {
            var ethAmount := WeiToEther(tx.value.GetOr(JText("0x0")));
            if ethAmount.Some? {
              var usd := ethAmount.value * env.price;
              if usd >= env.threshold {
                StepTakes(before, cs[i], env, txhash, ethAmount.value, usd);
                seen.Add(txhash, env.now);
                alerts := alerts + [Alert(env.info, txhash, ethAmount.value, usd)];
                taken := true;
              }
            }
          }
        }
      }
      if !taken {
        StepSkips(before, cs[i], env);
      }
      ScanFromSnoc(ScanState(m0, []), cs, i, env);
      i := i + 1;
    }
    assert cs[..i] == cs;
  }

  // ---------------------------------------------------------------- BTC

  /** A txid of the block and the response its detail fetch gives (`None`: the fetch raised). */
  datatype BtcTx = BtcTx(txid: string, detail: Option<seq<Output>>)

  /**
   * The BTC responses of one tick: the tip-height text (`None`: the fetch
   * raised) and the block's txid list (`None`: the block fetch raised;
   * a missing `tx` key is an empty list).
   */
  datatype BtcFeed = BtcFeed(tipHeight: Option<string>, block: Option<seq<BtcTx>>)

  /** What the BTC loop sees of one txid: the sum of its outputs, when it can be fetched and summed. */
  function BtcCandidate(tx: BtcTx): Candidate {
    Candidate(Some(tx.txid), if tx.detail.None? then None else OutputsTotal(tx.detail.value))
  }

  function BtcCandidates(txs: seq<BtcTx>): seq<Candidate> {
    seq(|txs|, i requires 0 <= i < |txs| => BtcCandidate(txs[i]))
  }

  /** `int(height_text.strip())`. */
  function TipHeight(feed: BtcFeed): Option<int> {
    if feed.tipHeight.None? then None else ParseInt(Strip(feed.tipHeight.value), Dec)
  }

  /**
   * `process_btc_block` on cache `m`: nothing when the height or the block
   * cannot be had, otherwise the scan of the block's txids.
   */
  function BtcScan(m: map<string, int>, feed: BtcFeed, price: real, threshold: real, now: int): ScanState {
    match (TipHeight(feed), feed.block)
    case (Some(h), Some(txs)) => Scan(m, BtcCandidates(txs), ScanEnv(BtcBlockInfo(h), price, threshold, now))
    case _ => ScanState(m, [])
  }

  /** `process_btc_block`: give up when the tip height or the block cannot be had, otherwise scan its txids. */
  method ProcessBtcBlock(seen: SeenCache, feed: BtcFeed, price: real, threshold: real, now: int)
    returns (alerts: seq<Alert>)
    modifies seen
    ensures ScanState(seen.entries, alerts) == BtcScan(old(seen.entries), feed, price, threshold, now)
  {
    alerts := [];
    var height := TipHeight(feed);
    if height.None? {
      return;
    }
    if feed.block.None? {
      return;
    }
    var env := ScanEnv(BtcBlockInfo(height.value), price, threshold, now);
    alerts := ScanBtcTxs(seen, feed.block.value, env);
  }

  /** The BTC transaction loop: skip cached txids and transactions whose detail raises; cache and alert qualifying ones. */
  method ScanBtcTxs(seen: SeenCache, txs: seq<BtcTx>, env: ScanEnv) returns (alerts: seq<Alert>)
    modifies seen
    ensures ScanState(seen.entries, alerts) == Scan(old(seen.entries), BtcCandidates(txs), env)
  {
    alerts := [];
    ghost var cs := BtcCandidates(txs);
    ghost var m0 := seen.entries;
    var i := 0;
    while i < |txs|
      invariant 0 <= i <= |txs|
      invariant ScanFrom(ScanState(m0, []), cs[..i], env) == ScanState(seen.entries, alerts)
    {
      ghost var before := ScanState(seen.entries, alerts);
      var tx := txs[i];
      assert cs[i] == BtcCandidate(tx);
      ghost var taken := false;
      var dup := seen.Seen(tx.txid);
      if !dup && tx.detail.Some? {
        var totalBtc := SumOutputs(tx.detail.value);
        if totalBtc.Some? {
          var usd := totalBtc.value * env.price;
          if usd >= env.threshold {
            StepTakes(before, cs[i], env, tx.txid, totalBtc.value, usd);
            seen.Add(tx.txid, env.now);
            alerts := alerts + [Alert(env.info, tx.txid, totalBtc.value, usd)];
            taken := true;
          }
        }
      }
      if !taken {
        StepSkips(before, cs[i], env);
      }
      ScanFromSnoc(ScanState(m0, []), cs, i, env);
      i := i + 1;
    }
    assert cs[..i] == cs;
  }

  // ---------------------------------------------------------------- per-chain facts

  /**
   * `ScanSound` for the ETH scan: the cache gains exactly the alerted ids,
   * stamped `now`, and every alert names the block's parsed number and timestamp.
   */
  lemma EthScanSound(m: map<string, int>, block: Option<EthBlock>, price: real, threshold: real, now: int)
    ensures CacheTracksAlerts(m, EthScan(m, block, price, threshold, now), price, threshold, now)
    ensures forall a | a in EthScan(m, block, price, threshold, now).alerts ::
      && a.info.EthBlockInfo? && block.Some?
      && HexField(block.value.number) == Some(a.info.number)
      && HexField(block.value.timestamp) == Some(a.info.timestamp)
  {
    if block.Some? {
      var b := block.value;
      match (HexField(b.number), HexField(b.timestamp))
      case (Some(n), Some(ts)) =>
        ScanSound(m, EthCandidates(b.txs), ScanEnv(EthBlockInfo(n, ts), price, threshold, now));
      case _ =>
    }
  }

  /** `ScanSound` for the BTC scan: as for ETH, and every alert names the tip height. */
  lemma BtcScanSound(m: map<string, int>, feed: BtcFeed, price: real, threshold: real, now: int)
    ensures CacheTracksAlerts(m, BtcScan(m, feed, price, threshold, now), price, threshold, now)
    ensures forall a | a in BtcScan(m, feed, price, threshold, now).alerts ::
      a.info.BtcBlockInfo? && TipHeight(feed) == Some(a.info.height)
  {
    match (TipHeight(feed), feed.block)
    case (Some(h), Some(txs)) =>
      ScanSound(m, BtcCandidates(txs), ScanEnv(BtcBlockInfo(h), price, threshold, now));
    case _ =>
  }

  /** An ETH entry without a hash, or with an empty one, is never alerted. */
  lemma HashlessNeverAlerted(tx: EthTx)
    requires tx.hash.None? || tx.hash.value == ""
    ensures EthCandidate(Some(tx)).id.None?
  {
  }

  /**
   * Fault isolation for ETH: an entry that is not an object, has no hash, or
   * whose value does not convert is neither alerted nor cached, and leaves the
   * scan of the other entries as if it were absent.
   */
  lemma EthMalformedEntryInert(m: map<string, int>, a: seq<Option<EthTx>>, bad: Option<EthTx>, b: seq<Option<EthTx>>, env: ScanEnv)
    requires bad.None? || EthId(bad.value).None? || WeiToEther(bad.value.value.GetOr(JText("0x0"))).None?
    ensures Scan(m, EthCandidates(a + [bad] + b), env) == Scan(m, EthCandidates(a + b), env)
  {
    assert EthCandidates(a + [bad] + b) == EthCandidates(a) + [EthCandidate(bad)] + EthCandidates(b);
    assert EthCandidates(a + b) == EthCandidates(a) + EthCandidates(b);
    SkippedEntryIsInert(ScanState(m, []), EthCandidates(a), EthCandidate(bad), EthCandidates(b), env);
  }

  /**
   * Fault isolation for BTC: a transaction whose detail fetch raises, or that
   * has an output `float()` rejects, leaves the scan of the others unchanged.
   */
  lemma BtcFailedTxInert(m: map<string, int>, a: seq<BtcTx>, bad: BtcTx, b: seq<BtcTx>, env: ScanEnv)
    requires bad.detail.None? || exists i :: 0 <= i < |bad.detail.value| && bad.detail.value[i].Unreadable?
    ensures Scan(m, BtcCandidates(a + [bad] + b), env) == Scan(m, BtcCandidates(a + b), env)
  {
    if bad.detail.Some? {
      OutputsTotalFails(bad.detail.value);
    }
    assert BtcCandidates(a + [bad] + b) == BtcCandidates(a) + [BtcCandidate(bad)] + BtcCandidates(b);
    assert BtcCandidates(a + b) == BtcCandidates(a) + BtcCandidates(b);
    SkippedEntryIsInert(ScanState(m, []), BtcCandidates(a), BtcCandidate(bad), BtcCandidates(b), env);
  }
}
