/**
 * Worked examples on concrete values: one ether in hexadecimal wei, a large
 * ETH transfer's value, that transfer scanned twice (alerted once), and a BTC
 * transaction just above and just below the threshold.
 */
module Scenarios {
  import opened Wrappers
  import opened PyInt
  import opened Amounts
  import opened Scanner
  import opened Chains

  /** 10**18 wei, written in hexadecimal, is one ether. */
  lemma OneEther(s: string)
    requires s == "0xde0b6b3a7640000"
    ensures WeiToEther(JText(s)) == Some(1.0)
  {
    OneEtherPrefix(s);
    OneEtherValue(s);
  }

  // Splitting the literal off in its own lemma keeps the solver from unfolding
  // it character by character inside the value computation.
  lemma OneEtherPrefix(s: string)
    requires s == "0xde0b6b3a7640000"
    ensures s == "0x" + "de0b6b3a7640000"
  {
  }

  lemma OneEtherValue(s: string)
    requires s == "0x" + "de0b6b3a7640000"
    ensures WeiToEther(JText(s)) == Some(WeiPerEther as real / WeiPerEther as real)
  {
    OneEtherDigits();
    WeiHexRoundTrip(WeiPerEther, s);
  }

  /**
   * The value `0x6765c731db6800000` is 119209282808043274240 wei, about 119.209
   * ether; at 50,000 USD per ether that is about 5,960,464 USD.
   */
  lemma LargeTransferExample(s: string)
    requires s == "0x6765c731db6800000"
    ensures WeiToEther(JText(s)) == Some(119.20928280804327424)
    ensures WeiToEther(JText(s)).value * 50000.0 >= 5000000.0
  {
    LargeTransferPrefix(s);
    LargeTransferValue(s);
  }

  // As `OneEtherPrefix`: isolates the literal so the value proof stays small.
  lemma LargeTransferPrefix(s: string)
    requires s == "0x6765c731db6800000"
    ensures s == "0x" + "6765c731db6800000"
  {
  }

  lemma LargeTransferValue(s: string)
    requires s == "0x" + "6765c731db6800000"
    ensures WeiToEther(JText(s)) == Some(LargeTransferWei as real / WeiPerEther as real)
  {
    LargeTransferDigits();
    WeiHexRoundTrip(LargeTransferWei, s);
  }

  /** `HexField` of a missing field is the default `"0x0"`, that is 0. */
  lemma MissingHeaderIsZero()
    ensures HexField(None) == Some(0)
  {
    HexRoundTrip(0);
    assert Digits(0, Hex) == "0";
  }

  /**
   * A block with one transaction whose value converts to `e` ether, where
   * `e` at 50,000 USD per ether reaches a 5,000,000 USD threshold (as the value
   * of `LargeTransferExample` does): the first scan alerts and caches it; a scan
   * of the same block against the updated cache alerts nothing.
   */
  lemma EthLargeTransferOnce(v: Json, e: real, h: string, m: map<string, int>, now: int, later: int)
    requires WeiToEther(v) == Some(e) && e * 50000.0 >= 5000000.0
    requires h != "" && h !in m
    ensures var block := Some(EthBlock(None, None, [Some(EthTx(Some(h), Some(v)))]));
      var r1 := EthScan(m, block, 50000.0, 5000000.0, now);
      && r1.alerts == [Alert(EthBlockInfo(0, 0), h, e, e * 50000.0)]
      && r1.cache == m[h := now]
      && EthScan(r1.cache, block, 50000.0, 5000000.0, later).alerts == []
  {
    var block := Some(EthBlock(None, None, [Some(EthTx(Some(h), Some(v)))]));
    var c := Candidate(Some(h), Some(e));
    var env := ScanEnv(EthBlockInfo(0, 0), 50000.0, 5000000.0, now);
    SingleTxBlock(m, block, h, v, e, now);
    ScanOne(m, c, env);
    var r1 := Scan(m, [c], env);
    assert r1 == ScanState(m[h := now], [Alert(EthBlockInfo(0, 0), h, e, e * 50000.0)]) by {
      assert [] + [Alert(EthBlockInfo(0, 0), h, e, e * 50000.0)] == [Alert(EthBlockInfo(0, 0), h, e, e * 50000.0)];
    }
    SingleTxBlock(r1.cache, block, h, v, e, later);
    ScanOne(r1.cache, c, env.(now := later));
  }

  /** The scan of a one-transaction block without header fields is the scan of its one candidate. */
  lemma SingleTxBlock(m: map<string, int>, block: Option<EthBlock>, h: string, v: Json, e: real, now: int)
    requires block == Some(EthBlock(None, None, [Some(EthTx(Some(h), Some(v)))]))
    requires WeiToEther(v) == Some(e) && h != ""
    ensures EthScan(m, block, 50000.0, 5000000.0, now)
      == Scan(m, [Candidate(Some(h), Some(e))], ScanEnv(EthBlockInfo(0, 0), 50000.0, 5000000.0, now))
  {
    MissingHeaderIsZero();
    assert EthCandidates(block.value.txs) == [Candidate(Some(h), Some(e))];
  }

  /** Outputs summing to 150 BTC at 40,000 USD reach a 5,000,000 USD threshold; 100 BTC does not. */
  lemma BtcThresholdScenario(m: map<string, int>, id: string, now: int)
    requires id !in m
    ensures var big := BtcTx(id, Some([Value(100.0), NoValue, Value(50.0)]));
      var small := BtcTx(id, Some([Value(60.0), Value(40.0)]));
      var env := ScanEnv(BtcBlockInfo(840000), 40000.0, 5000000.0, now);
      && Scan(m, BtcCandidates([big]), env).alerts == [Alert(BtcBlockInfo(840000), id, 150.0, 6000000.0)]
      && Scan(m, BtcCandidates([small]), env).alerts == []
  {
    var big := BtcTx(id, Some([Value(100.0), NoValue, Value(50.0)]));
    var small := BtcTx(id, Some([Value(60.0), Value(40.0)]));
    MissingValueIgnored([Value(100.0)], [Value(50.0)]);
    OutputsTotalAppend([Value(100.0)], [Value(50.0)]);
    OutputsTotalAppend([Value(60.0)], [Value(40.0)]);
    assert OutputsTotal([Value(100.0)]) == Some(100.0) by { assert [Value(100.0)][..0] == []; }
    assert OutputsTotal([Value(50.0)]) == Some(50.0) by { assert [Value(50.0)][..0] == []; }
    assert OutputsTotal([Value(60.0)]) == Some(60.0) by { assert [Value(60.0)][..0] == []; }
    assert OutputsTotal([Value(40.0)]) == Some(40.0) by { assert [Value(40.0)][..0] == []; }
    assert [Value(100.0)] + [NoValue] + [Value(50.0)] == [Value(100.0), NoValue, Value(50.0)];
    assert [Value(100.0)] + [Value(50.0)] == [Value(100.0), Value(50.0)];
    assert [Value(60.0)] + [Value(40.0)] == [Value(60.0), Value(40.0)];
    var env := ScanEnv(BtcBlockInfo(840000), 40000.0, 5000000.0, now);
    assert BtcCandidates([big]) == [Candidate(Some(id), Some(150.0))];
    assert BtcCandidates([small]) == [Candidate(Some(id), Some(100.0))];
    ThresholdInclusive(m, Candidate(Some(id), Some(150.0)), env);
    ThresholdInclusive(m, Candidate(Some(id), Some(100.0)), env);
  }
}
