# big-tx-watcher: the detection and deduplication engine in Dafny

`big_tx_watcher.py` polls the latest Ethereum and Bitcoin blocks. It reports
every single transaction whose USD value reaches a threshold, and it remembers
reported transaction ids for a while so that none is reported twice. This
project models that engine without its network calls and proves what it
promises:

- `Cache` is the `SeenCache` class. It holds a `map<string, int>` from id to
  the time it was added. `time.time()` becomes an explicit `now` argument.
  The class offers `Add`, `Seen` and `Cleanup`. `Cleanup` first collects the
  stale ids and then deletes them in a loop, as the source does. The pure
  `Sweep` states what a cleanup keeps.
- `PyInt` is Python's `int(text)` and `int(text, 16)`. It covers surrounding
  whitespace, a sign, the `0x`/`0X` prefix, and underscores between digits.
- `Amounts` is `wei_hex_to_float`, with the integer divided exactly by 10^18
  as a `real`. It also holds the header fields read with `int(..., 16)` and
  the sum over a BTC transaction's `vout` values.
- `Scanner` is the rule both block scans apply to each transaction.
  `Scan` is its specification over decoded candidates. Each candidate has an
  optional id and an optional amount, where `None` means decoding raised.
  The rule:
  - skip an entry with no id, or one already cached;
  - skip it when decoding raised;
  - otherwise cache and alert it exactly when `amount * price >= threshold`.
- `Chains` holds `process_eth_block` and `process_btc_block`. Each takes
  responses that were already fetched, and a missing one is `None`. Each
  transaction loop is a method of the module, `ScanEthTxs` or `ScanBtcTxs`.
  It takes the `SeenCache` as a parameter, updates it through `Seen` and
  `Add`, and is proved equal to `Scan` of its block's candidates.
- `Watcher` is one iteration of `main_loop`: the price snapshot, with `(0, 0)`
  when the fetch fails, then the ETH scan, the BTC scan and one cleanup.
- `Scenarios` holds worked examples:
  - `0xde0b6b3a7640000` wei is exactly one ether.
  - `0x6765c731db6800000` is 119209282808043274240 wei, that is
    119.20928280804327424 ether. At 50,000 USD per ether that reaches 5,000,000 USD.
  - A large ETH transfer alerts once and not again on the next scan.
  - 150 BTC at 40,000 USD alerts; 100 BTC does not.

## Model

| member | source | states |
|---|---|---|
| PyInt.DigitsRoundTrip | big_tx_watcher.py:52 | reading back the base-10 or base-16 digits of any `n >= 0` gives `n` |
| PyInt.HexRoundTrip | big_tx_watcher.py:52 | `int("0x" + hex digits of n, 16) == n` for every `n >= 0` |
| PyInt.DecRoundTrip | big_tx_watcher.py:52 | `int(str(i)) == i` for every integer `i`, negative ones included |
| PyInt.DigitsValueCharset | big_tx_watcher.py:52 | a digit string that `int()` accepts holds only digits of the base and underscores |
| PyInt.SeparatorNotSkipped | big_tx_watcher.py:117 | `int()` keeps a leading U+001C and rejects the text, while `int(text.strip())` as at this line removes it first and reads 5 from `"\x1c5"` |
| PyInt.ParseInt | big_tx_watcher.py:52 | definition of `int(s)` and `int(s, 16)` on text: skip the whitespace `int()` skips at both ends (`str.isspace()` characters except U+001C to U+001F), an optional sign, for base 16 an optional `0x`/`0X` prefix and one `_`, then digits with single underscores between; `None` for anything else |
| Amounts.WeiOf | big_tx_watcher.py:52 | definition: text starting with `0x` is read with `int(s, 16)`, other text with `int(s)`; a JSON integer is itself, a boolean is 1 or 0, anything else raises (`None`) |
| Amounts.WeiToEther | big_tx_watcher.py:51-53 | definition: `WeiOf` divided exactly by 10^18, `None` when the parse raises |
| Amounts.HexField | big_tx_watcher.py:80-81 | definition: `int(field, 16)` of a header field whose default is `"0x0"`; a non-text field raises (`None`) |
| Amounts.OutputsTotal | big_tx_watcher.py:136-142 | definition: the sum of the output values in order, skipping outputs without a value; `None` at an output `float()` rejects |
| Amounts.WeiHexRoundTrip | big_tx_watcher.py:51-53 | text `"0x"` + hex digits of `n` is read in base 16 as `n` wei, which is `n / 10^18` ether |
| Amounts.WeiDecRoundTrip | big_tx_watcher.py:51-53 | text without `0x` is read in base 10: the decimal text of any integer `i` gives `i` wei and `i / 10^18` ether |
| Amounts.UpperCasePrefixRejected | big_tx_watcher.py:52 | a value written `"0X..."` does not start with `0x`, so it goes to `int(s)` in base 10 and raises |
| Amounts.OutputsTotalAppend | big_tx_watcher.py:137-142 | the `vout` sum of a concatenation is the sum of the parts' sums, and fails when either part fails |
| Amounts.OutputsTotalFails | big_tx_watcher.py:137-142 | the `vout` sum raises exactly when some output's value cannot be converted |
| Amounts.MissingValueIgnored | big_tx_watcher.py:139-141 | an output without a value adds nothing, wherever it stands |
| Amounts.SumOutputs | big_tx_watcher.py:137-142 | the accumulation loop returns the `vout` sum, or `None` as soon as one value cannot be converted |
| Cache.Stale | big_tx_watcher.py:67 | definition: the ids whose age at `now` is strictly greater than `ttl` |
| Cache.Sweep | big_tx_watcher.py:65-69 | a cleanup at `now` keeps exactly the entries with `now - t <= ttl`, timestamps unchanged, no key added |
| Cache.SweepIdempotent | big_tx_watcher.py:65-69 | a second cleanup at the same `now` removes nothing more |
| Cache.SweepLeavesFresh | big_tx_watcher.py:65-69 | after a cleanup at `now`, every entry is at most `ttl` old |
| Cache.ExpiryWindow | big_tx_watcher.py:67 | an id added at `t` survives cleanups at `t + ttl - 1` and `t + ttl` (the age test is strict) and is gone at `t + ttl + 1` |
| Cache.SeenCache.constructor | big_tx_watcher.py:56-57 | a new cache is empty |
| Cache.SeenCache.Add | big_tx_watcher.py:59-60 | the map is the old map with `tx` set to `now`: an earlier timestamp is overwritten and no other key changes |
| Cache.SeenCache.Seen | big_tx_watcher.py:62-63 | true exactly when `tx` is a key, whatever its age; the cache is not changed |
| Cache.SeenCache.StaleIds | big_tx_watcher.py:66-67 | the `to_del` list: exactly the ids whose age at `now` is strictly greater than `ttl` |
| Cache.SeenCache.Cleanup | big_tx_watcher.py:65-69 | the new map is the sweep of the old one at `now`, and every remaining entry is at most `ttl` old |
| Scanner.Step | big_tx_watcher.py:86-93 | definition of one iteration: an entry with an id that is not cached and a decoded amount with `amount * price >= threshold` is cached at `now` and alerted; any other entry changes nothing |
| Scanner.Scan | big_tx_watcher.py:84-108 | definition: `Step` applied to the block's entries in order, from the given cache and no alerts |
| Scanner.StepKeepsInvariant | big_tx_watcher.py:84-93 | one loop iteration keeps the scan invariant described under `Scanner.ScanSound` |
| Scanner.ScanSound | big_tx_watcher.py:84-93 | after a scan, these all hold: the cache is the old cache plus the alerted ids; no alerted id was cached before; old entries keep their timestamps; alerted ids are stamped `now`; no id is alerted twice (a hash repeated in the block alerts once); each alert names the block, is worth its amount times the price, and reached the threshold |
| Scanner.ScanAlertsExactly | big_tx_watcher.py:86-93 | the alerted ids are exactly the ids of entries that decode, qualify and were not cached when the scan began |
| Scanner.SkippedEntryIsInert | big_tx_watcher.py:107-108 | an entry without an id, or one whose decoding raised, changes nothing: the scan of the rest is the same as without it |
| Scanner.CachedNeverAlerted | big_tx_watcher.py:87-88 | an id already in the cache is never alerted, whatever its age |
| Scanner.ZeroPriceInert | big_tx_watcher.py:91-92 | with price 0 and a positive threshold, a scan alerts nothing and leaves the cache unchanged |
| Scanner.ThresholdInclusive | big_tx_watcher.py:92 | a fresh decoded entry alerts if and only if `amount * price >= threshold`, so an amount worth exactly the threshold alerts |
| Scanner.ScanFromAppend | big_tx_watcher.py:84 | scanning a concatenation is scanning the first part, then the second from where it left off |
| Chains.EthCandidate | big_tx_watcher.py:86-90 | definition: an entry that is not an object has neither id nor amount; otherwise the id is the hash unless it is missing, null or empty, and the amount is `wei_hex_to_float` of `value` (default `"0x0"`), `None` when that raises |
| Chains.EthScan | big_tx_watcher.py:77-108 | definition: no change for a missing block or a header field that does not parse, otherwise `Scan` of the block's entries with the block's number and timestamp |
| Chains.TipHeight | big_tx_watcher.py:117 | definition: `int(height_text.strip())` in base 10, `None` when the fetch or the parse raises |
| Chains.BtcCandidate | big_tx_watcher.py:134-142 | definition: the txid, with the `vout` sum as its amount, `None` when the detail fetch or the sum raises |
| Chains.BtcScan | big_tx_watcher.py:110-156 | definition: no change when the tip height or the block cannot be had, otherwise `Scan` of the block's txids at that height |
| Chains.ProcessEthBlock | big_tx_watcher.py:77-82 | a missing block, or a `number` or `timestamp` that `int(..., 16)` rejects, gives no alert and no cache change; otherwise the result is the scan of the block's transactions |
| Chains.ScanEthTxs | big_tx_watcher.py:84-108 | the ETH loop leaves the cache and alert list that `Scan` specifies for the block's entries |
| Chains.ProcessBtcBlock | big_tx_watcher.py:110-129 | an unreadable tip height or a failed block fetch gives no alert and no cache change; otherwise the result is the scan of the block's txids |
| Chains.ScanBtcTxs | big_tx_watcher.py:130-156 | the BTC loop leaves the cache and alert list that `Scan` specifies for the block's txids |
| Chains.EthScanSound | big_tx_watcher.py:80-103 | for a whole ETH block, whatever its header: the `Scanner.CacheTracksAlerts` facts (the cache gains exactly the alerted ids, stamped `now`, earlier stamps kept, no id alerted twice, every alert at the threshold), and every alert carries the number and timestamp parsed from the header, as the message's `Block:`/`Time:` at line 103 |
| Chains.BtcScanSound | big_tx_watcher.py:117-151 | for a whole BTC block, whatever its height response: the `Scanner.CacheTracksAlerts` facts, and every alert carries the parsed tip height, as the message's `Block:` at line 151 |
| Chains.HashlessNeverAlerted | big_tx_watcher.py:86-88 | an ETH entry whose hash is missing, null or empty has no id, the case `not txhash` skips; `Chains.EthMalformedEntryInert` takes it to the whole block, where such an entry is never alerted |
| Chains.EthMalformedEntryInert | big_tx_watcher.py:85-108 | an ETH entry that is not an object, has no hash, or whose value does not convert is neither alerted nor cached: the scan of the other entries is as if it were absent |
| Chains.BtcFailedTxInert | big_tx_watcher.py:133-156 | a BTC transaction whose detail fetch raises, or with an output that cannot be converted, leaves the scan of the others unchanged |
| Watcher.Snapshot | big_tx_watcher.py:43-49 | definition: each asset's `usd` price, 0 when the key is missing, and `(0, 0)` when the price fetch raised; its consequences are `Watcher.MissingEthPriceInert`, `Watcher.MissingBtcPriceInert` and `Watcher.PriceFailureInert` |
| Watcher.MissingEthPriceInert | big_tx_watcher.py:47-48 | a price response without an `ethereum` `usd` value reads as price 0, so with a positive threshold the tick's ETH scan alerts nothing and leaves its starting cache unchanged |
| Watcher.MissingBtcPriceInert | big_tx_watcher.py:47-48 | a price response without a `bitcoin` `usd` value reads as price 0, so with a positive threshold the tick's BTC scan alerts nothing and leaves its starting cache unchanged |
| Watcher.TickSpec | big_tx_watcher.py:161-175 | definition: the snapshot's prices, the ETH scan, the BTC scan from the cache the ETH scan left, then one sweep; the alerts are the ETH alerts followed by the BTC alerts |
| Watcher.Tick | big_tx_watcher.py:158-176 | one tick leaves the cache and alerts that `TickSpec` composes: price snapshot, ETH scan, BTC scan on the updated cache, one cleanup |
| Watcher.TickAlertsFresh | big_tx_watcher.py:167-171 | within one tick, no alert is for an id cached when the tick began, no id is alerted twice (across both chains too), and every alert reached the threshold |
| Watcher.PriceFailureInert | big_tx_watcher.py:162-166 | when the price fetch fails and the threshold is positive, a tick alerts nothing and only cleans the cache |
| Watcher.TickCacheAfter | big_tx_watcher.py:175 | after a tick every entry is at most `ttl` old at the cleanup time; when the scans ran within `ttl` of that cleanup, every id alerted in the tick is still cached |
| Watcher.TwoTicksNoRepeat | big_tx_watcher.py:161-176 | when a tick's scans ran within `ttl` of its cleanup, the next tick alerts none of the ids it alerted, whatever it fetches |
| Scenarios.OneEther | big_tx_watcher.py:51-53 | `"0xde0b6b3a7640000"` converts to exactly 1 ether |
| Scenarios.LargeTransferExample | big_tx_watcher.py:51-53 | `"0x6765c731db6800000"` converts to 119.20928280804327424 ether, which at 50,000 USD reaches 5,000,000 USD |
| Scenarios.MissingHeaderIsZero | big_tx_watcher.py:80-81 | a missing `number` or `timestamp` defaults to `"0x0"`, that is 0 |
| Scenarios.EthLargeTransferOnce | big_tx_watcher.py:84-93 | a block with one qualifying transaction alerts it once and caches it at `now`; scanning the same block again alerts nothing |
| Scenarios.BtcThresholdScenario | big_tx_watcher.py:137-144 | outputs of 100, none and 50 BTC at 40,000 USD alert once, worth 6,000,000 USD; outputs totalling 100 BTC do not reach 5,000,000 USD |

## Left out

- Network I/O is not modelled. That covers `fetch_json`, `get_prices`, the Etherscan, mempool.space and CoinGecko requests, and `post_telegram`. Their responses are inputs: `Option` values and decoded records, with `None` for a fetch that raised.
- An ETH run without `ETHERSCAN_API_KEY` returns before fetching (lines 72-73). It is modelled as an absent block.
- Alert messages are not modelled: no HTML text, `:,.2f` formatting or `time.strftime`. An alert is a record of block info, id, amount and USD value.
- `asyncio.gather` and `asyncio.sleep` are not modelled. A tick runs the ETH scan, then the BTC scan, then the cleanup. With `gather`, the two scans interleave at every `await`. An exception that escapes one scan reaches `main_loop` while the other scan may still run, so in the source a cleanup can happen before that scan ends. The ETH fetch (line 76) and header parse (lines 80-81) are outside any `try`, so when they raise, that tick's BTC scan keeps running into the next tick and can overlap the next BTC scan. Both can test `seen(txid)` before either calls `add`, so the source can alert one txid twice. `Watcher.TwoTicksNoRepeat` assumes each tick ends before the next begins and does not cover that path.
- The environment and configuration (`load_dotenv`, `os.getenv`) and the start-up `RuntimeError` (lines 27-28) are not modelled. The threshold and the TTL are parameters.
- The endless `while True` loop and the `KeyboardInterrupt` handler are not modelled. One tick is modelled, and the dedupe lemma relates two consecutive ticks.
- Amounts.WeiToEther: divides exactly as `real`. It does not model the 28-digit `Decimal` quotient or the rounding of `float(...)`.
- Scanner.Step: caches an id and emits its alert together. In the source, `seen.add` (lines 93, 145) runs before the message is built and posted. When building or posting raises, the id stays cached and no alert goes out. Two examples are `time.gmtime` of an out-of-range ETH timestamp at line 103, and a failing `post_telegram` at lines 106 and 154. On that path the model emits an alert record. So `Scanner.ScanSound`'s "the cache is the old cache plus the alerted ids" is stronger than the source: in the source, the ids whose message failed are cached too. The `time_t` range at which `gmtime` fails depends on the platform.
- Scanner.Step: compares `amount * price` exactly. The source compares after the float product, and near the threshold it can round the other way.
- Amounts.SumOutputs: adds output values exactly. The source accumulates `total_btc` as a float.
- Cache.SeenCache.Add: timestamps are whole seconds, not `time.time()` floats.
- Each scan reads one clock value (`now`) for all of its `add` calls. The cleanup reads its own.
- JSON decoding is abstracted:
  - a transaction entry is either an object or not;
  - a JSON value is text, an integer, a boolean or something else;
  - JSON floats (`int(1.5) == 1`) are not modelled;
  - an output's value is a number, missing, or something `float()` rejects;
  - a price response gives each asset's `usd` value or leaves it out. A `usd` value that is present but that `float()` rejects (`null`, non-numeric text) makes all of `get_prices` raise (lines 47-48). Then both prices become 0 (line 166), so such a response must be given as a failed fetch (`quote == None`), not as one missing price.
- Ids are strings. Non-string hashes or txids, such as unhashable lists that make `seen()` raise, are not modelled.
- A `tx` key that holds `null` (iterating it raises outside the loop's `try`) is not modelled.
- `int()` does not model Unicode decimal digits, such as Arabic-Indic digits, or the 4300-digit limit on decimal strings.
- The units of mempool.space `vout` values are taken as the source takes them: summed and multiplied by the BTC price as they come.
