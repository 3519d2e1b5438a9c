# Verified model of a blockchain node's history queries, confirmation registry and custom-vote rules

This project models three parts of a Graphene-based full node:

- **The history query engine** (`history_api`). Its five read-only scans over the ledger's indices are:
  - the two walks down an account's history chain, newest operation first: `get_account_history` and `get_account_history_operations`;
  - the backward scan of the per-account sequence index: `get_relative_account_history`;
  - the forward range scans of the market-history bucket index and the fill index: `get_market_history` and `get_fill_order_history`.
- **The confirmation-callback registry** of `network_broadcast_api`. It stores a callback per transaction id and, when a block is applied, produces one confirmation per registered transaction in the block. The `block_api::get_blocks` range fetch is modelled beside it.
- **The protocol rules of the custom vote operations.** These are `validate()` and `calculate_fee()` of the create and cast operations.

The model keeps the code's shape:

- Each query is a `method` with the source's loop, proved equal to a specification function.
- The properties the API promises are lemmas about those functions. These cover id windows, caps, ordering, contiguity, nothing skipped, and pair symmetry.
- Each ordered index is a sequence sorted by its key. Its `lower_bound` and `upper_bound` are the partition point of "key < k" and of "key <= k".
- An account's history chain is the sequence of operations its `next` links visit, head first. The empty sequence stands for a `most_recent_op` equal to the null id.
- The callback registry is a `map` field of a class. Its registration method updates the map in place.
- Handing a confirmation to `fc::async` is modelled as returning it, paired with its callback.
- The custom-vote rules are pure functions. The helpers they call but do not define are parameters, so nothing is assumed about them. These helpers are the common fee check, the uid check, `pack_size` and the data-fee schedule.

Modules: `Common` (results, ordered-index search), `Ledger` (the ledger objects read), `AccountHistory`, `RelativeHistory`, `MarketHistory`, `NetworkBroadcast`, `BlockApi`, `CustomVote`.

Behaviour of the code worth knowing, which the model follows:

- **Registrations are never removed.** `on_applied_block` only reads `_callbacks` (libraries/app/api.cpp:139-148), so an entry stays after its confirmation (`RegistrationOutlivesConfirmation`).
- **`get_market_history` has no `limit` parameter.** It stops silently at 200 buckets (libraries/app/api.cpp:414).
- **`get_fill_order_history` puts no cap on `limit`** (libraries/app/api.cpp:444).

## Model

| member | source | states |
|---|---|---|
| `AccountHistory.Walk` | libraries/app/api.cpp:298-305 | the walk never collects more than `limit` entries |
| `AccountHistory.WalkInWindow` | libraries/app/api.cpp:298-305 | every collected entry has `stop < id <= start` and, when a type is requested, that type |
| `AccountHistory.GetAccountHistory` | libraries/app/api.cpp:283-308 | fails exactly when `limit > 100`; empty when the account's head is the null id; otherwise the walk with `start` defaulted to the head's id |
| `AccountHistory.WalkChain` | libraries/app/api.cpp:298-305 | the loop of `get_account_history` collects exactly the untyped walk |
| `AccountHistory.GetAccountHistoryOperations` | libraries/app/api.cpp:310-338 | fails exactly when `limit > 100`; empty for a null head; otherwise the walk keeping only operations whose `which()` equals the requested type, with mismatches walked past but not counted toward `limit` |
| `AccountHistory.WalkChainTyped` | libraries/app/api.cpp:326-336 | the loop of `get_account_history_operations` collects exactly the typed walk |
| `AccountHistory.WalkIsFirstSelected` | libraries/app/api.cpp:295-305 | on a chain with strictly decreasing ids, the walk returns exactly the first `limit` operations of the window `(stop, start]` that pass the type filter, so the early exit at `stop` loses nothing |
| `AccountHistory.NothingSelectedBelowStop` | libraries/app/api.cpp:298 | once the chain reaches an id `<= stop`, no later node is in the window |
| `AccountHistory.WalkIsSubsequence` | libraries/app/api.cpp:298-305 | the result is a subsequence of the chain, in chain order |
| `AccountHistory.WalkFromChain` | libraries/app/api.cpp:301 | every returned operation is one the chain points at |
| `AccountHistory.WalkNewestFirst` | libraries/app/api.cpp:298-305 | on a well-formed chain the returned ids strictly decrease |
| `AccountHistory.HeadDefaultExample` | libraries/app/api.cpp:295-305 | chain 40, 30, 20, 10 with `stop` 15, `limit` 10 and default `start` gives 40, 30, 20 |
| `RelativeHistory.NormalizeStart` | libraries/app/api.cpp:352-355 | `start` 0 becomes `total_ops`; any other `start` becomes `min(total_ops, start)` |
| `RelativeHistory.BoundsEncloseWindow` | libraries/app/api.cpp:366-367 | in a sorted index, the positions between `lower_bound(account[, type], stop)` and `upper_bound(account[, type], start)` hold exactly the group's entries with sequence in `[stop, start]` |
| `RelativeHistory.BoundsOrdered` | libraries/app/api.cpp:380-383 | with `stop <= start` the lower bound never passes the upper bound |
| `RelativeHistory.StepBack` | libraries/app/api.cpp:369-374 | stepping back from the upper bound yields `min(limit, hi - lo)` pairs, the k-th being the entry at `hi - 1 - k` |
| `RelativeHistory.ScanBack` | libraries/app/api.cpp:385-390 | the do-while loop collects exactly what `StepBack` describes |
| `RelativeHistory.GetRelativeAccountHistory` | libraries/app/api.cpp:341-395 | fails exactly when `limit > 100`; otherwise scans the by_seq index without a type and the by_type_seq index with one |
| `RelativeHistory.RelativeHistoryWindow` | libraries/app/api.cpp:358-392 | each pair is an entry of the account (and type, when one is given) with `stop <= sequence <=` the normalised start |
| `RelativeHistory.RelativeHistoryNewestFirst` | libraries/app/api.cpp:369-390 | at most `limit` pairs, with strictly decreasing sequence numbers |
| `RelativeHistory.RelativeHistoryComplete` | libraries/app/api.cpp:366-392 | every entry of the window is returned, unless `limit` pairs were returned, all newer than it; so the first pair is the largest entry `<= start` |
| `RelativeHistory.RelativeHistoryClosed` | libraries/app/api.cpp:358 | the result is empty when the normalised start is below `stop`, at or below `removed_ops`, or `limit` is 0 |
| `RelativeHistory.RetainedHistoryFillsWindow` | libraries/app/api.cpp:358-374 | if the index holds every sequence from `removed_ops + 1` to `total_ops`, an open window always holds an entry, which is what the untyped do-while needs |
| `MarketHistory.CanonicalPair` | libraries/app/api.cpp:408 | the pair in index order: the smaller id first, made of the two given ids |
| `MarketHistory.BucketLowerBound` | libraries/app/api.cpp:413 | every bucket before the bound has a smaller key and none from it on does |
| `MarketHistory.BucketRun` | libraries/app/api.cpp:414-422 | the scan never collects more than `room` buckets |
| `MarketHistory.BucketRunInSeries` | libraries/app/api.cpp:414-420 | every collected bucket is of the requested series and opens no later than `end` |
| `MarketHistory.BucketRunIsContiguous` | libraries/app/api.cpp:414-422 | the scan returns consecutive buckets of the index |
| `MarketHistory.GetMarketHistory` | libraries/app/api.cpp:397-425 | the swap, the lower bound and the loop give `MarketHistory` of the inputs |
| `MarketHistory.ScanBuckets` | libraries/app/api.cpp:413-423 | the loop, with its early return on a foreign key, gives `BucketRun` from the lower bound |
| `MarketHistory.MarketHistorySymmetric` | libraries/app/api.cpp:408 | `(a, b)` and `(b, a)` return the same buckets |
| `MarketHistory.MarketHistoryBuckets` | libraries/app/api.cpp:408-422 | every bucket has the canonical base and quote, the requested width and `start <= open <= end`; the result is a contiguous run of the index, in ascending key order, at most 200 long |
| `MarketHistory.MarketHistoryIsWindow` | libraries/app/api.cpp:413-422 | the result is exactly the first 200 buckets of the series opening in `[start, end]`: nothing in the window is skipped |
| `MarketHistory.SeriesWindowSkipsBelow` | libraries/app/api.cpp:413 | no bucket before the lower bound lies in the window |
| `MarketHistory.SeriesWindowEmptyAbove` | libraries/app/api.cpp:414-419 | past a bucket whose key is beyond the window, no bucket of the window follows |
| `MarketHistory.BucketRunIsWindow` | libraries/app/api.cpp:414-422 | from the lower bound, the scan yields the window's first `room` buckets |
| `MarketHistory.BucketWindowExample` | libraries/app/api.cpp:413-422 | buckets of (1, 2), width 60, opening 100, 160 and 220, with window [150, 300], give those opening 160 and 220 |
| `MarketHistory.FillLowerBound` | libraries/app/api.cpp:436-442 | the first fill whose key is not below `(base, quote, INT64_MIN)` |
| `MarketHistory.FillRun` | libraries/app/api.cpp:444-450 | the scan never collects more than `limit` fills |
| `MarketHistory.FillRunOfPair` | libraries/app/api.cpp:444-447 | every collected fill belongs to the pair |
| `MarketHistory.FillRunIsContiguous` | libraries/app/api.cpp:444-450 | the scan returns consecutive fills of the index |
| `MarketHistory.GetFillOrderHistory` | libraries/app/api.cpp:427-454 | the swap, the lower bound and the loop give `FillHistory` of the inputs |
| `MarketHistory.ScanFills` | libraries/app/api.cpp:441-450 | the counting loop with its break on a foreign pair gives `FillRun` from the lower bound |
| `MarketHistory.FillHistorySymmetric` | libraries/app/api.cpp:434 | `(a, b)` and `(b, a)` return the same fills |
| `MarketHistory.FillHistoryIsFirstFills` | libraries/app/api.cpp:434-450 | the result is the first `min(limit, n)` fills of the canonical pair in index order, `n` being how many there are; `limit` 0 gives nothing |
| `MarketHistory.PairFillsSkipsBelow` | libraries/app/api.cpp:436-442 | no fill before the lower bound belongs to the pair, since every sequence is at least `INT64_MIN` |
| `MarketHistory.PairFillsEmptyAbove` | libraries/app/api.cpp:446 | past a fill of a greater pair no fill of the pair follows |
| `MarketHistory.FillRunIsPairFills` | libraries/app/api.cpp:444-450 | from the lower bound, the scan yields the pair's first `limit` fills |
| `MarketHistory.FillHistoryEntries` | libraries/app/api.cpp:434-450 | at most `limit` fills, all of the canonical pair, in ascending key order |
| `NetworkBroadcast.Confirmations` | libraries/app/api.cpp:135-149 | each confirmation carries a registered transaction of the block, its position `trx_num`, its id, the block number and the registered callback; positions strictly increase (block order) |
| `NetworkBroadcast.NetworkBroadcastApi.constructor` | libraries/app/api.cpp:124-127 | the registry starts empty |
| `NetworkBroadcast.NetworkBroadcastApi.BroadcastTransactionWithCallback` | libraries/app/api.cpp:190-197 | the registry afterwards is the old one with the transaction's id mapped to the new callback, overwriting any earlier one |
| `NetworkBroadcast.NetworkBroadcastApi.OnAppliedBlock` | libraries/app/api.cpp:129-151 | returns the block's confirmations; the method has no `modifies` clause, so the registry is unchanged |
| `NetworkBroadcast.EmptyRegistryConfirmsNothing` | libraries/app/api.cpp:131 | with nothing registered no confirmation is produced |
| `NetworkBroadcast.ConfirmationsComplete` | libraries/app/api.cpp:135-149 | every block transaction whose id is registered gets a confirmation with its position |
| `NetworkBroadcast.ConfirmationsCount` | libraries/app/api.cpp:135-149 | there are exactly as many confirmations as registered transactions in the block |
| `NetworkBroadcast.RegisterTwiceConfirmOnce` | libraries/app/api.cpp:193 | registering two callbacks for one transaction, then applying it, yields exactly one confirmation, for the second callback |
| `NetworkBroadcast.RegistrationOutlivesConfirmation` | libraries/app/api.cpp:139-148 | a confirmed registration stays: applying the transaction again confirms it again |
| `BlockApi.GetBlocks` | libraries/app/api.cpp:114-122 | fails exactly when `to < from`; otherwise returns `to - from + 1` entries, entry `i` being the fetch of block `from + i`, which is the loop state after `to - from + 1` iterations |
| `BlockApi.NeverExitsAtMax` | libraries/app/api.cpp:118-120 | after any number n of loop iterations the counter is `(from + n) mod 2^32`, the guard `block_num <= UINT32_MAX` still holds and `res` holds n blocks, so with `to == UINT32_MAX` the loop never exits; incrementing `UINT32_MAX` wraps to 0 |
| `BlockApi.GetBlocksWide` | libraries/app/api.cpp:114-122 | the same result for every uint32 range, `UINT32_MAX` included |
| `CustomVote.ValidateCreate` | libraries/chain/protocol/custom_vote.cpp:10-22 | accepts exactly when the fee and creator uid checks pass, `1 < |options| < 256`, `min <= max`, `min > 0`, `max < |options|` and `required_asset_amount > 0` |
| `CustomVote.AcceptedCreateBounds` | libraries/chain/protocol/custom_vote.cpp:15-20 | an accepted operation has `0 < min <= max < |options| <= 255` and a positive required amount |
| `CustomVote.RejectionIsFirstViolation` | libraries/chain/protocol/custom_vote.cpp:12-20 | a rejection names a violated assertion, and every assertion checked before it (the fee check, the uid check and the earlier bounds) holds |
| `CustomVote.CreateFee` | libraries/chain/protocol/custom_vote.cpp:24-31 | the create fee exceeds `k.fee` by exactly the data fee for `pack_size(description) + pack_size(options)` bytes at `price_per_kbyte` |
| `CustomVote.CreateFeeOfData` | libraries/chain/protocol/custom_vote.cpp:24-31 | the create fee depends on the operation only through its description and options |
| `CustomVote.CreateFeeAtLeastBase` | libraries/chain/protocol/custom_vote.cpp:24-31 | with a non-negative data fee schedule the create fee is at least `k.fee` |
| `CustomVote.CreateFeeMonotone` | libraries/chain/protocol/custom_vote.cpp:27-29 | with a data fee schedule that never falls as the byte count grows, an operation whose description and options pack to more bytes pays at least as much |
| `CustomVote.ValidateCast` | libraries/chain/protocol/custom_vote.cpp:33-37 | accepts exactly when the fee and voter uid checks pass; no other field is checked |
| `CustomVote.CastFee` | libraries/chain/protocol/custom_vote.cpp:39-43 | the cast fee is `k.fee` |
| `CustomVote.CastFeeIgnoresContents` | libraries/chain/protocol/custom_vote.cpp:39-43 | the cast fee is `k.fee` whatever the operation holds |

## Findings

| source | as written | input that shows it | evidently intended | confidence | as-written member | corrected member |
|---|---|---|---|---|---|---|
| libraries/app/api.cpp:118 | the loop counter is a `uint32_t` and the guard is `block_num <= block_num_to` | `get_blocks(from, 0xFFFFFFFF)` for any `from`: the guard never fails, the counter wraps from `0xFFFFFFFF` to 0, and the loop never ends while the result keeps growing | fetch blocks `from` to `0xFFFFFFFF` and return | high (not executed) | `BlockApi.NeverExitsAtMax` | `BlockApi.GetBlocksWide` |

## Left out

- `login_api::login` and `enable_api`: password hashing with sha256/base64 and string-keyed construction of the API objects.
- The accessor getters of `login_api`, `network_node_api`, `crypto_api` and `asset_api`: pass-through wrappers, foreign elliptic-curve code, and holder counts the code itself marks as unfinished.
- `broadcast_transaction`, `broadcast_transaction_batch` and `broadcast_block` are not modelled. Neither are the precompute, push and peer-broadcast calls inside `broadcast_transaction_with_callback`. All of these are calls into the ledger store and the p2p network.
- `NetworkBroadcast.NetworkBroadcastApi.BroadcastTransactionWithCallback` covers only the registration step. A failure of the precompute step, which happens before registration, is not modelled.
- `broadcast_transaction_synchronous` is not modelled. It waits on a promise that the asynchronous delivery fulfils, and that is concurrency.
- Asynchronous delivery through `fc::async` is not modelled. Neither is the `shared_from_this` lifetime capture. Delivery is a returned list in block order.
- Serialising a confirmation into a `fc::variant` is not modelled.
- Resolving asset symbols to ids is not modelled. Both market queries take already-resolved ids.
- Looking up the account, its statistics object and the history objects in the database is not modelled. The chain and the statistics counters are parameters.
- `FC_ASSERT(_app.chain_database())` is not modelled.
- In the chain walks, the null id is instance 0. A chain node whose own id has instance 0 would be taken for the null sentinel. The model does not capture this aliasing, because the chain is a sequence.
- `RelativeHistory.GetRelativeAccountHistory` without a type filter steps back once before it compares with the lower bound. So it requires the open window to hold an entry of the account. With an empty window both bounds are the same position p. The source then steps back to the entry at p - 1 and returns up to `limit` entries from below the window: another account's entries, or this account's entries below `stop`. The behaviour is undefined only when p < `limit`, because the scan then runs past the index's first entry. The model does not capture this out-of-window result. `RetainedHistoryFillsWindow` shows that an index holding all retained sequences meets this requirement.
- `BlockApi.GetBlocks` requires `to < UINT32_MAX`, because at `UINT32_MAX` the source never terminates (see Findings).
- The chain walk and the sequence index are not cross-checked against each other. The chain carries no sequence numbers in this model.
- The widths of `limit`, `stop`, `start` and the id instances are unbounded naturals. The source compares them and increments only bounded counters, so no wrap-around arises outside `get_blocks`.
- `CustomVote.CreateFee` adds with unbounded integers. The source's `share_type` additions would throw on an int64 overflow, and its `size_t` sum of the two pack sizes (`hash_size +=`, libraries/chain/protocol/custom_vote.cpp:27-28) wraps modulo 2^64, which the model's `nat` sum does not; neither can happen for operations of a realistic size.
- The field widths of `minimum_selected_items` and `maximum_selected_items` are not in the source files read. The model uses naturals.
