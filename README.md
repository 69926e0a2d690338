# Staking backend sync: a Dafny model

The staking backend mirrors on-chain `Staked`, `Unstaked` and `UnstakedEarly`
events into a `stakes` collection. It then serves the Active stakes over HTTP.
This project models the core of `index.js` and proves properties about it:

- **The stake store** (`stake_store.dfy`, module `StakeStore`). The collection
  is a sequence of records `{user, poolId, amount, startTime, status}` in
  natural (insertion) order. The model covers:
  - `upsertStake`: an update keyed on `(user, poolId, startTime)` that
    inserts the record when the key is missing.
  - `markUnstaked`: an update with no upsert. It changes the status of the
    first Active record with the same user, pool and amount.
  - the active-stakes read, which filters on `status == "active"`.

  In the backfill, `startTime` holds the block number of the Staked event
  (index.js:59).
- **The collection handle** (`collection.dfy`, module `Collection`). The class
  `StakesCollection` holds the records and changes them in place through
  `UpsertStake` and `MarkUnstaked`. Each method is proved equal to the pure
  function of the same name.
- **The backfill batches** (`backfill.dfy`, module `Backfill`). `BatchRanges`
  is the `for (fromBlock …; fromBlock += BATCH_SIZE)` loop. It produces the
  closed ranges `[from, min(from + 999, latest)]`, with `BATCH_SIZE = 1000`.
- **The sync** (`sync.dfy`, module `Sync`). The chain is an input: the list of
  its events in emission order. `queryFilter` is `QueryFilter`, which keeps the
  events of one kind whose block lies in the range. For each batch,
  `SyncBatch` applies the Staked events, then the Unstaked events, then the
  UnstakedEarly events. `ListenEvents` runs the batches in order. `OnEvent` is
  a live callback, and it applies the same helper to one event.

### Re-delivered and out-of-order events

Under at-least-once delivery, a re-delivered event is not always harmless,
and the final store can depend on delivery order:

- A Staked event delivered again after its stake was unstaked makes the record
  Active again, because the upsert overwrites `status`
  (`StakeStore.StakedReplayReactivates`).
- An Unstaked event delivered again is not a no-op when a second Active stake
  has the same user, pool and amount. The repeat unstakes that second stake
  (`StakeStore.RepeatedUnstakeConsumesSecondStake`). The repeat is a no-op
  only when at most one Active record matches
  (`StakeStore.MarkUnstakedIdempotentWhenSingle`).
- An Unstaked event that arrives before its Staked event is dropped. Nothing
  retries it.
- Inside one backfill batch, events are applied by kind (Staked, then
  Unstaked, then UnstakedEarly), not in emission order. An Unstaked event at
  block 10 whose stake is not in the store, followed by a Staked event with
  the same user, pool and amount at block 20, leaves no Active record in the
  batch order. Emission order would leave one
  (`Sync.BatchOrderIsNotEmissionOrder`).

## Model

| member | source | states |
|---|---|---|
| `StakeStore.Upsert` | index.js:25-31 | The result holds the record `(user, poolId, amount, startTime, status)`. It grows by exactly one record iff no record had the key. Every existing record keeps its position and its key. Records with another key are unchanged. |
| `StakeStore.UpsertKeepsKeysUnique` | index.js:26-30 | If keys were unique before the upsert, they stay unique. Exactly one record has the key `(user, poolId, startTime)`, and its fields are the upserted ones. |
| `StakeStore.UpsertIdempotent` | index.js:26-30 | Two upserts with the same arguments give the same store as one. |
| `StakeStore.StakedReplayReactivates` | index.js:26-30 | Staked, then Unstaked, then the same Staked again, leaves the stake Active. |
| `StakeStore.MarkUnstaked` | index.js:34-39 | The length and every key are unchanged, so no record is inserted or deleted. The store is unchanged iff no Active record matches user, pool and amount. At most one record changes. The changed record is the first such match, and only its status changes, to Unstaked. |
| `StakeStore.MarkUnstakedCounts` | index.js:35-38 | The number of Unstaked records grows by exactly one when a record changed, and by zero otherwise. The number of Active records falls by the same amount. |
| `StakeStore.MarkUnstakedIdempotentWhenSingle` | index.js:35-38 | When at most one Active record matches, a second identical `markUnstaked` changes nothing. |
| `StakeStore.RepeatedUnstakeConsumesSecondStake` | index.js:35-38 | With two Active stakes of the same user, pool and amount, a repeated `markUnstaked` unstakes both. |
| `StakeStore.ActiveStakes` | index.js:103 | A record is in the result iff it is in the store with status Active. The result is no longer than the store. |
| `StakeStore.ActiveStakesAppend` | index.js:103 | The filter distributes over concatenation, so the result keeps store order. |
| `Collection.StakesCollection.constructor` | index.js:111 | The handle starts with the records the collection already holds. |
| `Collection.StakesCollection.UpsertStake` | index.js:25-31 | The new records equal `Upsert` of the old ones. Unique keys are preserved. |
| `Collection.StakesCollection.MarkUnstaked` | index.js:34-39 | The new records equal `MarkUnstaked` of the old ones. Unique keys are preserved. |
| `Backfill.BatchRanges` | index.js:48-50 | The loop's ranges equal `Ranges(startBlock, latestBlock)`. |
| `Backfill.RangesShape` | index.js:48-50 | The ranges are empty iff start > latest. The first range starts at the start block and the last ends at the latest block. Each range lies inside `[start, latest]`, spans at most `BATCH_SIZE` blocks, and starts right after the previous one ends. |
| `Backfill.RangesClosedForm` | index.js:49-50 | Range i is `[start + 1000·i, min(start + 1000·i + 999, latest)]`. There are `(latest − start) / 1000 + 1` ranges when start ≤ latest, and none otherwise. |
| `Backfill.RangesDisjoint` | index.js:49-50 | Every earlier range ends before every later range starts. |
| `Backfill.RangesCover` | index.js:49-50 | A block lies in some range iff it lies in `[start, latest]`. |
| `Backfill.ThreeBatchesUpTo2500` | index.js:48-50 | Start 0 and height 2500 give `[0,999]`, `[1000,1999]` and `[2000,2500]`. |
| `Sync.QueryFilter` | index.js:53 | Every returned event has the queried kind and its block inside `[fromBlock, toBlock]`. The result is no longer than the chain. |
| `Sync.QueryFilterMembers` | index.js:53 | An event is returned iff it is on the chain, has the queried kind and has its block inside `[fromBlock, toBlock]`. |
| `Sync.QuerySplit` | index.js:53 | On a chain in block order, the query over `[a, b]` is the query over `[a, m−1]` followed by the query over `[m, b]`. |
| `Sync.BackfillQueriesEachEventOnce` | index.js:49-80 | On a chain in block order, the batch queries of each kind together return exactly the events of that kind in `[start, latest]`, once each and in emission order. |
| `Sync.ApplyEvent` | index.js:87-98 | Applying one event never removes a record or changes the position or key of an existing record. It adds at most one record, and only a Staked event can add one. |
| `Sync.ApplyEvents` | index.js:54-62 | Applying a list of events adds at most one record per event. Existing records keep their position and key. |
| `Sync.ApplyBatches` | index.js:49-84 | Applying the batches in order never shrinks the store and never re-keys an existing record. |
| `Sync.ApplyEventKeepsKeysUnique` | index.js:87-98 | One applied event keeps keys unique. |
| `Sync.ApplyEventsKeepsKeysUnique` | index.js:54-80 | A list of applied events keeps keys unique. |
| `Sync.ApplyBatchesKeepsKeysUnique` | index.js:49-84 | The backfill batches keep keys unique. |
| `Sync.ApplyEventList` | index.js:54-62 | The collection after the loop equals `ApplyEvents` of its old records and the queried list. |
| `Sync.SyncBatch` | index.js:52-80 | The collection after a batch is its old records with the Staked events applied, then the Unstaked events, then the UnstakedEarly events. |
| `Sync.ListenEvents` | index.js:42-84 | The collection after the backfill is `ApplyBatches` over `Ranges(start, latest)`. Unique keys are preserved. Nothing changes when start > latest. |
| `Sync.OnEvent` | index.js:87-98 | A live callback changes the collection exactly as `ApplyEvent` does. A Staked event is keyed on the event's block; see "## Left out" for how the live code reads that block. |
| `Sync.BatchOrderIsNotEmissionOrder` | index.js:52-80 | For an Unstaked event at block 10 followed by a Staked event of the same user, pool and amount at block 20, the batch order leaves no Active record. Applying the same events in emission order leaves the one Active record. |
| `Sync.ActiveAfterStaked` | index.js:55-61 | After one Staked event, the active-stakes read returns exactly its record, with status Active. |
| `Sync.NotActiveAfterUnstaked` | index.js:64-71 | After a Staked event and the matching Unstaked event, the active-stakes read returns nothing. |

## Left out

- HTTP: the Express app, the route wiring and `app.listen` are not modelled. Only the filter inside the active-stakes route is (`ActiveStakes`).
- MongoDB: the client, the database and the collection handle are replaced by the in-memory `StakesCollection`. The `_id` field is not modelled. A single-document update is assumed to pick the first match in natural order. MongoDB does not promise that order without a sort.
- Chain: the `JsonRpcProvider`, the `Contract`, `getBlockNumber` and `queryFilter` are not called. The chain's event list and `latestBlock` are inputs, and `queryFilter` is the function `QueryFilter`.
- Live subscriptions: `contract.on` and its three concurrent callback streams are not modelled. `OnEvent` models one callback applying one event. The model does not capture event interleaving across streams. It also does not capture events emitted after `latestBlock` was read but before the subscriptions started. The code sees no such event, and the model does not cover them.
- Failures: a rejected `await` (RPC or store error) aborts `listenEvents` in the code. The model has no failing calls and no retries.
- Configuration and logging: `dotenv`, `process.env`, `parseInt(START_BLOCK)` (including a NaN result) and `console.log` are not modelled. The start block is a plain `int` parameter.
- Conversions: `Number(poolId)` and `amount.toString()` are not modelled. `poolId` is a `nat` without the 2^53 precision limit, and `amount` is a `string` compared by equality.
- The `reward` argument of `Unstaked` is read by neither helper, so `ChainEvent` does not carry it.
- Sync.OnEvent: the model assumes the live Staked callback's `event.blockNumber` (index.js:88) is the event's block. Under ethers v6 the callback's last argument is an event payload that carries the block at `event.log.blockNumber`, so the code as written passes an undefined start time. Every live stake of one (user, poolId) then shares one key and overwrites the same record. In the model, two live stakes at different blocks stay two records. The ethers library is not part of this model.
- `Sync.ApplyEventList` dispatches on the event's kind. Each source loop instead calls one fixed helper. The two agree because `queryFilter` returns only events of the queried kind.
