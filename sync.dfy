/** The event sync: chain events turned into the two store writes, the
    per-batch apply order of the historical backfill (Staked, then Unstaked,
    then UnstakedEarly), the backfill over all batches, and the live
    callbacks, which apply each event with the same helpers. The chain is
    given as the list of its events in emission order; a range query returns
    the events of one kind whose block lies in the range. */
module Sync {
  import opened StakeStore
  import opened Backfill
  import opened Collection

  datatype EventKind = Staked | Unstaked | UnstakedEarly

  /** A contract event with the arguments the sync code reads. */
  datatype ChainEvent = ChainEvent(kind: EventKind, user: string, poolId: nat, amount: string, blockNumber: nat)

  /** The chain emits its events in non-decreasing block order. */
  ghost predicate InBlockOrder(chain: seq<ChainEvent>) {
    forall i, j :: 0 <= i < j < |chain| ==> chain[i].blockNumber <= chain[j].blockNumber
  }

  predicate Selected(e: ChainEvent, kind: EventKind, fromBlock: int, toBlock: int) {
    e.kind == kind && fromBlock <= e.blockNumber <= toBlock
  }

  /** `queryFilter(kind, fromBlock, toBlock)`: the events of `kind` emitted in
      blocks fromBlock..toBlock, in emission order. */
  function QueryFilter(chain: seq<ChainEvent>, kind: EventKind, fromBlock: int, toBlock: int): (r: seq<ChainEvent>)
    ensures |r| <= |chain|
    ensures forall i :: 0 <= i < |r| ==> Selected(r[i], kind, fromBlock, toBlock)
  {
    if chain == [] then []
    else (if Selected(chain[0], kind, fromBlock, toBlock) then [chain[0]] else [])
         + QueryFilter(chain[1..], kind, fromBlock, toBlock)
  }

  /** An event is returned by a query exactly when it is on the chain, has
      the queried kind and lies in the queried blocks. */
  lemma {:induction false} QueryFilterMembers(chain: seq<ChainEvent>, kind: EventKind, fromBlock: int, toBlock: int, e: ChainEvent)
    ensures e in QueryFilter(chain, kind, fromBlock, toBlock) <==> e in chain && Selected(e, kind, fromBlock, toBlock)
  {
    if chain != [] {
      QueryFilterMembers(chain[1..], kind, fromBlock, toBlock, e);
      assert chain == [chain[0]] + chain[1..];
    }
  }

  /** One event applied to the store: a Staked event upserts an Active record
      whose start time is the event's block; Unstaked and UnstakedEarly both
      mark the matching Active stake as unstaked. No record is removed or
      re-keyed. */
  function ApplyEvent(s: Store, e: ChainEvent): (r: Store)
    ensures |s| <= |r| <= |s| + 1
    ensures forall j :: 0 <= j < |s| ==> r[j].Key() == s[j].Key()
    ensures e.kind != Staked ==> |r| == |s|
  {
    match e.kind
    case Staked => Upsert(s, e.user, e.poolId, e.amount, e.blockNumber, Active)
    case Unstaked => MarkUnstaked(s, e.user, e.poolId, e.amount)
    case UnstakedEarly => MarkUnstaked(s, e.user, e.poolId, e.amount)
  }

  /** A list of events applied one after the other; the store never shrinks
      and the records already present keep their place and key. */
  function ApplyEvents(s: Store, events: seq<ChainEvent>): (r: Store)
    ensures |s| <= |r| <= |s| + |events|
    ensures forall j :: 0 <= j < |s| ==> r[j].Key() == s[j].Key()
  {
    if events == [] then s
    else ApplyEvent(ApplyEvents(s, events[..|events| - 1]), events[|events| - 1])
  }

  /** One batch of the backfill: the Staked events of the range, then its
      Unstaked events, then its UnstakedEarly events. */
  function ApplyBatch(s: Store, chain: seq<ChainEvent>, range: BlockRange): Store {
    var staked := ApplyEvents(s, QueryFilter(chain, Staked, range.from, range.to));
    var unstaked := ApplyEvents(staked, QueryFilter(chain, EventKind.Unstaked, range.from, range.to));
    ApplyEvents(unstaked, QueryFilter(chain, UnstakedEarly, range.from, range.to))
  }

  /** The batches applied in order. */
  function ApplyBatches(s: Store, chain: seq<ChainEvent>, ranges: seq<BlockRange>): (r: Store)
    ensures |s| <= |r|
    ensures forall j :: 0 <= j < |s| ==> r[j].Key() == s[j].Key()
  {
    if ranges == [] then s
    else ApplyBatch(ApplyBatches(s, chain, ranges[..|ranges| - 1]), chain, ranges[|ranges| - 1])
  }

  /** The store after the historical backfill from `startBlock` to `latestBlock`. */
  function Backfilled(s: Store, chain: seq<ChainEvent>, startBlock: int, latestBlock: int): Store {
    ApplyBatches(s, chain, Ranges(startBlock, latestBlock))
  }

  /** The events of `kind` that the batches query, concatenated in batch order. */
  function QueriedEvents(chain: seq<ChainEvent>, kind: EventKind, ranges: seq<BlockRange>): seq<ChainEvent> {
    if ranges == [] then []
    else QueryFilter(chain, kind, ranges[0].from, ranges[0].to) + QueriedEvents(chain, kind, ranges[1..])
  }

  // ---------------------------------------------------------------------------
  // The sync code, acting on the collection in place.

  /** Apply a queried list of events in order, each with the helper its kind calls. */
  method ApplyEventList(store: StakesCollection, events: seq<ChainEvent>)
    modifies store
    ensures store.records == ApplyEvents(old(store.records), events)
  {
    for i := 0 to |events|
      invariant store.records == ApplyEvents(old(store.records), events[..i])
    {
      var ev := events[i];
      match ev.kind {
        case Staked => store.UpsertStake(ev.user, ev.poolId, ev.amount, ev.blockNumber, Active);
        case Unstaked => store.MarkUnstaked(ev.user, ev.poolId, ev.amount);
        case UnstakedEarly => store.MarkUnstaked(ev.user, ev.poolId, ev.amount);
      }
      assert events[..i + 1][..i] == events[..i];
    }
    assert events[..|events|] == events;
  }

  /** The body of the backfill loop for one batch [from, to]. */
  method SyncBatch(store: StakesCollection, chain: seq<ChainEvent>, range: BlockRange)
    modifies store
    ensures store.records == ApplyBatch(old(store.records), chain, range)
  {
    var stakedEvents := QueryFilter(chain, Staked, range.from, range.to);
    ApplyEventList(store, stakedEvents);
    var unstakedEvents := QueryFilter(chain, EventKind.Unstaked, range.from, range.to);
    ApplyEventList(store, unstakedEvents);
    var unstakedEarlyEvents := QueryFilter(chain, UnstakedEarly, range.from, range.to);
    ApplyEventList(store, unstakedEarlyEvents);
  }

  /** The historical part of `listenEvents`: every batch from `startBlock` to
      `latestBlock`, in order. Keys stay unique and no record is lost. */
  method ListenEvents(store: StakesCollection, chain: seq<ChainEvent>, startBlock: int, latestBlock: int)
    modifies store
    ensures store.records == Backfilled(old(store.records), chain, startBlock, latestBlock)
    ensures KeysUnique(old(store.records)) ==> KeysUnique(store.records)
    ensures startBlock > latestBlock ==> store.records == old(store.records)
  {
    var batches := BatchRanges(startBlock, latestBlock);
    RangesShape(startBlock, latestBlock);
    for i := 0 to |batches|
      invariant store.records == ApplyBatches(old(store.records), chain, batches[..i])
    {
      SyncBatch(store, chain, batches[i]);
      assert batches[..i + 1][..i] == batches[..i];
    }
    assert batches[..|batches|] == batches;
    if KeysUnique(old(store.records)) {
      ApplyBatchesKeepsKeysUnique(old(store.records), chain, batches);
    }
  }

  /** A live callback (Staked, Unstaked or UnstakedEarly): the same helper the
      backfill applies, on the single event delivered. The Staked callback is
      taken to receive the event's block as its start time. */
  method OnEvent(store: StakesCollection, ev: ChainEvent)
    modifies store
    ensures store.records == ApplyEvent(old(store.records), ev)
  {
    match ev.kind
    case Staked => store.UpsertStake(ev.user, ev.poolId, ev.amount, ev.blockNumber, Active);
    case Unstaked => store.MarkUnstaked(ev.user, ev.poolId, ev.amount);
    case UnstakedEarly => store.MarkUnstaked(ev.user, ev.poolId, ev.amount);
  }

  // ---------------------------------------------------------------------------
  // Properties.

  lemma ApplyEventKeepsKeysUnique(s: Store, e: ChainEvent)
    requires KeysUnique(s)
    ensures KeysUnique(ApplyEvent(s, e))
  {
    if e.kind == Staked {
      UpsertKeepsKeysUnique(s, e.user, e.poolId, e.amount, e.blockNumber, Active);
    }
  }

  lemma {:induction false} ApplyEventsKeepsKeysUnique(s: Store, events: seq<ChainEvent>)
    requires KeysUnique(s)
    ensures KeysUnique(ApplyEvents(s, events))
  {
    if events != [] {
      ApplyEventsKeepsKeysUnique(s, events[..|events| - 1]);
      ApplyEventKeepsKeysUnique(ApplyEvents(s, events[..|events| - 1]), events[|events| - 1]);
    }
  }

  lemma {:induction false} ApplyBatchesKeepsKeysUnique(s: Store, chain: seq<ChainEvent>, ranges: seq<BlockRange>)
    requires KeysUnique(s)
    ensures KeysUnique(ApplyBatches(s, chain, ranges))
  {
    if ranges != [] {
      var prev := ApplyBatches(s, chain, ranges[..|ranges| - 1]);
      var range := ranges[|ranges| - 1];
      ApplyBatchesKeepsKeysUnique(s, chain, ranges[..|ranges| - 1]);
      var staked := ApplyEvents(prev, QueryFilter(chain, Staked, range.from, range.to));
      var unstaked := ApplyEvents(staked, QueryFilter(chain, EventKind.Unstaked, range.from, range.to));
      ApplyEventsKeepsKeysUnique(prev, QueryFilter(chain, Staked, range.from, range.to));
      ApplyEventsKeepsKeysUnique(staked, QueryFilter(chain, EventKind.Unstaked, range.from, range.to));
      ApplyEventsKeepsKeysUnique(unstaked, QueryFilter(chain, UnstakedEarly, range.from, range.to));
    }
  }

  /** A query over a range none of whose events reaches `m` returns nothing
      before block `m`. */
  lemma {:induction false} QueryBelowEmpty(chain: seq<ChainEvent>, kind: EventKind, fromBlock: int, m: int)
    requires forall j :: 0 <= j < |chain| ==> chain[j].blockNumber >= m
    ensures QueryFilter(chain, kind, fromBlock, m - 1) == []
  {
    if chain != [] {
      forall j | 0 <= j < |chain[1..]| ensures chain[1..][j].blockNumber >= m {
        assert chain[1..][j] == chain[j + 1];
      }
      QueryBelowEmpty(chain[1..], kind, fromBlock, m);
    }
  }

  /** The tail of a chain in block order is in block order, and no event of
      the tail lies before the head. */
  lemma TailInBlockOrder(chain: seq<ChainEvent>)
    requires InBlockOrder(chain) && chain != []
    ensures InBlockOrder(chain[1..])
    ensures forall j :: 0 <= j < |chain[1..]| ==> chain[1..][j].blockNumber >= chain[0].blockNumber
  {
    var rest := chain[1..];
    forall i, j | 0 <= i < j < |rest| ensures rest[i].blockNumber <= rest[j].blockNumber {
      assert rest[i] == chain[i + 1] && rest[j] == chain[j + 1];
    }
    forall j | 0 <= j < |rest| ensures rest[j].blockNumber >= chain[0].blockNumber {
      assert rest[j] == chain[j + 1];
    }
  }

  /** A query over a non-empty chain: the head if selected, then the query over the tail. */
  lemma QueryUnfold(chain: seq<ChainEvent>, kind: EventKind, fromBlock: int, toBlock: int)
    requires chain != []
    ensures QueryFilter(chain, kind, fromBlock, toBlock)
         == (if Selected(chain[0], kind, fromBlock, toBlock) then [chain[0]] else []) + QueryFilter(chain[1..], kind, fromBlock, toBlock)
  {
  }

  /** One step of QuerySplit: the split of the tail extends to the whole chain
      when no event of the tail lies before the head. */
  lemma QuerySplitStep(chain: seq<ChainEvent>, kind: EventKind, a: int, m: int, b: int)
    requires chain != [] && a <= m <= b + 1
    requires forall j :: 0 <= j < |chain[1..]| ==> chain[1..][j].blockNumber >= chain[0].blockNumber
    requires QueryFilter(chain[1..], kind, a, m - 1) + QueryFilter(chain[1..], kind, m, b) == QueryFilter(chain[1..], kind, a, b)
    ensures QueryFilter(chain, kind, a, m - 1) + QueryFilter(chain, kind, m, b) == QueryFilter(chain, kind, a, b)
  {
    var e, rest := chain[0], chain[1..];
    var low, high, whole := QueryFilter(rest, kind, a, m - 1), QueryFilter(rest, kind, m, b), QueryFilter(rest, kind, a, b);
    var inLow, inHigh, inWhole := Selected(e, kind, a, m - 1), Selected(e, kind, m, b), Selected(e, kind, a, b);
    QueryUnfold(chain, kind, a, m - 1);
    QueryUnfold(chain, kind, m, b);
    QueryUnfold(chain, kind, a, b);
    assert inWhole <==> inLow || inHigh;
    if inLow {
      assert !inHigh;
      assert ([e] + low) + high == [e] + (low + high);
    } else if inHigh {
      QueryBelowEmpty(rest, kind, a, m);
      assert low == [];
    }
  }

  /** On a chain in block order, a query over [a, b] is the query over
      [a, m - 1] followed by the query over [m, b]. */
  lemma {:induction false} QuerySplit(chain: seq<ChainEvent>, kind: EventKind, a: int, m: int, b: int)
    requires InBlockOrder(chain)
    requires a <= m <= b + 1
    ensures QueryFilter(chain, kind, a, m - 1) + QueryFilter(chain, kind, m, b) == QueryFilter(chain, kind, a, b)
  {
    if chain != [] {
      TailInBlockOrder(chain);
      QuerySplit(chain[1..], kind, a, m, b);
      QuerySplitStep(chain, kind, a, m, b);
    }
  }

  /** The backfill queries every event of each kind in [startBlock, latestBlock]
      exactly once, and in emission order: together the batches return what
      one query over the whole range would. */
  lemma {:induction false} BackfillQueriesEachEventOnce(chain: seq<ChainEvent>, kind: EventKind, startBlock: int, latestBlock: int)
    requires InBlockOrder(chain)
    ensures QueriedEvents(chain, kind, Ranges(startBlock, latestBlock)) == QueryFilter(chain, kind, startBlock, latestBlock)
    decreases latestBlock - startBlock
  {
    var whole := QueryFilter(chain, kind, startBlock, latestBlock);
    if startBlock > latestBlock {
      if whole != [] {
        assert whole[0] in whole;
      }
    } else {
      var next := startBlock + BATCH_SIZE;
      var toBlock := Min(next - 1, latestBlock);
      var ranges := Ranges(startBlock, latestBlock);
      assert ranges == [BlockRange(startBlock, toBlock)] + Ranges(next, latestBlock);
      assert ranges[1..] == Ranges(next, latestBlock);
      BackfillQueriesEachEventOnce(chain, kind, next, latestBlock);
      if next <= latestBlock {
        QuerySplit(chain, kind, startBlock, next, latestBlock);
      }
    }
  }

  /** After a Staked event alone, the active-stakes read returns its record. */
  lemma ActiveAfterStaked(user: string, poolId: nat, amount: string, block: nat)
    ensures ActiveStakes(ApplyEvents([], [ChainEvent(Staked, user, poolId, amount, block)]))
         == [StakeRecord(user, poolId, amount, block, Active)]
  {
    var events := [ChainEvent(Staked, user, poolId, amount, block)];
    assert events[..0] == [];
    assert ApplyEvents([], events) == Upsert([], user, poolId, amount, block, Active);
  }

  /** After a Staked event and the Unstaked event of the same user, pool and
      amount, the active-stakes read no longer returns the stake. */
  lemma NotActiveAfterUnstaked(user: string, poolId: nat, amount: string, block: nat, laterBlock: nat)
    ensures ActiveStakes(ApplyEvents([], [ChainEvent(Staked, user, poolId, amount, block),
                                           ChainEvent(EventKind.Unstaked, user, poolId, amount, laterBlock)])) == []
  {
    var stake := ChainEvent(Staked, user, poolId, amount, block);
    var events := [stake, ChainEvent(EventKind.Unstaked, user, poolId, amount, laterBlock)];
    assert events[..1] == [stake];
    assert [stake][..0] == [];
    var staked := Upsert([], user, poolId, amount, block, Active);
    assert staked == [StakeRecord(user, poolId, amount, block, Active)];
    assert ApplyEvents([], events) == MarkUnstaked(staked, user, poolId, amount);
    assert FirstMatch(staked, ActiveWith(user, poolId, amount)) == 0;
    assert MarkUnstaked(staked, user, poolId, amount) == [StakeRecord(user, poolId, amount, block, Status.Unstaked)];
  }

  /** Within one batch the apply order is by kind, not by emission: an
      Unstaked event at block 10 whose stake is not in the store, followed by
      a Staked event of the same user, pool and amount at block 20, leaves no
      Active record in the batch order but one in emission order. */
  lemma BatchOrderIsNotEmissionOrder(user: string, poolId: nat, amount: string)
    ensures var chain := [ChainEvent(EventKind.Unstaked, user, poolId, amount, 10),
                          ChainEvent(Staked, user, poolId, amount, 20)];
      && ActiveStakes(ApplyBatch([], chain, BlockRange(0, 999))) == []
      && ActiveStakes(ApplyEvents([], chain)) == [StakeRecord(user, poolId, amount, 20, Active)]
  {
    var unstake := ChainEvent(EventKind.Unstaked, user, poolId, amount, 10);
    var stake := ChainEvent(Staked, user, poolId, amount, 20);
    var chain := [unstake, stake];
    var rec := StakeRecord(user, poolId, amount, 20, Active);
    // Batch order: the Staked event first, then the Unstaked one.
    QueryUnfold(chain, Staked, 0, 999);
    QueryUnfold(chain[1..], Staked, 0, 999);
    QueryUnfold(chain, EventKind.Unstaked, 0, 999);
    QueryUnfold(chain[1..], EventKind.Unstaked, 0, 999);
    QueryUnfold(chain, UnstakedEarly, 0, 999);
    QueryUnfold(chain[1..], UnstakedEarly, 0, 999);
    assert chain[1..] == [stake] && chain[1..][1..] == [];
    assert QueryFilter(chain, Staked, 0, 999) == [stake];
    assert QueryFilter(chain, EventKind.Unstaked, 0, 999) == [unstake];
    assert QueryFilter(chain, UnstakedEarly, 0, 999) == [];
    assert [stake][..0] == [] && [unstake][..0] == [];
    var staked := Upsert([], user, poolId, amount, 20, Active);
    assert staked == [rec];
    assert ApplyEvents([], [stake]) == staked;
    assert FirstMatch(staked, ActiveWith(user, poolId, amount)) == 0;
    var unstaked := MarkUnstaked(staked, user, poolId, amount);
    assert unstaked == [rec.(status := Status.Unstaked)];
    assert ApplyEvents(staked, [unstake]) == unstaked;
    assert ApplyBatch([], chain, BlockRange(0, 999)) == unstaked;
    // Emission order: the Unstaked event finds nothing, then the stake lands.
    assert chain[..1] == [unstake];
    assert MarkUnstaked([], user, poolId, amount) == [];
    assert ApplyEvents([], [unstake]) == [];
    assert ApplyEvents([], chain) == Upsert([], user, poolId, amount, 20, Active);
  }
}
