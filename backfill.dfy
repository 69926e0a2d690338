/** The block ranges of the historical backfill: from the configured start
    block up to the chain height read at start-up, in batches of at most
    BATCH_SIZE blocks, each batch the closed range [from, to]. */
module Backfill {

  const BATCH_SIZE: nat := 1000

  /** The closed block range [from, to] of one batch. */
  datatype BlockRange = BlockRange(from: int, to: int)

  function Min(a: int, b: int): int {
    if a <= b then a else b
  }

  /** The batches the backfill loop visits, starting at `fromBlock`. */
  function Ranges(fromBlock: int, latestBlock: int): seq<BlockRange>
    decreases latestBlock - fromBlock
  {
    if fromBlock > latestBlock then []
    else [BlockRange(fromBlock, Min(fromBlock + BATCH_SIZE - 1, latestBlock))] + Ranges(fromBlock + BATCH_SIZE, latestBlock)
  }

  /** The batches are empty exactly when the start is past the latest block;
      otherwise the first starts at the start block and the last ends at the
      latest block; each lies inside [fromBlock, latestBlock], spans at most
      BATCH_SIZE blocks, and starts right after the previous one ends. */
  lemma {:induction false} RangesShape(fromBlock: int, latestBlock: int)
    ensures var r := Ranges(fromBlock, latestBlock);
      && (r == [] <==> fromBlock > latestBlock)
      && (r != [] ==> r[0].from == fromBlock && r[|r| - 1].to == latestBlock)
      && (forall i :: 0 <= i < |r| ==>
            fromBlock <= r[i].from <= r[i].to <= latestBlock && r[i].to - r[i].from < BATCH_SIZE)
      && (forall i, j :: 0 <= i && j == i + 1 && j < |r| ==> r[j].from == r[i].to + 1)
    decreases latestBlock - fromBlock
  {
    if fromBlock <= latestBlock {
      var r := Ranges(fromBlock, latestBlock);
      var rest := Ranges(fromBlock + BATCH_SIZE, latestBlock);
      RangesShape(fromBlock + BATCH_SIZE, latestBlock);
      assert r == [r[0]] + rest;
      forall i | 1 <= i < |r| ensures r[i] == rest[i - 1] { }
    }
  }

  /** The loop of the backfill: walk `fromBlock` from the start block in
      steps of BATCH_SIZE while it is at most the latest block. */
  method BatchRanges(startBlock: int, latestBlock: int) returns (ranges: seq<BlockRange>)
    ensures ranges == Ranges(startBlock, latestBlock)
  {
    ranges := [];
    var fromBlock := startBlock;
    while fromBlock <= latestBlock
      invariant ranges + Ranges(fromBlock, latestBlock) == Ranges(startBlock, latestBlock)
      decreases latestBlock - fromBlock
    {
      var toBlock := Min(fromBlock + BATCH_SIZE - 1, latestBlock);
      ghost var rest := Ranges(fromBlock + BATCH_SIZE, latestBlock);
      assert Ranges(fromBlock, latestBlock) == [BlockRange(fromBlock, toBlock)] + rest;
      assert (ranges + [BlockRange(fromBlock, toBlock)]) + rest == ranges + ([BlockRange(fromBlock, toBlock)] + rest);
      ranges := ranges + [BlockRange(fromBlock, toBlock)];
      fromBlock := fromBlock + BATCH_SIZE;
    }
  }

  /** Batch i starts i batches after the start block; every batch but the
      last spans exactly BATCH_SIZE blocks; and there are
      ceil((latest - start + 1) / BATCH_SIZE) of them. */
  lemma {:induction false} RangesClosedForm(fromBlock: int, latestBlock: int)
    ensures var r := Ranges(fromBlock, latestBlock);
      && |r| == (if fromBlock > latestBlock then 0 else (latestBlock - fromBlock) / BATCH_SIZE + 1)
      && forall i :: 0 <= i < |r| ==>
           r[i] == BlockRange(fromBlock + i * BATCH_SIZE, Min(fromBlock + i * BATCH_SIZE + BATCH_SIZE - 1, latestBlock))
    decreases latestBlock - fromBlock
  {
    if fromBlock <= latestBlock {
      var r := Ranges(fromBlock, latestBlock);
      var rest := Ranges(fromBlock + BATCH_SIZE, latestBlock);
      RangesClosedForm(fromBlock + BATCH_SIZE, latestBlock);
      assert r == [r[0]] + rest;
      forall i | 1 <= i < |r|
        ensures r[i] == BlockRange(fromBlock + i * BATCH_SIZE, Min(fromBlock + i * BATCH_SIZE + BATCH_SIZE - 1, latestBlock))
      {
        assert r[i] == rest[i - 1];
        assert fromBlock + BATCH_SIZE + (i - 1) * BATCH_SIZE == fromBlock + i * BATCH_SIZE;
      }
    }
  }

  /** No two batches overlap: a later batch starts after an earlier one ends. */
  lemma {:induction false} RangesDisjoint(fromBlock: int, latestBlock: int)
    ensures var r := Ranges(fromBlock, latestBlock);
      forall i, j :: 0 <= i < j < |r| ==> r[i].to < r[j].from
    decreases latestBlock - fromBlock
  {
    if fromBlock <= latestBlock {
      var r := Ranges(fromBlock, latestBlock);
      var rest := Ranges(fromBlock + BATCH_SIZE, latestBlock);
      RangesDisjoint(fromBlock + BATCH_SIZE, latestBlock);
      RangesShape(fromBlock + BATCH_SIZE, latestBlock);
      assert r == [r[0]] + rest;
      forall i, j | 0 <= i < j < |r| ensures r[i].to < r[j].from {
        if i == 0 {
          assert r[j] == rest[j - 1];
        } else {
          assert r[i] == rest[i - 1] && r[j] == rest[j - 1];
        }
      }
    }
  }

  /** A block is in some batch exactly when it lies in [fromBlock, latestBlock]. */
  lemma {:induction false} RangesCover(fromBlock: int, latestBlock: int, b: int)
    ensures var r := Ranges(fromBlock, latestBlock);
      (fromBlock <= b <= latestBlock) <==> exists i :: 0 <= i < |r| && r[i].from <= b <= r[i].to
    decreases latestBlock - fromBlock
  {
    if fromBlock <= latestBlock {
      var r := Ranges(fromBlock, latestBlock);
      var rest := Ranges(fromBlock + BATCH_SIZE, latestBlock);
      RangesCover(fromBlock + BATCH_SIZE, latestBlock, b);
      RangesShape(fromBlock, latestBlock);
      assert r == [r[0]] + rest;
      if fromBlock <= b <= latestBlock {
        if b <= r[0].to {
          assert r[0].from <= b <= r[0].to;
        } else {
          var i :| 0 <= i < |rest| && rest[i].from <= b <= rest[i].to;
          assert r[i + 1] == rest[i];
        }
      }
    }
  }

  /** Start 0, height 2500: the batches [0,999], [1000,1999], [2000,2500]. */
  lemma ThreeBatchesUpTo2500()
    ensures Ranges(0, 2500) == [BlockRange(0, 999), BlockRange(1000, 1999), BlockRange(2000, 2500)]
  {
    assert Ranges(3000, 2500) == [];
    assert Ranges(2000, 2500) == [BlockRange(2000, 2500)];
    assert Ranges(1000, 2500) == [BlockRange(1000, 1999), BlockRange(2000, 2500)];
  }
}
