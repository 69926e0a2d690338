/** The live `stakes` collection handle: the record table the sync code
    writes through its two helpers, updated in place. */
module Collection {
  import StakeStore

  class StakesCollection {
    /** The documents of the collection, in natural order. */
    var records: StakeStore.Store

    /** A handle on a collection that already holds `initial` (empty on a
        first run, the earlier sync's records after a restart). */
    constructor (initial: StakeStore.Store)
      ensures records == initial
    {
      records := initial;
    }

    /** `upsertStake(user, poolId, amount, startTime, status)`. */
    method UpsertStake(user: string, poolId: nat, amount: string, startTime: nat, status: StakeStore.Status)
      modifies this
      ensures records == StakeStore.Upsert(old(records), user, poolId, amount, startTime, status)
      ensures StakeStore.KeysUnique(old(records)) ==> StakeStore.KeysUnique(records)
    {
      if StakeStore.KeysUnique(records) {
        StakeStore.UpsertKeepsKeysUnique(records, user, poolId, amount, startTime, status);
      }
      records := StakeStore.Upsert(records, user, poolId, amount, startTime, status);
    }

    /** `markUnstaked(user, poolId, amount)`. */
    method MarkUnstaked(user: string, poolId: nat, amount: string)
      modifies this
      ensures records == StakeStore.MarkUnstaked(old(records), user, poolId, amount)
      ensures StakeStore.KeysUnique(old(records)) ==> StakeStore.KeysUnique(records)
    {
      records := StakeStore.MarkUnstaked(records, user, poolId, amount);
    }
  }
}
