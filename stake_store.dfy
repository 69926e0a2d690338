/** The `stakes` collection of the staking backend, as values: one record per
    stake, the two writes the sync code issues against it (an upsert keyed on
    user, pool and start block, and a conditional status update) and the
    active-stakes read. The collection is kept in its natural (insertion)
    order, which is also the order in which a single-document update picks
    the first matching record. */
module StakeStore {

  /** The `status` field of a record. */
  datatype Status = Active | Unstaked

  /** Identity of a stake: the filter of the upsert. */
  datatype StakeKey = StakeKey(user: string, poolId: nat, startTime: nat)

  /** One document of the collection. `startTime` is the start-time argument
      of the upsert (in the backfill, the block number of the Staked event),
      and `amount` the decimal text of the staked amount. */
  datatype StakeRecord = StakeRecord(user: string, poolId: nat, amount: string, startTime: nat, status: Status)
  {
    function Key(): StakeKey {
      StakeKey(user, poolId, startTime)
    }
  }

  type Store = seq<StakeRecord>

  /** The two query documents the sync code hands to a single-document update. */
  datatype Filter =
    | ByKey(key: StakeKey)
    | ActiveWith(user: string, poolId: nat, amount: string)

  predicate Matches(x: StakeRecord, f: Filter) {
    match f
    case ByKey(k) => x.Key() == k
    case ActiveWith(u, p, a) => x.user == u && x.poolId == p && x.amount == a && x.status == Active
  }

  /** Position of the record a single-document update selects: the first one
      that matches, or |s| when none does. */
  function FirstMatch(s: Store, f: Filter): (i: nat)
    ensures i <= |s|
    ensures i < |s| ==> Matches(s[i], f)
    ensures forall j :: 0 <= j < i ==> !Matches(s[j], f)
  {
    if s == [] then 0
    else if Matches(s[0], f) then 0
    else
      var i := 1 + FirstMatch(s[1..], f);
      assert forall j :: 1 <= j < i ==> s[j] == s[1..][j - 1];
      i
  }

  /** At most one record per identity key. */
  ghost predicate KeysUnique(s: Store) {
    forall i, j :: 0 <= i < j < |s| ==> s[i].Key() != s[j].Key()
  }

  /** No two records match `f`. */
  ghost predicate AtMostOneMatch(s: Store, f: Filter) {
    forall i, j :: 0 <= i < j < |s| ==> !(Matches(s[i], f) && Matches(s[j], f))
  }

  /** `upsertStake`: set every field of the record at key
      (user, poolId, startTime), or append a new record when the key is absent. */
  function Upsert(s: Store, user: string, poolId: nat, amount: string, startTime: nat, status: Status): (r: Store)
    ensures StakeRecord(user, poolId, amount, startTime, status) in r
    ensures |s| <= |r| <= |s| + 1
    ensures |r| == |s| + 1 <==> forall j :: 0 <= j < |s| ==> s[j].Key() != StakeKey(user, poolId, startTime)
    ensures forall j :: 0 <= j < |s| ==> r[j].Key() == s[j].Key()
    ensures forall j :: 0 <= j < |s| && s[j].Key() != StakeKey(user, poolId, startTime) ==> r[j] == s[j]
  {
    var rec := StakeRecord(user, poolId, amount, startTime, status);
    var i := FirstMatch(s, ByKey(rec.Key()));
    if i < |s| then
      var r := s[i := rec];
      assert r[i] == rec;
      r
    else s + [rec]
  }

  /** `markUnstaked`: set to Unstaked the status of the first Active record
      whose user, pool and amount match; with no such record, nothing changes. */
  function MarkUnstaked(s: Store, user: string, poolId: nat, amount: string): (r: Store)
    ensures |r| == |s|
    ensures forall j :: 0 <= j < |s| ==> r[j].Key() == s[j].Key()
    ensures r == s <==> forall j :: 0 <= j < |s| ==> !Matches(s[j], ActiveWith(user, poolId, amount))
    ensures forall j :: 0 <= j < |s| && r[j] != s[j] ==>
              Matches(s[j], ActiveWith(user, poolId, amount)) && r[j] == s[j].(status := Unstaked)
    ensures forall i, j :: 0 <= i < |s| && 0 <= j < |s| && r[i] != s[i] && r[j] != s[j] ==> i == j
    ensures forall i, j :: 0 <= i < j < |s| && r[j] != s[j] ==> !Matches(s[i], ActiveWith(user, poolId, amount))
  {
    var i := FirstMatch(s, ActiveWith(user, poolId, amount));
    if i < |s| then s[i := s[i].(status := Unstaked)] else s
  }

  /** The active-stakes read: the records whose status is Active, in store order. */
  function ActiveStakes(s: Store): (r: Store)
    ensures forall x :: x in r <==> x in s && x.status == Active
    ensures |r| <= |s|
  {
    if s == [] then []
    else (if s[0].status == Active then [s[0]] else []) + ActiveStakes(s[1..])
  }

  /** Number of records with status `st`. */
  function CountStatus(s: Store, st: Status): nat {
    if s == [] then 0
    else (if s[0].status == st then 1 else 0) + CountStatus(s[1..], st)
  }

  lemma {:induction false} UpsertKeepsKeysUnique(s: Store, user: string, poolId: nat, amount: string, startTime: nat, status: Status)
    requires KeysUnique(s)
    ensures var r := Upsert(s, user, poolId, amount, startTime, status);
      && KeysUnique(r)
      && forall j :: 0 <= j < |r| ==>
           (r[j].Key() == StakeKey(user, poolId, startTime) <==> r[j] == StakeRecord(user, poolId, amount, startTime, status))
  {
    var rec := StakeRecord(user, poolId, amount, startTime, status);
    var i := FirstMatch(s, ByKey(rec.Key()));
    var r := Upsert(s, user, poolId, amount, startTime, status);
    if i < |s| {
      assert r == s[i := rec];
      forall j | 0 <= j < |s| && j != i ensures r[j].Key() != rec.Key() {
        if j < i {
          assert r[j] == s[j];
        } else {
          assert s[i].Key() == rec.Key();
          assert s[j].Key() != s[i].Key();
        }
      }
    } else {
      assert r == s + [rec];
    }
  }

  lemma {:induction false} UpsertIdempotent(s: Store, user: string, poolId: nat, amount: string, startTime: nat, status: Status)
    ensures var once := Upsert(s, user, poolId, amount, startTime, status);
      Upsert(once, user, poolId, amount, startTime, status) == once
  {
    var rec := StakeRecord(user, poolId, amount, startTime, status);
    var f := ByKey(rec.Key());
    var i := FirstMatch(s, f);
    var once := Upsert(s, user, poolId, amount, startTime, status);
    var i' := FirstMatch(once, f);
    if i < |s| {
      assert once == s[i := rec];
      assert once[i] == rec;
      assert i' == i;
    } else {
      assert once == s + [rec];
      assert once[|s|] == rec;
      assert i' == |s|;
    }
  }

  /** Replacing one record changes a status count only by that record. */
  lemma {:induction false} CountStatusUpdate(s: Store, i: nat, x: StakeRecord, st: Status)
    requires i < |s|
    ensures CountStatus(s[i := x], st)
         == CountStatus(s, st) - (if s[i].status == st then 1 else 0) + (if x.status == st then 1 else 0)
  {
    if i == 0 {
      assert s[i := x][1..] == s[1..];
    } else {
      assert s[i := x][1..] == s[1..][i - 1 := x];
      CountStatusUpdate(s[1..], i - 1, x, st);
    }
  }

  /** markUnstaked turns at most one Active record into an Unstaked one. */
  lemma MarkUnstakedCounts(s: Store, user: string, poolId: nat, amount: string)
    ensures var r := MarkUnstaked(s, user, poolId, amount);
      && CountStatus(r, Unstaked) == CountStatus(s, Unstaked) + (if r == s then 0 else 1)
      && CountStatus(r, Active) + (if r == s then 0 else 1) == CountStatus(s, Active)
  {
    var i := FirstMatch(s, ActiveWith(user, poolId, amount));
    if i < |s| {
      CountStatusUpdate(s, i, s[i].(status := Unstaked), Unstaked);
      CountStatusUpdate(s, i, s[i].(status := Unstaked), Active);
    }
  }

  /** A second markUnstaked with the same arguments is a no-op when at most one
      Active record carried that user, pool and amount. */
  lemma MarkUnstakedIdempotentWhenSingle(s: Store, user: string, poolId: nat, amount: string)
    requires AtMostOneMatch(s, ActiveWith(user, poolId, amount))
    ensures var once := MarkUnstaked(s, user, poolId, amount);
      MarkUnstaked(once, user, poolId, amount) == once
  {
    var f := ActiveWith(user, poolId, amount);
    var once := MarkUnstaked(s, user, poolId, amount);
    var i := FirstMatch(s, f);
    if i < |s| {
      assert once[i] != s[i];
      assert forall j :: 0 <= j < |s| && j != i ==> !Matches(s[j], f);
    }
  }

  /** With two Active stakes of the same user, pool and amount, a repeated
      markUnstaked unstakes the second one too: the update is not idempotent. */
  lemma RepeatedUnstakeConsumesSecondStake(user: string, poolId: nat, amount: string, t1: nat, t2: nat)
    requires t1 != t2
    ensures var s := [StakeRecord(user, poolId, amount, t1, Active), StakeRecord(user, poolId, amount, t2, Active)];
      var once := MarkUnstaked(s, user, poolId, amount);
      && ActiveStakes(once) == [StakeRecord(user, poolId, amount, t2, Active)]
      && ActiveStakes(MarkUnstaked(once, user, poolId, amount)) == []
  {
    var s := [StakeRecord(user, poolId, amount, t1, Active), StakeRecord(user, poolId, amount, t2, Active)];
    var once := MarkUnstaked(s, user, poolId, amount);
    assert FirstMatch(s, ActiveWith(user, poolId, amount)) == 0;
    assert once == [s[0].(status := Unstaked), s[1]];
    assert FirstMatch(once, ActiveWith(user, poolId, amount)) == 1;
    assert ActiveStakes(once[1..]) == [s[1]];
    var twice := MarkUnstaked(once, user, poolId, amount);
    assert twice == [once[0], s[1].(status := Unstaked)];
    assert ActiveStakes(twice[1..]) == [];
  }

  /** Re-delivering a Staked event after its stake was unstaked makes the
      record Active again: the upsert overwrites the status. */
  lemma StakedReplayReactivates(user: string, poolId: nat, amount: string, startTime: nat)
    ensures var staked := Upsert([], user, poolId, amount, startTime, Active);
      var unstaked := MarkUnstaked(staked, user, poolId, amount);
      && ActiveStakes(unstaked) == []
      && ActiveStakes(Upsert(unstaked, user, poolId, amount, startTime, Active))
         == [StakeRecord(user, poolId, amount, startTime, Active)]
  {
    var rec := StakeRecord(user, poolId, amount, startTime, Active);
    var staked := Upsert([], user, poolId, amount, startTime, Active);
    assert staked == [rec];
    var unstaked := MarkUnstaked(staked, user, poolId, amount);
    assert FirstMatch(staked, ActiveWith(user, poolId, amount)) == 0;
    assert unstaked == [rec.(status := Unstaked)];
    assert FirstMatch(unstaked, ByKey(rec.Key())) == 0;
    assert Upsert(unstaked, user, poolId, amount, startTime, Active) == [rec];
  }

  /** The active-stakes read distributes over concatenation, so it keeps store order. */
  lemma {:induction false} ActiveStakesAppend(a: Store, b: Store)
    ensures ActiveStakes(a + b) == ActiveStakes(a) + ActiveStakes(b)
  {
    if a == [] {
      assert a + b == b;
    } else {
      assert (a + b)[1..] == a[1..] + b;
      ActiveStakesAppend(a[1..], b);
    }
  }
}
