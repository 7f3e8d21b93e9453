/** The latest-materialization caches of `CachingInstanceQueryer`: a positive cache of latest
    records, a negative cache "nothing after cursor c", and a per-cursor cache of
    materialization counts by partition. The point of the model: whatever the caches answer is
    what a direct query of the event log would answer. */
module MaterializationCache {
  import opened Wrappers
  import opened EventLog

  /** `_asset_partition_count_cache`: cursor -> asset key -> partition -> count. */
  type CountCache = map<Option<int>, map<AssetKey, map<PartitionKey, nat>>>

  /** Every positive-cache entry is the latest materialization of its asset partition. */
  ghost predicate LatestSound(log: seq<EventRecord>, latest: map<AssetPartition, EventRecord>) {
    forall ap :: ap in latest ==> Latest(log, ap) == Some(latest[ap])
  }

  /** Every negative-cache entry c is right: nothing materialized after c. */
  ghost predicate NoneAfterSound(log: seq<EventRecord>, noneAfter: map<AssetPartition, int>) {
    forall ap :: ap in noneAfter ==> QueryLatest(log, ap, Some(noneAfter[ap]), None).None?
  }

  /** Every cached count map is the instance's count map for that cursor and asset. */
  ghost predicate CountsSound(log: seq<EventRecord>, counts: CountCache) {
    forall c, k :: c in counts && k in counts[c] ==> counts[c][k] == MaterializationCounts(log, k, c)
  }

  /** Every cached fact agrees with the event log. */
  ghost predicate CacheSound(log: seq<EventRecord>, latest: map<AssetPartition, EventRecord>,
                             noneAfter: map<AssetPartition, int>, counts: CountCache)
  {
    LatestSound(log, latest) && NoneAfterSound(log, noneAfter) && CountsSound(log, counts)
  }

  /** What the caches can say about a lookup: an answer, or "ask the instance". */
  datatype Lookup = Answer(record: Option<EventRecord>) | AskInstance

  /** True when the all-time partition counts know the asset and show no materialization of
      this partition. */
  predicate PartitionNeverMaterialized(counts: CountCache, ap: AssetPartition) {
    && ap.partitionKey.Some?
    && None in counts
    && ap.assetKey in counts[None]
    && ap.partitionKey.value !in counts[None][ap.assetKey]
  }

  /** The cache consultation at the head of `get_latest_materialization_record`, as written:
      on the `before_cursor` path a cached record older than `before_cursor` is returned
      without looking at `after_cursor`. */
  function ConsultAsWritten(latest: map<AssetPartition, EventRecord>, noneAfter: map<AssetPartition, int>,
                            counts: CountCache, ap: AssetPartition, after: Option<int>, before: Option<int>)
    : (r: Lookup)
    ensures PartitionNeverMaterialized(counts, ap) ==> r == Answer(None)
    ensures r.AskInstance? ==> ap !in latest || before.Some?
  {
    if PartitionNeverMaterialized(counts, ap) then Answer(None)
    else if before.Some? then
      if ap in latest && latest[ap].storageId < before.value then Answer(Some(latest[ap]))
      else AskInstance
    else if ap in latest then
      if after.None? || after.value < latest[ap].storageId then Answer(Some(latest[ap])) else Answer(None)
    else if ap in noneAfter && after.Some? && after.value >= noneAfter[ap] then Answer(None)
    else AskInstance
  }

  /** The same consultation with the `before_cursor` path also honouring `after_cursor`: a
      cached record is returned there only when it lies strictly between the two cursors. */
  function Consult(latest: map<AssetPartition, EventRecord>, noneAfter: map<AssetPartition, int>,
                   counts: CountCache, ap: AssetPartition, after: Option<int>, before: Option<int>)
    : (r: Lookup)
    ensures PartitionNeverMaterialized(counts, ap) ==> r == Answer(None)
    ensures r.AskInstance? ==> ap !in latest || before.Some?
    ensures r.Answer? && r.record.Some? ==> ap in latest && r.record.value == latest[ap]
  {
    if PartitionNeverMaterialized(counts, ap) then Answer(None)
    else if before.Some? then
      if ap in latest && latest[ap].storageId < before.value
         && (after.None? || after.value < latest[ap].storageId)
      then Answer(Some(latest[ap]))
      else AskInstance
    else if ap in latest then
      if after.None? || after.value < latest[ap].storageId then Answer(Some(latest[ap])) else Answer(None)
    else if ap in noneAfter && after.Some? && after.value >= noneAfter[ap] then Answer(None)
    else AskInstance
  }

  /** Central property: with sound caches, every answer the caches give is the direct query's. */
  lemma ConsultSound(log: seq<EventRecord>, latest: map<AssetPartition, EventRecord>,
                     noneAfter: map<AssetPartition, int>, counts: CountCache,
                     ap: AssetPartition, after: Option<int>, before: Option<int>)
    requires Ordered(log) && CacheSound(log, latest, noneAfter, counts)
    requires Consult(latest, noneAfter, counts, ap, after, before).Answer?
    ensures Consult(latest, noneAfter, counts, ap, after, before).record == QueryLatest(log, ap, after, before)
  {
    if PartitionNeverMaterialized(counts, ap) {
      var p := ap.partitionKey.value;
      assert counts[None][ap.assetKey] == MaterializationCounts(log, ap.assetKey, None);
      assert QueryLatest(log, ap, None, None).None?;
    } else if before.Some? {
      BeforeCursorQuery(log, ap, after, before.value);
    } else if ap in latest {
      if after.Some? {
        AfterCursorQuery(log, ap, after.value);
      }
    } else {
      var c := noneAfter[ap];
      AfterCursorQuery(log, ap, c);
      AfterCursorQuery(log, ap, after.value);
    }
  }

  /** The as-written consultation can contradict the event log: a record cached at storage id 5,
      looked up strictly between cursors 10 and 20, is answered from the cache although the log
      holds no such record. */
  lemma ConsultAsWrittenCounterexample()
    ensures var key := AssetKey(["a"]);
            var ap := AssetPartition(key, None);
            var rec := EventRecord(5, AssetMaterialization, Some(key), None, 0, "run", map[]);
            var log := [rec];
            && Ordered(log)
            && CacheSound(log, map[ap := rec], map[], map[])
            && ConsultAsWritten(map[ap := rec], map[], map[], ap, Some(10), Some(20)) == Answer(Some(rec))
            && QueryLatest(log, ap, Some(10), Some(20)) == None
  {
    var key := AssetKey(["a"]);
    var ap := AssetPartition(key, None);
    var rec := EventRecord(5, AssetMaterialization, Some(key), None, 0, "run", map[]);
    assert Latest([rec], ap) == Some(rec);
  }

  /** `CachingInstanceQueryer`, reduced to the materialization caches over a fixed event log. */
  class CachingInstanceQueryer {
    /** The instance's event log, unchanged while the queryer is in use. */
    const log: seq<EventRecord>
    var latestCache: map<AssetPartition, EventRecord>
    var noneAfterCache: map<AssetPartition, int>
    var partitionCountCache: CountCache
    /** Number of queries sent to the instance. */
    ghost var instanceQueries: nat

    ghost predicate Valid()
      reads this
    {
      Ordered(log) && CacheSound(log, latestCache, noneAfterCache, partitionCountCache)
    }

    constructor (log: seq<EventRecord>)
      requires Ordered(log)
      ensures Valid() && this.log == log
      ensures latestCache == map[] && noneAfterCache == map[] && partitionCountCache == map[]
      ensures instanceQueries == 0
    {
      this.log := log;
      latestCache, noneAfterCache, partitionCountCache := map[], map[], map[];
      instanceQueries := 0;
    }

    /** `_get_materialization_record`: the direct instance query. */
    method QueryInstance(ap: AssetPartition, after: Option<int>, before: Option<int>)
      returns (r: Option<EventRecord>)
      modifies this`instanceQueries
      ensures r == QueryLatest(log, ap, after, before)
      ensures instanceQueries == old(instanceQueries) + 1
    {
      instanceQueries := instanceQueries + 1;
      r := QueryLatest(log, ap, after, before);
    }

    /** `get_latest_materialization_record`. */
    method GetLatestMaterializationRecord(ap: AssetPartition, after: Option<int>, before: Option<int>)
      returns (r: Option<EventRecord>)
      requires Valid()
      modifies this`latestCache, this`noneAfterCache, this`instanceQueries
      ensures Valid()
      ensures r == QueryLatest(log, ap, after, before)
      ensures var lookup := Consult(old(latestCache), old(noneAfterCache), partitionCountCache, ap, after, before);
              if lookup.Answer? then
                instanceQueries == old(instanceQueries)
                && latestCache == old(latestCache) && noneAfterCache == old(noneAfterCache)
              else
                && instanceQueries == old(instanceQueries) + 1
                && latestCache == RecordLatest(old(latestCache), ap, before, r)
                && noneAfterCache == RecordNoneAfter(old(noneAfterCache), ap, after, before, r)
      ensures forall a :: a in noneAfterCache && a in old(noneAfterCache) ==> noneAfterCache[a] <= old(noneAfterCache)[a]
      ensures Grown(old(latestCache), old(noneAfterCache), latestCache, noneAfterCache, {ap})
    {
      var lookup := Consult(latestCache, noneAfterCache, partitionCountCache, ap, after, before);
      if lookup.Answer? {
        ConsultSound(log, latestCache, noneAfterCache, partitionCountCache, ap, after, before);
        assert noneAfterCache - {ap} == old(noneAfterCache) - {ap};
        return lookup.record;
      }
      r := QueryInstance(ap, after, before);
      RecordSound(log, latestCache, noneAfterCache, ap, after, before, r);
      RecordGrown(latestCache, noneAfterCache, ap, after, before, r);
      if before.None? {
        if r.Some? {
          latestCache := latestCache[ap := r.value];
        } else if after.Some? {
          var previous := if ap in noneAfterCache then noneAfterCache[ap] else after.value;
          noneAfterCache := noneAfterCache[ap := Min(after.value, previous)];
        }
      }
    }

    /** `get_latest_materialization_records_by_key`. */
    method GetLatestMaterializationRecordsByKey(keys: seq<AssetKey>, after: Option<int>, before: Option<int>)
      returns (result: map<AssetKey, EventRecord>)
      requires Valid()
      modifies this`latestCache, this`noneAfterCache, this`instanceQueries
      ensures Valid()
      ensures result == LatestByKey(log, keys, after, before)
      ensures Grown(old(latestCache), old(noneAfterCache), latestCache, noneAfterCache, Unpartitioned(keys))
      ensures instanceQueries <= old(instanceQueries) + |keys|
    {
      result := map[];
      var i := 0;
      while i < |keys|
        invariant 0 <= i <= |keys|
        invariant Valid()
        invariant result == LatestByKey(log, keys[..i], after, before)
        invariant Grown(old(latestCache), old(noneAfterCache), latestCache, noneAfterCache, Unpartitioned(keys[..i]))
        invariant instanceQueries <= old(instanceQueries) + i
      {
        ghost var latest1, noneAfter1 := latestCache, noneAfterCache;
        var record := GetLatestMaterializationRecord(AssetPartition(keys[i], None), after, before);
        GrownStep(old(latestCache), old(noneAfterCache), latest1, noneAfter1, latestCache, noneAfterCache, keys, i);
        LatestByKeyStep(log, keys, i, after, before);
        if record.Some? {
          result := result[keys[i] := record.value];
        }
        i := i + 1;
      }
      assert keys[..i] == keys;
    }

    /** `get_materialized_partitions`: fills the count cache for the cursor when needed, then
        returns the partitions with a positive count, which are exactly the partitions
        materialized after the cursor. */
    method GetMaterializedPartitions(key: AssetKey, after: Option<int>) returns (parts: set<PartitionKey>)
      requires Valid()
      modifies this`partitionCountCache, this`instanceQueries
      ensures Valid()
      ensures forall p :: p in parts <==> QueryLatest(log, AssetPartition(key, Some(p)), after, None).Some?
      ensures after in partitionCountCache && key in partitionCountCache[after]
      ensures forall c, k :: c in old(partitionCountCache) && k in old(partitionCountCache)[c]
                ==> c in partitionCountCache && k in partitionCountCache[c]
                    && partitionCountCache[c][k] == old(partitionCountCache)[c][k]
    {
      if after !in partitionCountCache || key !in partitionCountCache[after] {
        var inner := if after in partitionCountCache then partitionCountCache[after] else map[];
        instanceQueries := instanceQueries + 1;
        CountCacheInsertSound(log, partitionCountCache, after, key);
        partitionCountCache := partitionCountCache[after := inner[key := MaterializationCounts(log, key, after)]];
      }
      var counts := partitionCountCache[after][key];
      assert counts == MaterializationCounts(log, key, after);
      parts := PositivePartitions(counts);
    }

    /** `prefetch_for_keys`: records each asset's latest materialization in the positive cache
        and its storage id (or -1 when there is none) in the negative cache, then replaces the
        count caches for the cursor and for all time. */
    method PrefetchForKeys(keys: seq<AssetKey>, after: Option<int>)
      requires Valid()
      modifies this`latestCache, this`noneAfterCache, this`partitionCountCache, this`instanceQueries
      ensures Valid()
      ensures PrefetchedAll(log, latestCache, noneAfterCache, keys)
      ensures OthersKept(old(latestCache), old(noneAfterCache), latestCache, noneAfterCache, keys)
      ensures partitionCountCache == old(partitionCountCache)[after := CountsFor(log, keys, after)][None := CountsFor(log, keys, None)]
    {
      var i := 0;
      while i < |keys|
        invariant 0 <= i <= |keys|
        invariant Valid()
        invariant partitionCountCache == old(partitionCountCache)
        invariant PrefetchedAll(log, latestCache, noneAfterCache, keys[..i])
        invariant OthersKept(old(latestCache), old(noneAfterCache), latestCache, noneAfterCache, keys[..i])
      {
        var key := keys[i];
        instanceQueries := instanceQueries + 1;
        PrefetchStep(log, old(latestCache), old(noneAfterCache), latestCache, noneAfterCache, keys, i);
        latestCache := PrefetchLatest(log, latestCache, key);
        noneAfterCache := PrefetchNoneAfter(log, noneAfterCache, key);
        i := i + 1;
      }
      assert keys[..i] == keys;
      instanceQueries := instanceQueries + 2;
      CountsForSound(log, partitionCountCache, keys, after);
      partitionCountCache := partitionCountCache[after := CountsFor(log, keys, after)];
      CountsForSound(log, partitionCountCache, keys, None);
      partitionCountCache := partitionCountCache[None := CountsFor(log, keys, None)];
    }
  }

  /** What prefetching leaves in the caches for one asset key: its latest materialization under
      that record's own partition in both caches, or "nothing after -1" when there is none. */
  ghost predicate Prefetched(log: seq<EventRecord>, latest: map<AssetPartition, EventRecord>,
                             noneAfter: map<AssetPartition, int>, key: AssetKey)
  {
    var last := Latest(log, AssetPartition(key, None));
    if last.None? then
      AssetPartition(key, None) in noneAfter && noneAfter[AssetPartition(key, None)] == -1
    else
      var ap := AssetPartition(key, last.value.partitionKey);
      && ap in latest && latest[ap] == last.value
      && ap in noneAfter && noneAfter[ap] == last.value.storageId
  }

  /** Every key of `keys` has been prefetched. */
  ghost predicate PrefetchedAll(log: seq<EventRecord>, latest: map<AssetPartition, EventRecord>,
                                noneAfter: map<AssetPartition, int>, keys: seq<AssetKey>)
  {
    forall k :: k in keys ==> Prefetched(log, latest, noneAfter, k)
  }

  /** Prefetching `keys` keeps every positive-cache entry and changes no entry of an asset
      outside `keys`. */
  predicate OthersKept(latest0: map<AssetPartition, EventRecord>, noneAfter0: map<AssetPartition, int>,
                       latest: map<AssetPartition, EventRecord>, noneAfter: map<AssetPartition, int>,
                       keys: seq<AssetKey>)
  {
    && (forall ap :: ap in latest0 ==> ap in latest)
    && (forall ap :: ap in latest && ap.assetKey !in keys ==> ap in latest0 && latest[ap] == latest0[ap])
    && (forall ap :: ap in noneAfter0 ==> ap in noneAfter)
    && (forall ap :: ap in noneAfter && ap.assetKey !in keys ==> ap in noneAfter0 && noneAfter[ap] == noneAfter0[ap])
  }

  /** The caches after lookups of the partitions in `touched`: no positive entry is lost or
      changed, new positive entries belong to touched partitions, no negative entry is lost or
      raised, and the negative entries of other partitions are unchanged. */
  predicate Grown(latest0: map<AssetPartition, EventRecord>, noneAfter0: map<AssetPartition, int>,
                  latest: map<AssetPartition, EventRecord>, noneAfter: map<AssetPartition, int>,
                  touched: set<AssetPartition>)
  {
    && latest0.Items <= latest.Items
    && latest.Keys <= latest0.Keys + touched
    && noneAfter - touched == noneAfter0 - touched
    && noneAfter0.Keys <= noneAfter.Keys
    && (forall ap :: ap in noneAfter0 ==> noneAfter[ap] <= noneAfter0[ap])
  }

  /** Two rounds of lookups grow the caches as their touched partitions together do. */
  lemma GrownTrans(latest0: map<AssetPartition, EventRecord>, noneAfter0: map<AssetPartition, int>,
                   latest1: map<AssetPartition, EventRecord>, noneAfter1: map<AssetPartition, int>,
                   latest2: map<AssetPartition, EventRecord>, noneAfter2: map<AssetPartition, int>,
                   t1: set<AssetPartition>, t2: set<AssetPartition>)
    requires Grown(latest0, noneAfter0, latest1, noneAfter1, t1)
    requires Grown(latest1, noneAfter1, latest2, noneAfter2, t2)
    ensures Grown(latest0, noneAfter0, latest2, noneAfter2, t1 + t2)
  {
    assert noneAfter2 - (t1 + t2) == (noneAfter2 - t2) - t1;
    assert (noneAfter1 - t2) - t1 == (noneAfter1 - t1) - t2;
    assert noneAfter0 - (t1 + t2) == (noneAfter0 - t1) - t2;
  }

  /** Recording the answer of an instance query for `ap` grows the caches at `ap` only. */
  lemma RecordGrown(latest: map<AssetPartition, EventRecord>, noneAfter: map<AssetPartition, int>,
                    ap: AssetPartition, after: Option<int>, before: Option<int>, r: Option<EventRecord>)
    requires ap !in latest || before.Some?
    ensures Grown(latest, noneAfter, RecordLatest(latest, ap, before, r),
                  RecordNoneAfter(noneAfter, ap, after, before, r), {ap})
  {
    var noneAfter' := RecordNoneAfter(noneAfter, ap, after, before, r);
    assert noneAfter' - {ap} == noneAfter - {ap};
  }

  /** The unpartitioned asset partitions of `keys`, the ones the by-key lookup touches. */
  function Unpartitioned(keys: seq<AssetKey>): (aps: set<AssetPartition>)
    ensures forall ap :: ap in aps <==> ap.partitionKey.None? && ap.assetKey in keys
  {
    set k | k in keys :: AssetPartition(k, None)
  }

  /** One round of the by-key loop: the lookup of `keys[i]` extends the growth so far. */
  lemma GrownStep(latest0: map<AssetPartition, EventRecord>, noneAfter0: map<AssetPartition, int>,
                  latest1: map<AssetPartition, EventRecord>, noneAfter1: map<AssetPartition, int>,
                  latest2: map<AssetPartition, EventRecord>, noneAfter2: map<AssetPartition, int>,
                  keys: seq<AssetKey>, i: nat)
    requires i < |keys|
    requires Grown(latest0, noneAfter0, latest1, noneAfter1, Unpartitioned(keys[..i]))
    requires Grown(latest1, noneAfter1, latest2, noneAfter2, {AssetPartition(keys[i], None)})
    ensures Grown(latest0, noneAfter0, latest2, noneAfter2, Unpartitioned(keys[..i + 1]))
  {
    assert keys[..i + 1] == keys[..i] + [keys[i]];
    assert Unpartitioned(keys[..i + 1]) == Unpartitioned(keys[..i]) + {AssetPartition(keys[i], None)};
    GrownTrans(latest0, noneAfter0, latest1, noneAfter1, latest2, noneAfter2,
               Unpartitioned(keys[..i]), {AssetPartition(keys[i], None)});
  }

  /** One round of the prefetch loop keeps the caches sound, records one more key and keeps
      the frame. */
  lemma PrefetchStep(log: seq<EventRecord>, latest0: map<AssetPartition, EventRecord>, noneAfter0: map<AssetPartition, int>,
                     latest: map<AssetPartition, EventRecord>, noneAfter: map<AssetPartition, int>,
                     keys: seq<AssetKey>, i: nat)
    requires i < |keys| && Ordered(log) && LatestSound(log, latest) && NoneAfterSound(log, noneAfter)
    requires PrefetchedAll(log, latest, noneAfter, keys[..i])
    requires OthersKept(latest0, noneAfter0, latest, noneAfter, keys[..i])
    ensures var latest', noneAfter' := PrefetchLatest(log, latest, keys[i]), PrefetchNoneAfter(log, noneAfter, keys[i]);
            && LatestSound(log, latest') && NoneAfterSound(log, noneAfter')
            && PrefetchedAll(log, latest', noneAfter', keys[..i + 1])
            && OthersKept(latest0, noneAfter0, latest', noneAfter', keys[..i + 1])
  {
    PrefetchKeySound(log, latest, noneAfter, keys[i]);
    PrefetchKeyFrame(log, latest, noneAfter, keys[i]);
    assert keys[..i + 1] == keys[..i] + [keys[i]];
  }

  /** The positive-cache update of `prefetch_for_keys` for one asset key. */
  function PrefetchLatest(log: seq<EventRecord>, latest: map<AssetPartition, EventRecord>, key: AssetKey)
    : map<AssetPartition, EventRecord>
  {
    var last := Latest(log, AssetPartition(key, None));
    if last.None? then latest
    else latest[AssetPartition(key, last.value.partitionKey) := last.value]
  }

  /** The negative-cache update of `prefetch_for_keys` for one asset key. */
  function PrefetchNoneAfter(log: seq<EventRecord>, noneAfter: map<AssetPartition, int>, key: AssetKey)
    : map<AssetPartition, int>
  {
    var last := Latest(log, AssetPartition(key, None));
    if last.None? then noneAfter[AssetPartition(key, None) := -1]
    else noneAfter[AssetPartition(key, last.value.partitionKey) := last.value.storageId]
  }

  /** Prefetching one key keeps the caches sound and records that key. */
  lemma PrefetchKeySound(log: seq<EventRecord>, latest: map<AssetPartition, EventRecord>,
                         noneAfter: map<AssetPartition, int>, key: AssetKey)
    requires Ordered(log) && LatestSound(log, latest) && NoneAfterSound(log, noneAfter)
    ensures LatestSound(log, PrefetchLatest(log, latest, key))
    ensures NoneAfterSound(log, PrefetchNoneAfter(log, noneAfter, key))
    ensures Prefetched(log, PrefetchLatest(log, latest, key), PrefetchNoneAfter(log, noneAfter, key), key)
  {
    var last := Latest(log, AssetPartition(key, None));
    if last.None? {
      AfterCursorQuery(log, AssetPartition(key, None), -1);
    } else {
      var ap := AssetPartition(key, last.value.partitionKey);
      LatestOfOwnPartition(log, key);
      AfterCursorQuery(log, ap, last.value.storageId);
    }
  }

  /** Prefetching one key touches only entries of that asset, so what was recorded for any
      other key stays recorded. */
  lemma PrefetchKeyFrame(log: seq<EventRecord>, latest: map<AssetPartition, EventRecord>,
                         noneAfter: map<AssetPartition, int>, key: AssetKey)
    ensures var latest', noneAfter' := PrefetchLatest(log, latest, key), PrefetchNoneAfter(log, noneAfter, key);
            && (forall k :: k != key && Prefetched(log, latest, noneAfter, k) ==> Prefetched(log, latest', noneAfter', k))
            && (forall ap :: ap in latest ==> ap in latest')
            && (forall ap :: ap in noneAfter ==> ap in noneAfter')
            && (forall ap :: ap in latest' && ap.assetKey != key ==> ap in latest && latest'[ap] == latest[ap])
            && (forall ap :: ap in noneAfter' && ap.assetKey != key ==> ap in noneAfter && noneAfter'[ap] == noneAfter[ap])
  {
  }

  /** The positive-cache update after an instance query: only a query without `before_cursor`
      that found a record is cached. */
  function RecordLatest(latest: map<AssetPartition, EventRecord>, ap: AssetPartition,
                        before: Option<int>, r: Option<EventRecord>): map<AssetPartition, EventRecord>
  {
    if before.None? && r.Some? then latest[ap := r.value] else latest
  }

  /** The negative-cache update after an instance query: an empty answer to a query after a
      cursor lowers (or sets) the partition's "nothing after" cursor. */
  function RecordNoneAfter(noneAfter: map<AssetPartition, int>, ap: AssetPartition, after: Option<int>,
                           before: Option<int>, r: Option<EventRecord>): map<AssetPartition, int>
  {
    if before.None? && r.None? && after.Some? then
      noneAfter[ap := Min(after.value, if ap in noneAfter then noneAfter[ap] else after.value)]
    else noneAfter
  }

  /** Caching the instance's answer keeps both caches sound. */
  lemma RecordSound(log: seq<EventRecord>, latest: map<AssetPartition, EventRecord>,
                    noneAfter: map<AssetPartition, int>, ap: AssetPartition, after: Option<int>,
                    before: Option<int>, r: Option<EventRecord>)
    requires Ordered(log) && LatestSound(log, latest) && NoneAfterSound(log, noneAfter)
    requires r == QueryLatest(log, ap, after, before)
    ensures LatestSound(log, RecordLatest(latest, ap, before, r))
    ensures NoneAfterSound(log, RecordNoneAfter(noneAfter, ap, after, before, r))
  {
    if before.None? && after.Some? {
      AfterCursorQuery(log, ap, after.value);
      if r.None? {
        var c := Min(after.value, if ap in noneAfter then noneAfter[ap] else after.value);
        AfterCursorQuery(log, ap, c);
        if ap in noneAfter {
          AfterCursorQuery(log, ap, noneAfter[ap]);
        }
        assert QueryLatest(log, ap, Some(c), None).None?;
        NoneAfterInsert(log, noneAfter, ap, c);
      }
    }
  }

  lemma NoneAfterInsert(log: seq<EventRecord>, noneAfter: map<AssetPartition, int>, ap: AssetPartition, c: int)
    requires NoneAfterSound(log, noneAfter) && QueryLatest(log, ap, Some(c), None).None?
    ensures NoneAfterSound(log, noneAfter[ap := c])
  {
  }

  /** The latest record of every asset that has one between the cursors, and no entry for
      the others ("only returns entries for assets materialized since the cursor"). */
  function LatestByKey(log: seq<EventRecord>, keys: seq<AssetKey>, after: Option<int>, before: Option<int>)
    : (result: map<AssetKey, EventRecord>)
    ensures forall k :: k in result <==> k in keys && QueryLatest(log, AssetPartition(k, None), after, before).Some?
    ensures forall k :: k in result ==> Some(result[k]) == QueryLatest(log, AssetPartition(k, None), after, before)
  {
    map k | k in keys && QueryLatest(log, AssetPartition(k, None), after, before).Some?
      :: QueryLatest(log, AssetPartition(k, None), after, before).value
  }

  lemma LatestByKeyStep(log: seq<EventRecord>, keys: seq<AssetKey>, i: nat, after: Option<int>, before: Option<int>)
    requires i < |keys|
    ensures var q := QueryLatest(log, AssetPartition(keys[i], None), after, before);
            LatestByKey(log, keys[..i + 1], after, before)
            == if q.Some? then LatestByKey(log, keys[..i], after, before)[keys[i] := q.value]
               else LatestByKey(log, keys[..i], after, before)
  {
    assert keys[..i + 1] == keys[..i] + [keys[i]];
  }

  /** `[partition_key for partition_key, count in counts.items() if count > 0]`, as a set. */
  function PositivePartitions(counts: map<PartitionKey, nat>): (parts: set<PartitionKey>)
    ensures forall p :: p in parts <==> p in counts && counts[p] > 0
  {
    set p | p in counts && counts[p] > 0
  }

  function Min(a: int, b: int): int {
    if a <= b then a else b
  }

  /** `get_materialization_count_by_partition` for a batch of asset keys. */
  function CountsFor(log: seq<EventRecord>, keys: seq<AssetKey>, after: Option<int>)
    : map<AssetKey, map<PartitionKey, nat>>
  {
    map k | k in keys :: MaterializationCounts(log, k, after)
  }

  lemma CountsForSound(log: seq<EventRecord>, counts: CountCache, keys: seq<AssetKey>, after: Option<int>)
    requires CountsSound(log, counts)
    ensures CountsSound(log, counts[after := CountsFor(log, keys, after)])
  {
  }

  /** Filling one (cursor, asset) slot of a sound count cache with the instance's counts keeps
      it sound and keeps every other slot. */
  lemma CountCacheInsertSound(log: seq<EventRecord>, counts: CountCache, after: Option<int>, key: AssetKey)
    requires CountsSound(log, counts)
    ensures var inner := if after in counts then counts[after] else map[];
            var updated := counts[after := inner[key := MaterializationCounts(log, key, after)]];
            && CountsSound(log, updated)
            && (forall c, k :: c in counts && k in counts[c] ==> c in updated && k in updated[c] && updated[c][k] == counts[c][k])
  {
  }

  /** An asset's latest materialization is also the latest of its own partition. */
  lemma LatestOfOwnPartition(log: seq<EventRecord>, key: AssetKey)
    requires Ordered(log) && Latest(log, AssetPartition(key, None)).Some?
    ensures var last := Latest(log, AssetPartition(key, None)).value;
            Latest(log, AssetPartition(key, last.partitionKey)) == Some(last)
  {
    var last := Latest(log, AssetPartition(key, None)).value;
    var ap := AssetPartition(key, last.partitionKey);
    forall i | 0 <= i < |log| && Matches(log[i], ap, None, None)
      ensures log[i].storageId <= last.storageId
    {
      QueryLatestIsMax(log, AssetPartition(key, None), None, None, i);
    }
    QueryLatestUnique(log, ap, None, None, last);
  }
}
