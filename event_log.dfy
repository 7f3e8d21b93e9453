/** The instance's event log as the caching queryer sees it: records ordered by storage id,
    and the direct queries the queryer would otherwise send to the instance. */
module EventLog {
  import opened Wrappers

  datatype AssetKey = AssetKey(path: seq<string>)

  /** Partition keys are non-empty, so "has a partition key" and "the partition key is truthy"
      agree. */
  type PartitionKey = s: string | s != "" witness "p"

  /** `AssetKeyPartitionKey`: an asset, or one partition of it. */
  datatype AssetPartition = AssetPartition(assetKey: AssetKey, partitionKey: Option<PartitionKey>)

  datatype EventType = AssetMaterialization | AssetMaterializationPlanned | OtherEvent(name: string)

  /** Value of an input-event-pointer tag: the storage id of the parent materialization that
      was consumed, or a missing pointer (the empty string or "NULL"). */
  datatype InputPointer = NullPointer | PointerTo(storageId: nat)

  /** `EventLogRecord`, reduced to what the queryer reads. `inputPointers` holds the
      materialization's input-event-pointer tags, keyed by the parent asset they name. */
  datatype EventRecord = EventRecord(
    storageId: nat,
    eventType: EventType,
    assetKey: Option<AssetKey>,
    partitionKey: Option<PartitionKey>,
    timestamp: int,
    runId: string,
    inputPointers: map<AssetKey, InputPointer>)

  /** Storage ids strictly increase along the log (they are assigned on insertion). */
  ghost predicate Ordered(log: seq<EventRecord>) {
    forall i, j :: 0 <= i < j < |log| ==> log[i].storageId < log[j].storageId
  }

  /** The event-records filter of `_get_materialization_record`: a materialization of the
      asset, of the partition when one is given, strictly between the two cursors. */
  predicate Matches(r: EventRecord, ap: AssetPartition, after: Option<int>, before: Option<int>) {
    && r.eventType == AssetMaterialization
    && r.assetKey == Some(ap.assetKey)
    && (ap.partitionKey.Some? ==> r.partitionKey == ap.partitionKey)
    && (after.Some? ==> after.value < r.storageId)
    && (before.Some? ==> r.storageId < before.value)
  }

  /** The direct instance query: the matching record with the largest storage id (the log is
      read newest first, limit 1). */
  function QueryLatest(log: seq<EventRecord>, ap: AssetPartition, after: Option<int>, before: Option<int>)
    : (r: Option<EventRecord>)
    ensures r.Some? ==> r.value in log && Matches(r.value, ap, after, before)
    ensures r.None? <==> forall i :: 0 <= i < |log| ==> !Matches(log[i], ap, after, before)
  {
    if |log| == 0 then None
    else if Matches(log[|log| - 1], ap, after, before) then Some(log[|log| - 1])
    else QueryLatest(log[..|log| - 1], ap, after, before)
  }

  /** The latest materialization of an asset partition, with no cursor. */
  function Latest(log: seq<EventRecord>, ap: AssetPartition): Option<EventRecord> {
    QueryLatest(log, ap, None, None)
  }

  /** The query result has the largest storage id among the matching records. */
  lemma {:induction false} QueryLatestIsMax(log: seq<EventRecord>, ap: AssetPartition,
                                            after: Option<int>, before: Option<int>, i: nat)
    requires Ordered(log)
    requires i < |log| && Matches(log[i], ap, after, before)
    ensures QueryLatest(log, ap, after, before).Some?
    ensures log[i].storageId <= QueryLatest(log, ap, after, before).value.storageId
  {
    if !Matches(log[|log| - 1], ap, after, before) {
      assert i < |log| - 1;
      assert log[..|log| - 1][i] == log[i];
      QueryLatestIsMax(log[..|log| - 1], ap, after, before, i);
    }
  }

  /** In an ordered log a record is determined by its storage id. */
  lemma SameIdSameRecord(log: seq<EventRecord>, a: EventRecord, b: EventRecord)
    requires Ordered(log) && a in log && b in log && a.storageId == b.storageId
    ensures a == b
  {
    var i :| 0 <= i < |log| && log[i] == a;
    var j :| 0 <= j < |log| && log[j] == b;
    assert i == j;
  }

  /** A matching record that no other matching record outranks is the query's answer. */
  lemma QueryLatestUnique(log: seq<EventRecord>, ap: AssetPartition, after: Option<int>,
                          before: Option<int>, rec: EventRecord)
    requires Ordered(log) && rec in log && Matches(rec, ap, after, before)
    requires forall i :: 0 <= i < |log| && Matches(log[i], ap, after, before) ==> log[i].storageId <= rec.storageId
    ensures QueryLatest(log, ap, after, before) == Some(rec)
  {
    var i :| 0 <= i < |log| && log[i] == rec;
    QueryLatestIsMax(log, ap, after, before, i);
    var r := QueryLatest(log, ap, after, before).value;
    SameIdSameRecord(log, r, rec);
  }

  /** A query after a cursor returns the latest record when that is newer than the cursor,
      and nothing otherwise: "nothing after c" is "the latest is at or before c". */
  lemma AfterCursorQuery(log: seq<EventRecord>, ap: AssetPartition, c: int)
    requires Ordered(log)
    ensures QueryLatest(log, ap, Some(c), None)
         == (var l := Latest(log, ap); if l.Some? && c < l.value.storageId then l else None)
  {
    var l := Latest(log, ap);
    if l.Some? {
      forall i | 0 <= i < |log| && Matches(log[i], ap, Some(c), None)
        ensures log[i].storageId <= l.value.storageId
      {
        assert Matches(log[i], ap, None, None);
        QueryLatestIsMax(log, ap, None, None, i);
      }
      if c < l.value.storageId {
        QueryLatestUnique(log, ap, Some(c), None, l.value);
      }
    }
  }

  /** A query bounded above by a cursor beyond the latest record returns that record, unless
      the lower cursor excludes it. */
  lemma BeforeCursorQuery(log: seq<EventRecord>, ap: AssetPartition, after: Option<int>, before: int)
    requires Ordered(log)
    requires Latest(log, ap).Some? && Latest(log, ap).value.storageId < before
    ensures QueryLatest(log, ap, after, Some(before))
         == (var l := Latest(log, ap);
             if after.None? || after.value < l.value.storageId then l else None)
  {
    var l := Latest(log, ap).value;
    forall i | 0 <= i < |log| && Matches(log[i], ap, after, Some(before))
      ensures log[i].storageId <= l.storageId
    {
      assert Matches(log[i], ap, None, None);
      QueryLatestIsMax(log, ap, None, None, i);
    }
    if after.None? || after.value < l.storageId {
      QueryLatestUnique(log, ap, after, Some(before), l);
    }
  }

  /** `get_materialization_count_by_partition` for one asset: how many materializations of each
      partition come after the cursor; only partitions with at least one appear. */
  function MaterializationCounts(log: seq<EventRecord>, key: AssetKey, after: Option<int>)
    : (counts: map<PartitionKey, nat>)
    ensures forall p :: p in counts ==> counts[p] > 0
    ensures forall p :: p in counts <==> QueryLatest(log, AssetPartition(key, Some(p)), after, None).Some?
  {
    if |log| == 0 then map[]
    else
      var earlier := MaterializationCounts(log[..|log| - 1], key, after);
      var r := log[|log| - 1];
      if r.partitionKey.Some? && Matches(r, AssetPartition(key, r.partitionKey), after, None) then
        var p := r.partitionKey.value;
        earlier[p := (if p in earlier then earlier[p] else 0) + 1]
      else earlier
  }

  /** `get_latest_storage_id`: the storage id of the newest event of the given type. */
  function LatestStorageId(log: seq<EventRecord>, eventType: EventType): (r: Option<nat>)
    ensures r.None? <==> forall i :: 0 <= i < |log| ==> log[i].eventType != eventType
    ensures r.Some? ==> exists i :: 0 <= i < |log| && log[i].eventType == eventType && log[i].storageId == r.value
  {
    if |log| == 0 then None
    else if log[|log| - 1].eventType == eventType then Some(log[|log| - 1].storageId)
    else
      var init := log[..|log| - 1];
      var r := LatestStorageId(init, eventType);
      assert forall i :: 0 <= i < |init| ==> init[i] == log[i];
      r
  }

  /** No event of that type has a larger storage id than the one reported. */
  lemma {:induction false} LatestStorageIdIsMax(log: seq<EventRecord>, eventType: EventType, i: nat)
    requires Ordered(log) && i < |log| && log[i].eventType == eventType
    ensures LatestStorageId(log, eventType).Some?
    ensures log[i].storageId <= LatestStorageId(log, eventType).value
  {
    if log[|log| - 1].eventType != eventType {
      assert log[..|log| - 1][i] == log[i];
      LatestStorageIdIsMax(log[..|log| - 1], eventType, i);
    }
  }
}
