/** `_calculate_used_data`: for a materialization, the oldest upstream root data it was built
    from, found by walking from the record to the parent materializations it consumed. */
module UsedData {
  import opened Wrappers
  import opened EventLog
  import opened AssetGraphs
  import opened Merging

  /** The `(storage_id, timestamp)` pair of a root materialization, or `(None, None)` when
      some root data is missing. */
  datatype Used = Missing | Known(storageId: nat, timestamp: int)

  /** Python's tuple order on two known pairs: by storage id, then by timestamp. */
  predicate KnownLe(a: Used, b: Used)
    requires a.Known? && b.Known?
  {
    a.storageId < b.storageId || (a.storageId == b.storageId && a.timestamp <= b.timestamp)
  }

  /** The merge rule of the parent loop: missing root data overrides everything, otherwise the
      older of the two pairs is kept. */
  function CombineUsed(a: Used, b: Used): (c: Used)
    ensures c.Missing? <==> a.Missing? || b.Missing?
    ensures c.Known? ==> (c == a || c == b) && KnownLe(c, a) && KnownLe(c, b)
  {
    if a.Missing? || b.Missing? then Missing
    else if KnownLe(a, b) then a
    else b
  }

  /** Merging a pair with itself changes nothing, so a key first seen keeps its value. */
  lemma CombineUsedIdempotent()
    ensures forall a :: CombineUsed(a, a) == a
  {
  }

  /** The merge does not depend on the order in which parents are visited. */
  lemma CombineUsedCommutative(a: Used, b: Used)
    ensures CombineUsed(a, b) == CombineUsed(b, a)
  {
  }

  lemma CombineUsedAssociative(a: Used, b: Used, c: Used)
    ensures CombineUsed(CombineUsed(a, b), c) == CombineUsed(a, CombineUsed(b, c))
  {
  }

  /** The used data stored on the instance for a record (`get_known_used_data`): the tag
      store is keyed by asset and record id; nothing stored reads as an empty map. */
  function KnownUsedData(stored: map<(AssetKey, nat), map<AssetKey, Used>>, key: AssetKey, id: nat)
    : map<AssetKey, Used>
  {
    if (key, id) in stored then stored[(key, id)] else map[]
  }

  /** The parent materialization a record consumed: the one its input-event pointer names (at
      or before that storage id), none for an empty or "NULL" pointer, and the latest one
      before the record itself when no pointer was recorded. */
  function ParentRecord(log: seq<EventRecord>, parent: AssetKey, rec: EventRecord): (r: Option<EventRecord>)
    ensures r.Some? ==> r.value in log && r.value.assetKey == Some(parent)
    ensures parent !in rec.inputPointers && r.Some? ==> r.value.storageId < rec.storageId
    ensures parent in rec.inputPointers && rec.inputPointers[parent].PointerTo? && r.Some? ==>
              r.value.storageId <= rec.inputPointers[parent].storageId
    ensures parent in rec.inputPointers && rec.inputPointers[parent].NullPointer? ==> r.None?
  {
    var ap := AssetPartition(parent, None);
    if parent in rec.inputPointers then
      match rec.inputPointers[parent]
      case NullPointer => None
      case PointerTo(id) => QueryLatest(log, ap, None, Some(id + 1))
    else QueryLatest(log, ap, None, Some(rec.storageId))
  }

  /** The used data of `key` as of the materialization `rec` (none: never materialized). */
  function CalculateUsedData(log: seq<EventRecord>, g: AssetGraph, stored: map<(AssetKey, nat), map<AssetKey, Used>>,
                             key: AssetKey, rec: Option<EventRecord>): (data: map<AssetKey, Used>)
    requires Acyclic(g)
    ensures rec.None? ==> data.Keys == NonSourceRoots(g, key) && forall k :: k in data ==> data[k] == Missing
    ensures rec.Some? && !HasNonSourceParents(g, key) ==>
              data == map[key := Known(rec.value.storageId, rec.value.timestamp)]
    decreases Level(g, key), 1, 0
  {
    if rec.None? then map k | k in NonSourceRoots(g, key) :: Missing
    else if !HasNonSourceParents(g, key) then map[key := Known(rec.value.storageId, rec.value.timestamp)]
    else if key in g.freshnessKeys && |KnownUsedData(stored, key, rec.value.storageId)| > 0 then
      KnownUsedData(stored, key, rec.value.storageId)
    else FoldParents(log, g, stored, key, rec.value, |Parents(g, key)|)
  }

  /** The accumulated map after the first `n` parents of `key` have been merged in; source
      parents are skipped. */
  function FoldParents(log: seq<EventRecord>, g: AssetGraph, stored: map<(AssetKey, nat), map<AssetKey, Used>>,
                       key: AssetKey, rec: EventRecord, n: nat): map<AssetKey, Used>
    requires Acyclic(g) && n <= |Parents(g, key)|
    decreases Level(g, key), 0, n
  {
    if n == 0 then map[]
    else
      var acc := FoldParents(log, g, stored, key, rec, n - 1);
      var p := Parents(g, key)[n - 1];
      if p in g.sourceKeys then acc
      else MergeWith(CombineUsed, acc, CalculateUsedData(log, g, stored, p, ParentRecord(log, p, rec)))
  }

  /** `_calculate_used_data`, with the early returns of the source. */
  method ComputeUsedData(log: seq<EventRecord>, g: AssetGraph, stored: map<(AssetKey, nat), map<AssetKey, Used>>,
                         key: AssetKey, rec: Option<EventRecord>)
    returns (data: map<AssetKey, Used>)
    requires Acyclic(g)
    ensures data == CalculateUsedData(log, g, stored, key, rec)
    decreases Level(g, key), 1
  {
    if rec.None? {
      return map k | k in NonSourceRoots(g, key) :: Missing;
    }
    if !HasNonSourceParents(g, key) {
      return map[key := Known(rec.value.storageId, rec.value.timestamp)];
    }
    if key in g.freshnessKeys {
      var known := KnownUsedData(stored, key, rec.value.storageId);
      if |known| > 0 {
        return known;
      }
    }
    data := MergeParents(log, g, stored, key, rec.value);
  }

  /** The parent loop of `_calculate_used_data`: the used data of every non-source parent, as
      of the parent materialization the record consumed, merged into one map. */
  method MergeParents(log: seq<EventRecord>, g: AssetGraph, stored: map<(AssetKey, nat), map<AssetKey, Used>>,
                      key: AssetKey, rec: EventRecord)
    returns (data: map<AssetKey, Used>)
    requires Acyclic(g)
    ensures data == FoldParents(log, g, stored, key, rec, |Parents(g, key)|)
    decreases Level(g, key), 0
  {
    CombineUsedIdempotent();
    var parents := Parents(g, key);
    data := map[];
    var i := 0;
    while i < |parents|
      invariant 0 <= i <= |parents|
      invariant data == FoldParents(log, g, stored, key, rec, i)
    {
      var p := parents[i];
      if p !in g.sourceKeys {
        var parentData := ComputeUsedData(log, g, stored, p, ParentRecord(log, p, rec));
        data := MergeInto(CombineUsed, data, parentData);
      }
      i := i + 1;
    }
  }

  /** Stored used data, when there is any, covers exactly the asset's non-source roots. */
  ghost predicate StoredConsistent(g: AssetGraph, stored: map<(AssetKey, nat), map<AssetKey, Used>>) {
    forall k, id :: |KnownUsedData(stored, k, id)| > 0 ==> KnownUsedData(stored, k, id).Keys == NonSourceRoots(g, k)
  }

  /** With consistent roots and stored data, the used data of an asset names exactly its
      non-source roots, whether or not it was ever materialized. */
  lemma {:induction false} UsedDataCoversRoots(log: seq<EventRecord>, g: AssetGraph,
                                               stored: map<(AssetKey, nat), map<AssetKey, Used>>,
                                               key: AssetKey, rec: Option<EventRecord>)
    requires Acyclic(g) && RootsConsistent(g) && StoredConsistent(g, stored) && key in g.nonSourceRoots
    ensures CalculateUsedData(log, g, stored, key, rec).Keys == NonSourceRoots(g, key)
    decreases Level(g, key), 1
  {
    if rec.Some? && HasNonSourceParents(g, key)
       && !(key in g.freshnessKeys && |KnownUsedData(stored, key, rec.value.storageId)| > 0) {
      FoldCoversRoots(log, g, stored, key, rec.value, |Parents(g, key)|);
    }
  }

  lemma {:induction false} FoldCoversRoots(log: seq<EventRecord>, g: AssetGraph,
                                           stored: map<(AssetKey, nat), map<AssetKey, Used>>,
                                           key: AssetKey, rec: EventRecord, n: nat)
    requires Acyclic(g) && RootsConsistent(g) && StoredConsistent(g, stored) && key in g.nonSourceRoots
    requires n <= |Parents(g, key)|
    ensures FoldParents(log, g, stored, key, rec, n).Keys
         == set p, r | p in Parents(g, key)[..n] && p !in g.sourceKeys && r in NonSourceRoots(g, p) :: r
    decreases Level(g, key), 0, n
  {
    var ps := Parents(g, key);
    if n > 0 {
      FoldCoversRoots(log, g, stored, key, rec, n - 1);
      var p := ps[n - 1];
      assert ps[..n] == ps[..n - 1] + [p];
      if p !in g.sourceKeys {
        UsedDataCoversRoots(log, g, stored, p, ParentRecord(log, p, rec));
      }
    }
  }

  /** Missing root data reaching the merge from any parent makes that root missing in the
      result, and a known result is no newer than any parent's known value. */
  lemma {:induction false} FoldIsOldest(log: seq<EventRecord>, g: AssetGraph,
                                        stored: map<(AssetKey, nat), map<AssetKey, Used>>,
                                        key: AssetKey, rec: EventRecord, n: nat, i: nat, k: AssetKey)
    requires Acyclic(g) && i < n <= |Parents(g, key)| && Parents(g, key)[i] !in g.sourceKeys
    requires k in CalculateUsedData(log, g, stored, Parents(g, key)[i], ParentRecord(log, Parents(g, key)[i], rec))
    ensures var fold := FoldParents(log, g, stored, key, rec, n);
            var v := CalculateUsedData(log, g, stored, Parents(g, key)[i], ParentRecord(log, Parents(g, key)[i], rec))[k];
            && k in fold
            && (v.Missing? ==> fold[k].Missing?)
            && (v.Known? && fold[k].Known? ==> KnownLe(fold[k], v))
    decreases n
  {
    var p := Parents(g, key)[n - 1];
    if i < n - 1 {
      FoldIsOldest(log, g, stored, key, rec, n - 1, i, k);
    }
  }

  /** Every value of the fold is the value some non-source parent reports for that root, so
      a root is missing only when some parent reports it missing, and a known value is the
      oldest of the parents' values. */
  lemma {:induction false} FoldAttained(log: seq<EventRecord>, g: AssetGraph,
                                        stored: map<(AssetKey, nat), map<AssetKey, Used>>,
                                        key: AssetKey, rec: EventRecord, n: nat, k: AssetKey)
    requires Acyclic(g) && n <= |Parents(g, key)|
    requires k in FoldParents(log, g, stored, key, rec, n)
    ensures exists i :: 0 <= i < n && Parents(g, key)[i] !in g.sourceKeys
                        && k in CalculateUsedData(log, g, stored, Parents(g, key)[i], ParentRecord(log, Parents(g, key)[i], rec))
                        && CalculateUsedData(log, g, stored, Parents(g, key)[i], ParentRecord(log, Parents(g, key)[i], rec))[k]
                           == FoldParents(log, g, stored, key, rec, n)[k]
    decreases n
  {
    var fold := FoldParents(log, g, stored, key, rec, n);
    var prev := FoldParents(log, g, stored, key, rec, n - 1);
    var p := Parents(g, key)[n - 1];
    if p in g.sourceKeys {
      FoldAttained(log, g, stored, key, rec, n - 1, k);
    } else {
      var child := CalculateUsedData(log, g, stored, p, ParentRecord(log, p, rec));
      if k in child && (k !in prev || fold[k] == child[k]) {
        assert 0 <= n - 1 < n && Parents(g, key)[n - 1] !in g.sourceKeys;
      } else {
        assert k in prev && fold[k] == prev[k];
        FoldAttained(log, g, stored, key, rec, n - 1, k);
      }
    }
  }
}
