/** `is_reconciled`: an asset partition is reconciled when it has been materialized, no parent
    partition was materialized after it, and every parent partition is reconciled. */
module Reconciliation {
  import opened Wrappers
  import opened EventLog
  import opened AssetGraphs

  function IsReconciled(log: seq<EventRecord>, g: AssetGraph, ap: AssetPartition): (reconciled: bool)
    requires WellFormed(g)
    ensures reconciled ==> Latest(log, ap).Some?
    ensures |PartitionParents(g, ap)| == 0 ==> (reconciled <==> Latest(log, ap).Some?)
    decreases Level(g, ap.assetKey), 1, 0
  {
    var latest := Latest(log, ap);
    latest.Some? && ParentsReconciled(log, g, ap, latest.value.storageId, 0)
  }

  /** The parent loop from position `i` on: no parent newer than `id`, each one reconciled. */
  function ParentsReconciled(log: seq<EventRecord>, g: AssetGraph, ap: AssetPartition, id: nat, i: nat): bool
    requires WellFormed(g) && i <= |PartitionParents(g, ap)|
    decreases Level(g, ap.assetKey), 0, |PartitionParents(g, ap)| - i
  {
    if i == |PartitionParents(g, ap)| then true
    else
      var parent := PartitionParents(g, ap)[i];
      assert parent.assetKey in Parents(g, ap.assetKey);
      && QueryLatest(log, parent, Some(id), None).None?
      && IsReconciled(log, g, parent)
      && ParentsReconciled(log, g, ap, id, i + 1)
  }

  /** Parents checked from position `i` on are all fine exactly when each of them is. */
  lemma {:induction false} ParentsReconciledAll(log: seq<EventRecord>, g: AssetGraph, ap: AssetPartition, id: nat, i: nat)
    requires WellFormed(g) && i <= |PartitionParents(g, ap)|
    ensures ParentsReconciled(log, g, ap, id, i)
        <==> forall j :: i <= j < |PartitionParents(g, ap)| ==>
               QueryLatest(log, PartitionParents(g, ap)[j], Some(id), None).None?
               && IsReconciled(log, g, PartitionParents(g, ap)[j])
    decreases |PartitionParents(g, ap)| - i
  {
    if i < |PartitionParents(g, ap)| {
      ParentsReconciledAll(log, g, ap, id, i + 1);
    }
  }

  /** For a parent partition of a reconciled candidate: "nothing newer than the child, and
      reconciled" is "materialized strictly before the child, and reconciled". */
  lemma ParentNotNewer(log: seq<EventRecord>, g: AssetGraph, ap: AssetPartition, pp: AssetPartition)
    requires WellFormed(g) && Ordered(log) && Latest(log, ap).Some? && pp in PartitionParents(g, ap)
    ensures var id := Latest(log, ap).value.storageId;
            QueryLatest(log, pp, Some(id), None).None? && IsReconciled(log, g, pp)
            <==> Latest(log, pp).Some? && Latest(log, pp).value.storageId < id && IsReconciled(log, g, pp)
  {
    var latest := Latest(log, ap).value;
    AfterCursorQuery(log, pp, latest.storageId);
    if IsReconciled(log, g, pp) {
      var parentLatest := Latest(log, pp).value;
      assert pp.assetKey in Parents(g, ap.assetKey);
      assert Level(g, pp.assetKey) < Level(g, ap.assetKey);
      if parentLatest.storageId == latest.storageId {
        SameIdSameRecord(log, parentLatest, latest);
      }
    }
  }

  /** A reconciled partition has a materialization, and so does every parent partition, each
      strictly older than the child's; every parent partition is reconciled too. Conversely
      these conditions make a partition reconciled. */
  lemma ReconciledIff(log: seq<EventRecord>, g: AssetGraph, ap: AssetPartition)
    requires WellFormed(g) && Ordered(log)
    ensures IsReconciled(log, g, ap)
        <==> && Latest(log, ap).Some?
             && forall pp :: pp in PartitionParents(g, ap) ==>
                  && Latest(log, pp).Some?
                  && Latest(log, pp).value.storageId < Latest(log, ap).value.storageId
                  && IsReconciled(log, g, pp)
  {
    if Latest(log, ap).Some? {
      ParentsReconciledAll(log, g, ap, Latest(log, ap).value.storageId, 0);
      forall pp | pp in PartitionParents(g, ap) {
        ParentNotNewer(log, g, ap, pp);
      }
    }
  }

  /** A chain of partitions, each a parent partition of the one before. */
  predicate IsParentChain(g: AssetGraph, chain: seq<AssetPartition>) {
    forall j :: 0 <= j < |chain| - 1 ==> chain[j + 1] in PartitionParents(g, chain[j])
  }

  /** Every ancestor partition of a reconciled partition is reconciled and was materialized
      no later than it. */
  lemma {:induction false} AncestorsReconciled(log: seq<EventRecord>, g: AssetGraph, chain: seq<AssetPartition>)
    requires WellFormed(g) && Ordered(log) && |chain| > 0 && IsParentChain(g, chain)
    requires IsReconciled(log, g, chain[0])
    ensures IsReconciled(log, g, chain[|chain| - 1])
    ensures Latest(log, chain[|chain| - 1]).value.storageId <= Latest(log, chain[0]).value.storageId
  {
    if |chain| > 1 {
      ReconciledIff(log, g, chain[0]);
      assert chain[1] in PartitionParents(g, chain[0]);
      var rest := chain[1..];
      assert forall j :: 0 <= j < |rest| ==> rest[j] == chain[j + 1];
      AncestorsReconciled(log, g, rest);
    }
  }
}
