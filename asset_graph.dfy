/** The parts of `AssetGraph` that the caching queryer reads. The graph itself is defined
    elsewhere in the repository; here its answers are fields of a value. */
module AssetGraphs {
  import opened EventLog

  /** `parents` is `get_parents`, `sourceKeys` is `source_asset_keys`, `nonSourceRoots` is
      `get_non_source_roots`, `freshnessKeys` are the assets that have a freshness policy and
      `partitionParents` is `get_parents_partitions`. `level` ranks the assets so that every
      parent ranks below its child: the graph is acyclic. */
  datatype AssetGraph = AssetGraph(
    parents: map<AssetKey, seq<AssetKey>>,
    sourceKeys: set<AssetKey>,
    nonSourceRoots: map<AssetKey, set<AssetKey>>,
    freshnessKeys: set<AssetKey>,
    partitionParents: map<AssetPartition, seq<AssetPartition>>,
    level: map<AssetKey, nat>)

  function Parents(g: AssetGraph, key: AssetKey): seq<AssetKey> {
    if key in g.parents then g.parents[key] else []
  }

  function NonSourceRoots(g: AssetGraph, key: AssetKey): set<AssetKey> {
    if key in g.nonSourceRoots then g.nonSourceRoots[key] else {}
  }

  function PartitionParents(g: AssetGraph, ap: AssetPartition): seq<AssetPartition> {
    if ap in g.partitionParents then g.partitionParents[ap] else []
  }

  function Level(g: AssetGraph, key: AssetKey): nat {
    if key in g.level then g.level[key] else 0
  }

  /** `has_non_source_parents`. */
  predicate HasNonSourceParents(g: AssetGraph, key: AssetKey) {
    exists p :: p in Parents(g, key) && p !in g.sourceKeys
  }

  /** Every parent ranks strictly below its child. */
  ghost predicate Acyclic(g: AssetGraph) {
    forall k, p :: p in Parents(g, k) ==> Level(g, p) < Level(g, k)
  }

  /** An acyclic graph whose partition parents are partitions of parent assets. */
  ghost predicate WellFormed(g: AssetGraph) {
    && Acyclic(g)
    && forall ap, pp :: pp in PartitionParents(g, ap) ==> pp.assetKey in Parents(g, ap.assetKey)
  }

  /** The non-source roots of a non-source asset with no non-source parents are the asset
      itself; those of any other asset are the roots of its non-source parents together. Every
      asset with recorded roots has its non-source parents' roots recorded too. */
  ghost predicate RootsConsistent(g: AssetGraph) {
    forall k :: k in g.nonSourceRoots ==>
      && (forall p :: p in Parents(g, k) && p !in g.sourceKeys ==> p in g.nonSourceRoots)
      && g.nonSourceRoots[k] == RootsFromParents(g, k)
  }

  ghost function RootsFromParents(g: AssetGraph, key: AssetKey): set<AssetKey> {
    if HasNonSourceParents(g, key) then
      set p, r | p in Parents(g, key) && p !in g.sourceKeys && r in NonSourceRoots(g, p) :: r
    else {key}
  }
}
