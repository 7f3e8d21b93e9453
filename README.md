# Dagster: materialization caches, gRPC server registry, S3 log keys

This project is a Dafny model of three parts of Dagster, with proofs of the properties each part promises.

1. **`CachingInstanceQueryer`** (`caching_instance_queryer.py`). This is the per-tick cache that the asset
   reconciliation sensor and the freshness logic put in front of the Dagster instance.
   - The event log is a sequence of records, strictly ordered by storage id. The direct instance query
     (`_get_materialization_record`) is a function over that log: the newest matching record strictly
     between two cursors.
   - The class `CachingInstanceQueryer` holds three caches:
     - the positive latest-record cache;
     - the negative "nothing materialized after cursor c" cache;
     - the per-cursor partition-count cache.
   - Its methods update those caches in place and are proved against the direct query. Whatever the caches
     answer is what the log would answer, and every update keeps every cached fact true.
   - This holds for the class as modelled, which consults its caches through the corrected rule `Consult`.
     The consultation as the source writes it (`ConsultAsWritten`) can answer from the cache with a record
     outside the requested window on the `before_cursor` path; see "## Findings".
   - `is_reconciled` is modelled as a recursive function, with a characterisation lemma.
   - The data-time computations are loops over the parents of an asset, proved against fold functions:
     - `_calculate_used_data`: the oldest root data, where missing data absorbs;
     - `_get_in_progress_data_times_for_key_in_run`: the latest time, where an unknown time absorbs;
     - the aggregate over in-progress runs;
     - the failed-run times.
2. **`GrpcServerRegistry`** (`grpc_server_registry.py`). This is the table from repository-location origin
   ids to a server entry or an error entry, together with the list of every started process.
   - The class has these fields, which its methods update in place.
   - Each method is tied to a pure step function over a `State` value, and the lemmas about lookups, reloads
     and cleanup are proved on those functions.
   - The reversed-index deletion of dead processes keeps the source's loop. It is proved to leave exactly
     the live processes, in their original order.
3. **`S3ComputeLogManager` key construction** (`compute_log_manager.py`). This covers prefix cleaning, object
   keys, delete selection, the upload-skip rule and the display path. All of these are pure functions over
   strings, with Python's `split("/")` and `"/".join` modelled in `PathStrings`.

Files:
- `wrappers.dfy`: `Option`, `Result`.
- `path_strings.dfy`: `Split`, `Join`.
- `s3_log_keys.dfy`: S3 keys.
- `event_log.dfy`: records and direct queries.
- `materialization_cache.dfy`: the caching queryer class.
- `asset_graph.dfy`: the graph answers the queryer reads.
- `merging.dfy`: the shared dictionary merge.
- `used_data.dfy`: `_calculate_used_data`.
- `in_progress.dfy`: in-progress and failed data times.
- `reconciliation.dfy`: `is_reconciled`.
- `grpc_server_registry.dfy`: the registry.

Paths in the table below are relative to the repository root:
- caching_instance_queryer.py is `python_modules/dagster/dagster/_utils/caching_instance_queryer.py`;
- grpc_server_registry.py is `python_modules/dagster/dagster/_core/host_representation/grpc_server_registry.py`;
- compute_log_manager.py is `python_modules/libraries/dagster-aws/dagster_aws/s3/compute_log_manager.py`.

## Model

| member | source | states |
|---|---|---|
| EventLog.QueryLatest | python_modules/dagster/dagster/_utils/caching_instance_queryer.py:177-197 | The answer is a record of the log that is a materialization of the asset (and partition, when one is given) strictly between the cursors. There is no answer exactly when no record of the log matches. |
| EventLog.QueryLatestIsMax | python_modules/dagster/dagster/_utils/caching_instance_queryer.py:184-197 | In an ordered log, no matching record has a larger storage id than the answer ("newest first, limit 1"). |
| EventLog.QueryLatestUnique | python_modules/dagster/dagster/_utils/caching_instance_queryer.py:184-197 | A matching record that no matching record outranks is the answer. |
| EventLog.AfterCursorQuery | python_modules/dagster/dagster/_utils/caching_instance_queryer.py:177-197 | A query after cursor c returns the latest materialization when it is newer than c, and nothing otherwise. So "nothing after c" means "the latest is at or before c". |
| EventLog.BeforeCursorQuery | python_modules/dagster/dagster/_utils/caching_instance_queryer.py:177-197 | When the latest materialization lies below `before_cursor`, the bounded query returns it unless `after_cursor` excludes it, in which case it returns nothing. |
| EventLog.MaterializationCounts | python_modules/dagster/dagster/_utils/caching_instance_queryer.py:303-309 | Every count is positive. A partition has a count exactly when it was materialized after the cursor. The count values themselves are not stated (see Left out). |
| EventLog.LatestStorageId | python_modules/dagster/dagster/_utils/caching_instance_queryer.py:669-681 | None exactly when the log has no event of the type. Otherwise the result is the storage id of such an event. |
| EventLog.LatestStorageIdIsMax | python_modules/dagster/dagster/_utils/caching_instance_queryer.py:669-681 | No event of the type has a larger storage id than the one reported. |
| MaterializationCache.ConsultAsWritten | python_modules/dagster/dagster/_utils/caching_instance_queryer.py:210-241 | The cache consultation as written. A partition absent from the all-time counts of a known asset answers None. The instance is asked only on a `before_cursor` lookup or when nothing is cached. |
| MaterializationCache.Consult | python_modules/dagster/dagster/_utils/caching_instance_queryer.py:210-241 | The corrected consultation has the same guarantees as the as-written one. In addition, a record it answers with is the cached record of that partition. |
| MaterializationCache.ConsultSound | python_modules/dagster/dagster/_utils/caching_instance_queryer.py:210-241 | With sound caches, every answer the caches give (positive hit, negative cache, partition-count short cut, `before_cursor` hit) equals the direct query's answer. |
| MaterializationCache.ConsultAsWrittenCounterexample | python_modules/dagster/dagster/_utils/caching_instance_queryer.py:219-222 | Take sound caches holding record 5 and a lookup strictly between cursors 10 and 20. The as-written consultation returns record 5, while the log holds no such record. |
| MaterializationCache.CachingInstanceQueryer.constructor | python_modules/dagster/dagster/_utils/caching_instance_queryer.py:45-62 | All caches start empty and are trivially sound over an ordered log. |
| MaterializationCache.CachingInstanceQueryer.QueryInstance | python_modules/dagster/dagster/_utils/caching_instance_queryer.py:177-197 | Returns the direct query's answer and counts one instance query. |
| MaterializationCache.CachingInstanceQueryer.GetLatestMaterializationRecord | python_modules/dagster/dagster/_utils/caching_instance_queryer.py:199-256 | Uses the corrected consultation `Consult`, not the as-written one (see Findings). With it, the method always returns the direct query's answer, and the caches stay sound. When the caches can answer, neither the caches change nor the instance is asked. Otherwise exactly one query is made. A found record without `before_cursor` is cached. A miss with `after_cursor` lowers the partition's negative-cache cursor to the minimum. `Grown`: no positive entry is lost or changed, no negative entry is lost or raised, and only the looked-up partition's entries are new or changed. |
| MaterializationCache.CachingInstanceQueryer.GetLatestMaterializationRecordsByKey | python_modules/dagster/dagster/_utils/caching_instance_queryer.py:258-278 | The result is `LatestByKey`: exactly the keys with a record between the cursors, each mapped to that record. The caches stay sound and `Grown` over the unpartitioned partitions of the keys: no positive entry is lost or changed, no negative cursor is lost or raised, and entries of other partitions are untouched. |
| MaterializationCache.CachingInstanceQueryer.GetMaterializedPartitions | python_modules/dagster/dagster/_utils/caching_instance_queryer.py:296-316 | Returns exactly the partitions materialized after the cursor. The (cursor, asset) count slot is filled afterwards, and every count slot filled before is kept unchanged. |
| MaterializationCache.CachingInstanceQueryer.PrefetchForKeys | python_modules/dagster/dagster/_utils/caching_instance_queryer.py:68-112 | The caches stay sound. For every prefetched key, its latest record is cached under its own partition in both caches, or "nothing after -1" is recorded when there is none. No entry of another asset changes, and no positive or negative entry is lost. The count caches for the cursor and for all time are replaced by the instance's counts for the keys. |
| MaterializationCache.PrefetchStep | python_modules/dagster/dagster/_utils/caching_instance_queryer.py:76-98 | One round of the prefetch loop keeps both caches sound, records one more key, and touches no other asset. |
| MaterializationCache.PrefetchKeySound | python_modules/dagster/dagster/_utils/caching_instance_queryer.py:79-98 | Caching an asset's latest record under its own partition, with its storage id as the negative cursor (or -1 when there is none), keeps both caches sound. |
| MaterializationCache.PrefetchKeyFrame | python_modules/dagster/dagster/_utils/caching_instance_queryer.py:83-98 | Prefetching one key changes only entries of that asset, and drops no entry of either cache. What was recorded for other keys stays recorded. |
| MaterializationCache.GrownTrans | python_modules/dagster/dagster/_utils/caching_instance_queryer.py:199-278 | Two rounds of lookups grow the caches as their touched partitions together do, so growth composes across the by-key loop. |
| MaterializationCache.RecordGrown | python_modules/dagster/dagster/_utils/caching_instance_queryer.py:243-256 | Recording an instance answer for a partition that has no positive entry (or on the `before_cursor` path) keeps every other entry and never raises a negative cursor. |
| MaterializationCache.GrownStep | python_modules/dagster/dagster/_utils/caching_instance_queryer.py:269-276 | One round of the by-key loop extends the growth so far by the looked-up key's unpartitioned partition. |
| MaterializationCache.Unpartitioned | python_modules/dagster/dagster/_utils/caching_instance_queryer.py:269-272 | Exactly the partition-less asset partitions of the requested keys. |
| MaterializationCache.LatestOfOwnPartition | python_modules/dagster/dagster/_utils/caching_instance_queryer.py:88-98 | An asset's latest materialization is also the latest of its own partition, which justifies caching it under that partition. |
| MaterializationCache.RecordSound | python_modules/dagster/dagster/_utils/caching_instance_queryer.py:243-256 | Storing the instance's answer in the positive cache, and min-lowering the negative cursor on a miss, keeps both caches sound. |
| MaterializationCache.NoneAfterInsert | python_modules/dagster/dagster/_utils/caching_instance_queryer.py:251-255 | A cursor after which nothing matches may be stored in a sound negative cache. |
| MaterializationCache.LatestByKey | python_modules/dagster/dagster/_utils/caching_instance_queryer.py:258-278 | A key is present exactly when it is requested and has a record between the cursors, and it maps to that record ("only returns entries for assets materialized since the cursor"). |
| MaterializationCache.LatestByKeyStep | python_modules/dagster/dagster/_utils/caching_instance_queryer.py:269-276 | Handling one more key adds it exactly when its lookup found a record. |
| MaterializationCache.PositivePartitions | python_modules/dagster/dagster/_utils/caching_instance_queryer.py:310-316 | Exactly the partitions with a count above zero. |
| MaterializationCache.CountsForSound | python_modules/dagster/dagster/_utils/caching_instance_queryer.py:100-112 | Replacing a cursor's count map with the instance's counts keeps the count cache sound. |
| MaterializationCache.CountCacheInsertSound | python_modules/dagster/dagster/_utils/caching_instance_queryer.py:299-309 | Filling one (cursor, asset) slot keeps the count cache sound and keeps every other slot. |
| Merging.MergeWith | python_modules/dagster/dagster/_utils/caching_instance_queryer.py:462-466 | The merged keys are the union of both maps' keys. A key in one map only keeps that map's value, and a key in both maps gets the combined value. |
| Merging.MergeInto | python_modules/dagster/dagster/_utils/caching_instance_queryer.py:461-466 | With an idempotent rule, the in-place `known[key] = combine(known.get(key, value), value)` loop yields `MergeWith`. |
| Merging.MergeWithCommutative | python_modules/dagster/dagster/_utils/caching_instance_queryer.py:423-466 | With a commutative rule, the merge does not depend on which map comes first. |
| Merging.MergeWithAssociative | python_modules/dagster/dagster/_utils/caching_instance_queryer.py:423-466 | With an associative rule, merging parent after parent does not depend on the grouping. |
| UsedData.CombineUsed | python_modules/dagster/dagster/_utils/caching_instance_queryer.py:462-466 | `(None, None)` results exactly when either side is missing. A known result is one of the two pairs and is no newer (in tuple order) than either. |
| UsedData.CombineUsedIdempotent | python_modules/dagster/dagster/_utils/caching_instance_queryer.py:466 | Merging a pair with itself gives the pair, so a key seen for the first time keeps its value. |
| UsedData.CombineUsedCommutative | python_modules/dagster/dagster/_utils/caching_instance_queryer.py:462-466 | The merge rule is symmetric. |
| UsedData.CombineUsedAssociative | python_modules/dagster/dagster/_utils/caching_instance_queryer.py:462-466 | The merge rule is associative. |
| UsedData.ParentRecord | python_modules/dagster/dagster/_utils/caching_instance_queryer.py:427-445 | The parent record is a materialization of the parent. With a pointer tag it is at or before the pointed-to id. An empty or "NULL" pointer gives none. Without a tag it is strictly older than the record itself. |
| UsedData.ComputeUsedData | python_modules/dagster/dagster/_utils/caching_instance_queryer.py:400-468 | Equals `CalculateUsedData`, the recursive definition, including the early returns: a missing record, no non-source parents, stored data for assets with a freshness policy. |
| UsedData.CalculateUsedData | python_modules/dagster/dagster/_utils/caching_instance_queryer.py:400-468 | A never-materialized asset reports each of its non-source roots as missing. An asset without non-source parents is its own root, at this materialization's storage id and timestamp. |
| UsedData.MergeParents | python_modules/dagster/dagster/_utils/caching_instance_queryer.py:422-466 | The parent loop equals the fold over all parents that skips sources. |
| UsedData.UsedDataCoversRoots | python_modules/dagster/dagster/_utils/caching_instance_queryer.py:408-468 | With consistent graph roots and stored data, the used data names exactly the asset's non-source roots, whether or not it was ever materialized. |
| UsedData.FoldCoversRoots | python_modules/dagster/dagster/_utils/caching_instance_queryer.py:422-466 | After n parents, the keys are exactly the roots of the non-source parents among them. |
| UsedData.FoldIsOldest | python_modules/dagster/dagster/_utils/caching_instance_queryer.py:448-466 | A root that any parent reports missing is missing in the result. A known result is no newer than any parent's known pair. |
| UsedData.FoldAttained | python_modules/dagster/dagster/_utils/caching_instance_queryer.py:448-466 | Every value of the fold is the value some non-source parent reports for that root. So a root is missing only when a parent reports it missing, and a known value is the oldest parent value. |
| InProgress.CombineInProgress | python_modules/dagster/dagster/_utils/caching_instance_queryer.py:567-571 | The result is unknown exactly when either side is unknown. Otherwise it is one of the two times and no earlier than either. |
| InProgress.CombineInProgressIdempotent | python_modules/dagster/dagster/_utils/caching_instance_queryer.py:567 | A time merged with itself is unchanged. |
| InProgress.TimesOf | python_modules/dagster/dagster/_utils/caching_instance_queryer.py:547-552 | The data times cover exactly the used-data roots: a known root at its timestamp, a missing root unknown. |
| InProgress.StartTimes | python_modules/dagster/dagster/_utils/caching_instance_queryer.py:555-558 | Holds no key but the asset itself. The asset is present, at "now", exactly when it has no non-source parent. |
| InProgress.InRunDataTimesUnplanned | python_modules/dagster/dagster/_utils/caching_instance_queryer.py:531-552 | An asset the run does not plan, or has already materialized, reports exactly the roots of its latest materialization's used data, unknown exactly where that data is missing. |
| InProgress.InRunFoldKeepsStart | python_modules/dagster/dagster/_utils/caching_instance_queryer.py:555-571 | Merging parents never loses the start entry. |
| InProgress.InRunDataTimesStartsNow | python_modules/dagster/dagster/_utils/caching_instance_queryer.py:516-572 | An asset the run is about to materialize and that has no non-source parent reports itself as a root. |
| InProgress.ComputeInRunDataTimes | python_modules/dagster/dagster/_utils/caching_instance_queryer.py:516-572 | Equals `InRunDataTimes`. An asset the run does not plan, or has already materialized, keeps its current data times. Otherwise the result is the fold of its parents' expected times. |
| InProgress.MergeInRunParents | python_modules/dagster/dagster/_utils/caching_instance_queryer.py:555-572 | The parent loop equals the fold over all parents, starting from `StartTimes`. |
| InProgress.InRunFoldIsLatest | python_modules/dagster/dagster/_utils/caching_instance_queryer.py:560-571 | A root that any parent reports unknown is unknown in the result. A known result is no earlier than any parent's known time. |
| InProgress.InRunFoldAttained | python_modules/dagster/dagster/_utils/caching_instance_queryer.py:555-571 | Every value of the in-run fold is the start value or some parent's value for that root. So a time is unknown only when one of those is unknown, and a known time is the latest of them. |
| InProgress.KnownTimes | python_modules/dagster/dagster/_utils/caching_instance_queryer.py:595-596 | Keeps exactly the roots with a known time, at that time. |
| InProgress.AggregateRuns | python_modules/dagster/dagster/_utils/caching_instance_queryer.py:574-597 | A non-empty aggregate has some run that plans the asset. |
| InProgress.InProgressDataTimes | python_modules/dagster/dagster/_utils/caching_instance_queryer.py:574-597 | The loop over in-progress runs equals the aggregate over the runs that plan the asset. |
| InProgress.AggregateDomain | python_modules/dagster/dagster/_utils/caching_instance_queryer.py:583-597 | The aggregate holds exactly the roots for which some run that plans the asset expects a known time. |
| InProgress.AggregateBound | python_modules/dagster/dagster/_utils/caching_instance_queryer.py:589-596 | Every run's known time for a root is at most the aggregate's time. |
| InProgress.AggregateAttained | python_modules/dagster/dagster/_utils/caching_instance_queryer.py:589-596 | Every aggregate time is some contributing run's time, so the aggregate is the maximum. |
| InProgress.FailureTime | python_modules/dagster/dagster/_utils/caching_instance_queryer.py:633-635 | A non-zero end time is the failure time. Any other failure time is the run's creation timestamp (`end_time or create_timestamp`). |
| InProgress.LastRunFailedWithout | python_modules/dagster/dagster/_utils/caching_instance_queryer.py:609-631 | Holds only when the asset's last run exists in run storage and failed. |
| InProgress.FailedDataTimes | python_modules/dagster/dagster/_utils/caching_instance_queryer.py:599-644 | Empty unless the asset's last run exists, failed, and did not produce its last materialization. |
| InProgress.FailedDataTimesCapped | python_modules/dagster/dagster/_utils/caching_instance_queryer.py:633-644 | After such a failure, the result covers the failed run's expected roots. Unknown times stay unknown. Every known time is the minimum of the failure time and the expected time: at most both, and equal to one of them. |
| Reconciliation.ParentsReconciledAll | python_modules/dagster/dagster/_utils/caching_instance_queryer.py:337-351 | The parent loop succeeds exactly when every remaining parent has nothing after the child's id and is reconciled. |
| Reconciliation.ParentNotNewer | python_modules/dagster/dagster/_utils/caching_instance_queryer.py:340-349 | For a parent partition, "nothing after the child's id, and reconciled" holds exactly when the parent is "materialized strictly before the child, and reconciled". |
| Reconciliation.IsReconciled | python_modules/dagster/dagster/_utils/caching_instance_queryer.py:319-351 | A reconciled partition has been materialized. Without parent partitions, being materialized is enough. |
| Reconciliation.ReconciledIff | python_modules/dagster/dagster/_utils/caching_instance_queryer.py:319-351 | A partition is reconciled exactly when it has been materialized and every parent partition is materialized strictly earlier and is reconciled. |
| Reconciliation.AncestorsReconciled | python_modules/dagster/dagster/_utils/caching_instance_queryer.py:319-351 | Every ancestor along a parent chain of a reconciled partition is reconciled, and was materialized no later. |
| ServerRegistry.StartServer | python_modules/dagster/dagster/_core/host_representation/grpc_server_registry.py:204-230 | A refresh stores an entry for the origin with the current target and creation time, and draws one fresh server id. No other origin's entry changes. |
| ServerRegistry.EndpointFor | python_modules/dagster/dagster/_core/host_representation/grpc_server_registry.py:232-245 | A server entry yields the endpoint of its own server id at `localhost`. An error entry raises `DagsterUserCodeProcessError` with its stored error. |
| ServerRegistry.GetEndpoint | python_modules/dagster/dagster/_core/host_representation/grpc_server_registry.py:187-245 | A missing loadable target raises before anything changes. Otherwise the origin's entry is for the current target and the result is that entry's endpoint or error. A fresh server id is drawn exactly when the origin has no entry or its entry is for another target; when it is current, the result is its endpoint and the state is unchanged. The process list only grows, by at most one. Other origins are untouched. |
| ServerRegistry.GetEndpointValid | python_modules/dagster/dagster/_core/host_representation/grpc_server_registry.py:198-230 | A lookup keeps server ids fresh and distinct across entries and processes. |
| ServerRegistry.RepeatedLookupReuses | python_modules/dagster/dagster/_core/host_representation/grpc_server_registry.py:198-245 | A second lookup of the same origin returns the same server id, or re-raises the same error without retrying, and changes nothing. |
| ServerRegistry.CurrentEntryReused | python_modules/dagster/dagster/_core/host_representation/grpc_server_registry.py:198-245 | In any state, a lookup whose entry is current for the origin's target returns that entry's endpoint or error and changes nothing. |
| ServerRegistry.LaterLookupReuses | python_modules/dagster/dagster/_core/host_representation/grpc_server_registry.py:198-277 | After a lookup, a lookup of another origin and a cleanup pass, a lookup of the first origin whose entry survived returns the same result as the first lookup and changes nothing. |
| ServerRegistry.ReloadEndpoint | python_modules/dagster/dagster/_core/host_representation/grpc_server_registry.py:152-165 | A missing target raises after dropping the origin's entry. With a target, a fresh server id is always drawn, and the origin's new entry is for the current target, created now. |
| ServerRegistry.RefreshStartsFreshServer | python_modules/dagster/dagster/_core/host_representation/grpc_server_registry.py:204-224 | A refresh whose start succeeds appends exactly one process. Its server id is one no process or entry had before. |
| ServerRegistry.FailedStartRecorded | python_modules/dagster/dagster/_core/host_representation/grpc_server_registry.py:225-238 | A failed start stores an error entry, adds no process, and raises the user-code error. |
| ServerRegistry.ReloadAlwaysRefreshes | python_modules/dagster/dagster/_core/host_representation/grpc_server_registry.py:152-165 | A reload refreshes even a current entry. With a successful start it returns a server id no process had, and adds one process. |
| ServerRegistry.Unexpired | python_modules/dagster/dagster/_core/host_representation/grpc_server_registry.py:258-267 | Keeps exactly the entries at most `reload_interval` old, unchanged. |
| ServerRegistry.LiveExactly | python_modules/dagster/dagster/_core/host_representation/grpc_server_registry.py:270-277 | Pruning keeps exactly the processes that have not exited. |
| ServerRegistry.LiveDistinct | python_modules/dagster/dagster/_core/host_representation/grpc_server_registry.py:270-277 | Pruning keeps server ids fresh and distinct. |
| ServerRegistry.GrpcServerRegistry.constructor | python_modules/dagster/dagster/_core/host_representation/grpc_server_registry.py:87-141 | Requires the heartbeat TTL to exceed the reload interval, and starts with no entries, no processes and nothing waited on. |
| ServerRegistry.GrpcServerRegistry.GetGrpcEndpoint | python_modules/dagster/dagster/_core/host_representation/grpc_server_registry.py:167-175 | Result and new fields are `GetEndpoint` of the old fields, and the registry stays valid. |
| ServerRegistry.GrpcServerRegistry.ReloadGrpcEndpoint | python_modules/dagster/dagster/_core/host_representation/grpc_server_registry.py:152-165 | Result and new fields are `ReloadEndpoint` of the old fields: the lookup after dropping the origin's entry. The registry stays valid. |
| ServerRegistry.GrpcServerRegistry.Lookup | python_modules/dagster/dagster/_core/host_representation/grpc_server_registry.py:187-245 | The in-place lookup's result and new fields are `GetEndpoint` of the old fields. |
| ServerRegistry.GrpcServerRegistry.ClearOldProcesses | python_modules/dagster/dagster/_core/host_representation/grpc_server_registry.py:256-277 | Keeps exactly the unexpired entries, unchanged, and exactly the live processes in their original order. The registry stays valid. |
| ServerRegistry.GrpcServerRegistry.DropEntries | python_modules/dagster/dagster/_core/host_representation/grpc_server_registry.py:266-267 | Removes exactly the collected origin ids. |
| ServerRegistry.GrpcServerRegistry.PruneProcesses | python_modules/dagster/dagster/_core/host_representation/grpc_server_registry.py:276-277 | Deleting the dead indexes in reverse leaves exactly the live processes, in order. |
| ServerRegistry.GrpcServerRegistry.ExpiredOriginIds | python_modules/dagster/dagster/_core/host_representation/grpc_server_registry.py:258-264 | Collects exactly the origin ids whose entries are older than the reload interval. |
| ServerRegistry.GrpcServerRegistry.DeadProcessIndexes | python_modules/dagster/dagster/_core/host_representation/grpc_server_registry.py:270-274 | Collects, in increasing order, exactly the indexes of exited processes. |
| ServerRegistry.GrpcServerRegistry.WaitForProcesses | python_modules/dagster/dagster/_core/host_representation/grpc_server_registry.py:287-295 | The first call waits on every process in order. Later calls wait on nothing. |
| PathStrings.JoinSplit | python_modules/libraries/dagster-aws/dagster_aws/s3/compute_log_manager.py:133-135 | Joining with '/' what was split at '/' gives back the string. |
| PathStrings.SplitJoin | python_modules/libraries/dagster-aws/dagster_aws/s3/compute_log_manager.py:133-135 | Splitting what was joined from delimiter-free parts gives back the parts. |
| PathStrings.Split | python_modules/libraries/dagster-aws/dagster_aws/s3/compute_log_manager.py:134 | Always at least one part, none holding '/', and a single part is the whole string. |
| PathStrings.JoinEnds | python_modules/libraries/dagster-aws/dagster_aws/s3/compute_log_manager.py:135 | The joined string starts with the first part, followed by '/' when there are more, and ends with the last part. |
| PathStrings.NonEmptyParts | python_modules/libraries/dagster-aws/dagster_aws/s3/compute_log_manager.py:135 | Keeps exactly the non-empty parts: each kept part is non-empty and drawn from the input, and every non-empty input part is kept. A single part is kept exactly when it is non-empty. |
| PathStrings.NonEmptyPartsAppend | python_modules/libraries/dagster-aws/dagster_aws/s3/compute_log_manager.py:135 | Filtering distributes over concatenation, so the kept parts keep their input order. |
| PathStrings.JoinNoEmptySegments | python_modules/libraries/dagster-aws/dagster_aws/s3/compute_log_manager.py:135 | Joining non-empty, delimiter-free parts yields no leading or trailing '/' and no "//". |
| S3LogKeys.CleanPrefix | python_modules/libraries/dagster-aws/dagster_aws/s3/compute_log_manager.py:133-135 | The cleaned prefix has no empty segment: no leading or trailing '/' and no "//". |
| S3LogKeys.CleanPrefixSegments | python_modules/libraries/dagster-aws/dagster_aws/s3/compute_log_manager.py:133-135 | A non-empty cleaned prefix consists exactly of the original's non-empty segments, in order. |
| S3LogKeys.CleanPrefixIdempotent | python_modules/libraries/dagster-aws/dagster_aws/s3/compute_log_manager.py:133-135 | Cleaning a cleaned prefix changes nothing. |
| S3LogKeys.S3Key | python_modules/libraries/dagster-aws/dagster_aws/s3/compute_log_manager.py:137-145 | Fails exactly for an empty log key. Otherwise the key lies under `prefix/storage/`. |
| S3LogKeys.PartialKeyAppendsSuffix | python_modules/libraries/dagster-aws/dagster_aws/s3/compute_log_manager.py:141-145 | The partial key is the complete key with `.partial` appended, and nothing else changes. |
| S3LogKeys.KeySegments | python_modules/libraries/dagster-aws/dagster_aws/s3/compute_log_manager.py:137-145 | With delimiter-free names, the key's segments are the prefix's segments, "storage", the namespace and `filebase.ext[.partial]`. |
| S3LogKeys.FileNameInjective | python_modules/libraries/dagster-aws/dagster_aws/s3/compute_log_manager.py:139-143 | The file name determines the file base, the stream and the partial flag. |
| S3LogKeys.FileNameLayout | python_modules/libraries/dagster-aws/dagster_aws/s3/compute_log_manager.py:139-143 | The file name is the file base, then '.' and the stream's extension, then `.partial` for a partial upload, and nothing else. |
| S3LogKeys.S3KeyInjective | python_modules/libraries/dagster-aws/dagster_aws/s3/compute_log_manager.py:137-145 | Distinct (log key, stream, partial) triples with delimiter-free names get distinct keys. |
| S3LogKeys.DeleteSelection | python_modules/libraries/dagster-aws/dagster_aws/s3/compute_log_manager.py:152-166 | Fails exactly when neither a log key nor a prefix is given. A log key selects four keys. A prefix selects a listing prefix under `prefix/storage/` that ends in '/'. |
| S3LogKeys.DeletionCoversBothStreams | python_modules/libraries/dagster-aws/dagster_aws/s3/compute_log_manager.py:153-159 | A log-key deletion covers the complete and partial objects of stdout and stderr. |
| S3LogKeys.DeletedKeysDistinct | python_modules/libraries/dagster-aws/dagster_aws/s3/compute_log_manager.py:153-159 | With delimiter-free names, those four keys are pairwise distinct. |
| S3LogKeys.ListPrefixSelectsExactlyExtensions | python_modules/libraries/dagster-aws/dagster_aws/s3/compute_log_manager.py:160-164 | The listing prefix matches the key of a log key exactly when the log key extends the given prefix by at least one name. So `['a']` does not match `['apple', …]`. |
| S3LogKeys.UploadInterval | python_modules/libraries/dagster-aws/dagster_aws/s3/compute_log_manager.py:129-131 | None exactly when the configured interval is None or 0; otherwise the configured value. |
| S3LogKeys.UploadTarget | python_modules/libraries/dagster-aws/dagster_aws/s3/compute_log_manager.py:197-210 | The upload is skipped exactly when `(skip_empty_files or partial)` holds and the file is empty. Otherwise the target is the object key, and an empty log key fails. |
| S3LogKeys.UploadHappens | python_modules/libraries/dagster-aws/dagster_aws/s3/compute_log_manager.py:203-206 | A non-empty file is always uploaded. An empty complete file is uploaded unless `skip_empty_files` is set. |
| S3LogKeys.DisplayPath | python_modules/libraries/dagster-aws/dagster_aws/s3/compute_log_manager.py:181-185 | None exactly when the capture is incomplete. Otherwise the result is `s3://bucket/` followed by the complete object key, or an error for an empty log key. |
| S3LogKeys.DisplayPathNotPartial | python_modules/libraries/dagster-aws/dagster_aws/s3/compute_log_manager.py:181-185 | The display path ends in '.' followed by the stream's extension, so it names the complete object, never the `.partial` one. |

## Left out

- Threads and the lock of the registry, and the cleanup thread's `wait(5)` loop. Each registry method models the code that runs under the lock. `ClearOldProcesses` is one pass of the loop body.
- `GrpcServerRegistry.__exit__`: it joins the cleanup thread and shuts servers down through their clients, which is concurrency and I/O.
- Process spawning, `poll()`, `uuid4` and `pendulum.now` in the registry:
  - whether a start fails is a parameter (`spawnError`);
  - exited processes are a set of server ids;
  - fresh ids come from a counter;
  - the clock is an integer parameter.
- Port, socket, `startup_timeout`, `log_level` and the instance reference of a server process are not modelled. The endpoint carries only the server id and host.
- `check.inst_param` type checks, and `supports_origin`.
- The S3 list, delete, upload, head and presigned-URL calls; `os.stat`; file opening; and `delete_logs`' call into the local compute-log manager. These are network and file I/O. The file size and the capture-complete flag are parameters, and a prefix deletion is modelled by its listing prefix.
- `IO_TYPE_EXTENSION` of the local compute-log manager is not part of this model. The extensions "out" and "err" are used.
- `S3Key`: delimiter-free names are only assumed by the injectivity and segment lemmas. The key function itself accepts any names, as the source does.
- Asset-graph construction (`asset_graph.py`) is not part of this model. The graph's answers are fields of a value, and acyclicity is stated with a level per asset.
- `get_non_source_roots`, and the used data stored in asset-event tags, are taken as consistent where `UsedDataCoversRoots` assumes it (`RootsConsistent`, `StoredConsistent`).
- JSON (de)serialisation in `set_known_used_data` / `get_known_used_data`, and the storage-capability checks. Stored used data is a map parameter.
- `set_known_used_data` and `get_used_data_times_for_record` are not modelled.
- `int()` parsing of input-event pointer tags: a pointer is either a storage id or a null pointer, so a malformed tag is not representable.
- `get_current_minutes_late_for_key` and `freshness_policy.minutes_late` are foreign code.
- Run storage. `_get_in_progress_run_ids` (with its limit of 25) is replaced by the sequence of in-progress runs as a parameter. Run records and the asset record are parameters too.
- `is_asset_in_run`: only the asset-key form is modelled, as membership in the run's planned keys. Its failure on an unknown run id and its partition-tag variant are not modelled.
- `get_asset_record` and the asset-record cache. The last materialization of an asset record is taken to be the latest materialization in the event log.
- `@cached_method` memoisation. Memoised methods are pure functions of the log.
- `is_reconciled` is stated over the direct query, which `ConsultSound` shows the cached lookup agrees with.
- `defaultdict` side effects. Reading the all-time count cache inserts an empty entry, which changes no later answer.
- Python dict iteration order. Maps and sets are used, and the merge laws show that parent order does not matter for the used-data rule. The expired origin ids are collected in an arbitrary order.
- Float timestamps and `datetime` conversions. Timestamps and data times are integers, since only order, min and max are used.
- Partition keys are non-empty strings, so "has a partition key" and "partition key is truthy" coincide.
- `MaterializationCounts`: the contract states which partitions have a count and that each count is positive, not the count's value. Callers read only which counts are positive.
- `DisplayPath` and `UploadTarget`: `is_capture_complete` and `get_captured_local_path` of the local manager are assumed not to raise. For an empty log key the model returns the skip or "incomplete" answer, where the source might fail inside those calls first.
- `GetLatestMaterializationRecord`: the class uses the corrected consultation `Consult`. The source's consultation is `ConsultAsWritten`, whose difference is recorded under "## Findings".
- `MergeWithCommutative`: this lemma and `MergeWithAssociative` are stated for arbitrary rules under hypotheses. That the used-data rule meets them is shown separately by `CombineUsedCommutative` and `CombineUsedAssociative`.

## Findings

| source | as written | input that shows it | evidently intended | confidence | as-written member | corrected member |
|---|---|---|---|---|---|---|
| python_modules/dagster/dagster/_utils/caching_instance_queryer.py:219-222 | With `before_cursor` set, the cached latest record is returned whenever its storage id is below `before_cursor`, without checking `after_cursor`. | Latest record has storage id 5, cached; lookup with `after_cursor=10`, `before_cursor=20`. The cache returns record 5, but no materialization lies strictly between 10 and 20. | Return the cached record only when it also lies after `after_cursor`; otherwise ask the instance. | not executed | MaterializationCache.ConsultAsWritten | MaterializationCache.Consult |
