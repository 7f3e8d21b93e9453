/** Data times an asset is expected to have once in-progress runs finish
    (`_get_in_progress_data_times_for_key_in_run`, `get_in_progress_data_times_for_key`) or
    that a failed run would have given it (`get_failed_data_times_for_key`). A data time of
    `None` means "unknown", and it overrides every other time. */
module InProgress {
  import opened Wrappers
  import opened EventLog
  import opened AssetGraphs
  import opened Merging
  import opened UsedData

  datatype RunStatus = Queued | Started | Succeeded | Failed | Canceled

  /** `RunRecord`, reduced to what the queryer reads. An empty `assetSelection` stands for a
      run without an asset selection. */
  datatype RunRecord = RunRecord(runId: string, assetSelection: set<AssetKey>, status: RunStatus,
                                 endTime: Option<int>, createTimestamp: int)

  /** `AssetEntry` of an asset record: the last run that targeted the asset and the asset's
      last materialization. */
  datatype AssetEntry = AssetEntry(lastRunId: Option<string>, lastMaterialization: Option<EventRecord>)

  /** `get_planned_materializations_for_run`: the run's asset selection when it has one, and
      otherwise the assets of its planned-materialization events. */
  function PlannedKeys(log: seq<EventRecord>, run: RunRecord): set<AssetKey> {
    if |run.assetSelection| > 0 then run.assetSelection
    else set i | 0 <= i < |log| && log[i].eventType == AssetMaterializationPlanned && log[i].runId == run.runId
                 && log[i].assetKey.Some? :: log[i].assetKey.value
  }

  /** `get_current_materializations_for_run`: the assets the run has materialized so far. */
  function MaterializedKeys(log: seq<EventRecord>, runId: string): set<AssetKey> {
    set i | 0 <= i < |log| && log[i].eventType == AssetMaterialization && log[i].runId == runId
            && log[i].assetKey.Some? :: log[i].assetKey.value
  }

  function Max(a: int, b: int): int {
    if a >= b then a else b
  }

  /** The merge rule of the in-run parent loop: an unknown time overrides everything,
      otherwise the later time is kept. */
  function CombineInProgress(a: Option<int>, b: Option<int>): (c: Option<int>)
    ensures c.None? <==> a.None? || b.None?
    ensures c.Some? ==> (c == a || c == b) && a.value <= c.value && b.value <= c.value
  {
    if a.None? || b.None? then None else Some(Max(a.value, b.value))
  }

  lemma CombineInProgressIdempotent()
    ensures forall a :: CombineInProgress(a, a) == a
  {
  }

  /** The data times of a used-data map: the timestamp of each root, unknown when missing. */
  function TimesOf(data: map<AssetKey, Used>): (times: map<AssetKey, Option<int>>)
    ensures times.Keys == data.Keys
    ensures forall k :: k in data && data[k].Known? ==> times[k] == Some(data[k].timestamp)
    ensures forall k :: k in data && data[k].Missing? ==> times[k].None?
  {
    map k | k in data :: if data[k].Known? then Some(data[k].timestamp) else None
  }

  /** `_get_in_progress_data_times_for_key_in_run`: an asset the run will not (re)materialize
      keeps the data times of its latest materialization; one it will materialize gets the
      latest of its parents' expected times, and "now" when it has no non-source parent. */
  function InRunDataTimes(log: seq<EventRecord>, g: AssetGraph, stored: map<(AssetKey, nat), map<AssetKey, Used>>,
                          run: RunRecord, now: int, key: AssetKey): (times: map<AssetKey, Option<int>>)
    requires Acyclic(g)
    decreases Level(g, key), 1, 0
  {
    if key !in PlannedKeys(log, run) || key in MaterializedKeys(log, run.runId) then
      TimesOf(CalculateUsedData(log, g, stored, key, Latest(log, AssetPartition(key, None))))
    else InRunFold(log, g, stored, run, now, key, |Parents(g, key)|)
  }

  /** Where the in-run parent loop starts: an asset without non-source parents may be
      materialized right now, which is the worst case for its data time. */
  function StartTimes(g: AssetGraph, key: AssetKey, now: int): (times: map<AssetKey, Option<int>>)
    ensures key in times ==> times[key] == Some(now)
    ensures key in times <==> !HasNonSourceParents(g, key)
    ensures times.Keys <= {key}
  {
    if HasNonSourceParents(g, key) then map[] else map[key := Some(now)]
  }

  /** The in-run map after the first `n` parents of `key` have been merged in. */
  function InRunFold(log: seq<EventRecord>, g: AssetGraph, stored: map<(AssetKey, nat), map<AssetKey, Used>>,
                     run: RunRecord, now: int, key: AssetKey, n: nat): (times: map<AssetKey, Option<int>>)
    requires Acyclic(g) && n <= |Parents(g, key)|
    decreases Level(g, key), 0, n
  {
    if n == 0 then StartTimes(g, key, now)
    else
      MergeWith(CombineInProgress, InRunFold(log, g, stored, run, now, key, n - 1),
                InRunDataTimes(log, g, stored, run, now, Parents(g, key)[n - 1]))
  }

  /** An asset the run will not (re)materialize reports exactly the roots of its latest
      materialization, with their timestamps. */
  lemma InRunDataTimesUnplanned(log: seq<EventRecord>, g: AssetGraph, stored: map<(AssetKey, nat), map<AssetKey, Used>>,
                                run: RunRecord, now: int, key: AssetKey)
    requires Acyclic(g)
    requires key !in PlannedKeys(log, run) || key in MaterializedKeys(log, run.runId)
    ensures var used := CalculateUsedData(log, g, stored, key, Latest(log, AssetPartition(key, None)));
            var times := InRunDataTimes(log, g, stored, run, now, key);
            && times.Keys == used.Keys
            && (forall k :: k in used ==> (times[k].Some? <==> used[k].Known?))
  {
  }

  /** Merging parents never loses a root already in the in-run map. */
  lemma {:induction false} InRunFoldKeepsStart(log: seq<EventRecord>, g: AssetGraph,
                                               stored: map<(AssetKey, nat), map<AssetKey, Used>>,
                                               run: RunRecord, now: int, key: AssetKey, n: nat)
    requires Acyclic(g) && n <= |Parents(g, key)|
    ensures StartTimes(g, key, now).Keys <= InRunFold(log, g, stored, run, now, key, n).Keys
    decreases n
  {
    if n > 0 {
      InRunFoldKeepsStart(log, g, stored, run, now, key, n - 1);
    }
  }

  /** An asset the run is about to materialize and that has no non-source parent may be
      materialized right now: it is among the reported roots. */
  lemma InRunDataTimesStartsNow(log: seq<EventRecord>, g: AssetGraph, stored: map<(AssetKey, nat), map<AssetKey, Used>>,
                                run: RunRecord, now: int, key: AssetKey)
    requires Acyclic(g)
    requires key in PlannedKeys(log, run) && key !in MaterializedKeys(log, run.runId)
    requires !HasNonSourceParents(g, key)
    ensures key in InRunDataTimes(log, g, stored, run, now, key)
  {
    InRunFoldKeepsStart(log, g, stored, run, now, key, |Parents(g, key)|);
  }

  /** `_get_in_progress_data_times_for_key_in_run`, with its early return. */
  method ComputeInRunDataTimes(log: seq<EventRecord>, g: AssetGraph, stored: map<(AssetKey, nat), map<AssetKey, Used>>,
                               run: RunRecord, now: int, key: AssetKey)
    returns (times: map<AssetKey, Option<int>>)
    requires Acyclic(g)
    ensures times == InRunDataTimes(log, g, stored, run, now, key)
    decreases Level(g, key), 1
  {
    if key !in PlannedKeys(log, run) || key in MaterializedKeys(log, run.runId) {
      var latest := Latest(log, AssetPartition(key, None));
      var used := ComputeUsedData(log, g, stored, key, latest);
      return TimesOf(used);
    }
    times := MergeInRunParents(log, g, stored, run, now, key);
  }

  /** The parent loop of `_get_in_progress_data_times_for_key_in_run`. */
  method MergeInRunParents(log: seq<EventRecord>, g: AssetGraph, stored: map<(AssetKey, nat), map<AssetKey, Used>>,
                           run: RunRecord, now: int, key: AssetKey)
    returns (times: map<AssetKey, Option<int>>)
    requires Acyclic(g)
    ensures times == InRunFold(log, g, stored, run, now, key, |Parents(g, key)|)
    decreases Level(g, key), 0
  {
    CombineInProgressIdempotent();
    times := StartTimes(g, key, now);
    var parents := Parents(g, key);
    var i := 0;
    while i < |parents|
      invariant 0 <= i <= |parents|
      invariant times == InRunFold(log, g, stored, run, now, key, i)
    {
      assert parents[i] in Parents(g, key);
      var parentTimes := ComputeInRunDataTimes(log, g, stored, run, now, parents[i]);
      times := MergeInto(CombineInProgress, times, parentTimes);
      i := i + 1;
    }
  }

  /** An unknown time reaching the merge from any parent makes that time unknown in the
      result, and a known result is no earlier than any parent's known time. */
  lemma {:induction false} InRunFoldIsLatest(log: seq<EventRecord>, g: AssetGraph,
                                             stored: map<(AssetKey, nat), map<AssetKey, Used>>,
                                             run: RunRecord, now: int, key: AssetKey, n: nat, i: nat, k: AssetKey)
    requires Acyclic(g) && i < n <= |Parents(g, key)|
    requires k in InRunDataTimes(log, g, stored, run, now, Parents(g, key)[i])
    ensures var fold := InRunFold(log, g, stored, run, now, key, n);
            var t := InRunDataTimes(log, g, stored, run, now, Parents(g, key)[i])[k];
            && k in fold
            && (t.None? ==> fold[k].None?)
            && (t.Some? && fold[k].Some? ==> t.value <= fold[k].value)
    decreases n
  {
    if i < n - 1 {
      InRunFoldIsLatest(log, g, stored, run, now, key, n - 1, i, k);
    }
  }

  /** Every value of the in-run fold is the start value or the value some parent reports for
      that root, so a time is unknown only when the start or a parent reports it unknown, and
      a known time is the latest of those reported. */
  lemma {:induction false} InRunFoldAttained(log: seq<EventRecord>, g: AssetGraph,
                                             stored: map<(AssetKey, nat), map<AssetKey, Used>>,
                                             run: RunRecord, now: int, key: AssetKey, n: nat, k: AssetKey)
    requires Acyclic(g) && n <= |Parents(g, key)|
    requires k in InRunFold(log, g, stored, run, now, key, n)
    ensures var fold := InRunFold(log, g, stored, run, now, key, n);
            || (k in StartTimes(g, key, now) && fold[k] == StartTimes(g, key, now)[k])
            || exists i :: 0 <= i < n && k in InRunDataTimes(log, g, stored, run, now, Parents(g, key)[i])
                           && InRunDataTimes(log, g, stored, run, now, Parents(g, key)[i])[k] == fold[k]
    decreases n
  {
    if n > 0 {
      var fold := InRunFold(log, g, stored, run, now, key, n);
      var prev := InRunFold(log, g, stored, run, now, key, n - 1);
      var child := InRunDataTimes(log, g, stored, run, now, Parents(g, key)[n - 1]);
      if k in child && (k !in prev || fold[k] == child[k]) {
        assert 0 <= n - 1 < n;
      } else {
        assert k in prev && fold[k] == prev[k];
        InRunFoldAttained(log, g, stored, run, now, key, n - 1, k);
      }
    }
  }

  /** The known times of an in-run map; `get_in_progress_data_times_for_key` drops the
      unknown ones. */
  function KnownTimes(times: map<AssetKey, Option<int>>): (known: map<AssetKey, int>)
    ensures forall k :: k in known <==> k in times && times[k].Some?
    ensures forall k :: k in known ==> times[k] == Some(known[k])
  {
    map k | k in times && times[k].Some? :: times[k].value
  }

  lemma MaxIdempotent()
    ensures forall a :: Max(a, a) == a
  {
  }

  /** Run `i` of the in-progress runs plans `key` and expects a known time for `k`. */
  predicate Contributes(log: seq<EventRecord>, g: AssetGraph, stored: map<(AssetKey, nat), map<AssetKey, Used>>,
                        runs: seq<RunRecord>, now: int, key: AssetKey, i: int, k: AssetKey)
    requires Acyclic(g)
  {
    && 0 <= i < |runs|
    && key in PlannedKeys(log, runs[i])
    && k in InRunDataTimes(log, g, stored, runs[i], now, key)
    && InRunDataTimes(log, g, stored, runs[i], now, key)[k].Some?
  }

  /** The aggregate over the first `n` in-progress runs: each run that plans `key` adds its
      known times, keeping the later time per root. */
  function AggregateRuns(log: seq<EventRecord>, g: AssetGraph, stored: map<(AssetKey, nat), map<AssetKey, Used>>,
                         runs: seq<RunRecord>, now: int, key: AssetKey, n: nat): (times: map<AssetKey, int>)
    requires Acyclic(g) && n <= |runs|
    ensures times != map[] ==> exists i :: 0 <= i < n && key in PlannedKeys(log, runs[i])
  {
    if n == 0 then map[]
    else if key !in PlannedKeys(log, runs[n - 1]) then AggregateRuns(log, g, stored, runs, now, key, n - 1)
    else MergeWith(Max, AggregateRuns(log, g, stored, runs, now, key, n - 1),
                   KnownTimes(InRunDataTimes(log, g, stored, runs[n - 1], now, key)))
  }

  /** `get_in_progress_data_times_for_key` over the in-progress runs `runs`. */
  method InProgressDataTimes(log: seq<EventRecord>, g: AssetGraph, stored: map<(AssetKey, nat), map<AssetKey, Used>>,
                             runs: seq<RunRecord>, now: int, key: AssetKey)
    returns (times: map<AssetKey, int>)
    requires Acyclic(g)
    ensures times == AggregateRuns(log, g, stored, runs, now, key, |runs|)
  {
    MaxIdempotent();
    times := map[];
    var i := 0;
    while i < |runs|
      invariant 0 <= i <= |runs|
      invariant times == AggregateRuns(log, g, stored, runs, now, key, i)
    {
      if key in PlannedKeys(log, runs[i]) {
        var inRun := ComputeInRunDataTimes(log, g, stored, runs[i], now, key);
        times := MergeInto(Max, times, KnownTimes(inRun));
      }
      i := i + 1;
    }
  }

  /** The aggregate holds exactly the roots some run expects a known time for. */
  lemma {:induction false} AggregateDomain(log: seq<EventRecord>, g: AssetGraph,
                                           stored: map<(AssetKey, nat), map<AssetKey, Used>>,
                                           runs: seq<RunRecord>, now: int, key: AssetKey, n: nat)
    requires Acyclic(g) && n <= |runs|
    ensures forall k :: k in AggregateRuns(log, g, stored, runs, now, key, n)
                        <==> exists i :: 0 <= i < n && Contributes(log, g, stored, runs, now, key, i, k)
  {
    if n > 0 {
      AggregateDomain(log, g, stored, runs, now, key, n - 1);
      forall k
        ensures k in AggregateRuns(log, g, stored, runs, now, key, n)
                <==> exists i :: 0 <= i < n && Contributes(log, g, stored, runs, now, key, i, k)
      {
        if Contributes(log, g, stored, runs, now, key, n - 1, k) {
          assert k in AggregateRuns(log, g, stored, runs, now, key, n);
        }
        if exists i :: 0 <= i < n - 1 && Contributes(log, g, stored, runs, now, key, i, k) {
          assert k in AggregateRuns(log, g, stored, runs, now, key, n - 1);
        }
      }
    }
  }

  /** Every run's known time for a root is at most the aggregate's. */
  lemma {:induction false} AggregateBound(log: seq<EventRecord>, g: AssetGraph,
                                          stored: map<(AssetKey, nat), map<AssetKey, Used>>,
                                          runs: seq<RunRecord>, now: int, key: AssetKey, n: nat, i: nat, k: AssetKey)
    requires Acyclic(g) && n <= |runs| && i < n && Contributes(log, g, stored, runs, now, key, i, k)
    ensures var agg := AggregateRuns(log, g, stored, runs, now, key, n);
            k in agg && InRunDataTimes(log, g, stored, runs[i], now, key)[k].value <= agg[k]
  {
    if i < n - 1 {
      AggregateBound(log, g, stored, runs, now, key, n - 1, i, k);
    }
  }

  /** Every aggregate time is the known time of some run that plans the asset. */
  lemma {:induction false} AggregateAttained(log: seq<EventRecord>, g: AssetGraph,
                                             stored: map<(AssetKey, nat), map<AssetKey, Used>>,
                                             runs: seq<RunRecord>, now: int, key: AssetKey, n: nat, k: AssetKey)
    requires Acyclic(g) && n <= |runs| && k in AggregateRuns(log, g, stored, runs, now, key, n)
    ensures exists i :: 0 <= i < n && Contributes(log, g, stored, runs, now, key, i, k)
                        && InRunDataTimes(log, g, stored, runs[i], now, key)[k]
                           == Some(AggregateRuns(log, g, stored, runs, now, key, n)[k])
  {
    var agg := AggregateRuns(log, g, stored, runs, now, key, n);
    var prev := AggregateRuns(log, g, stored, runs, now, key, n - 1);
    if key !in PlannedKeys(log, runs[n - 1]) {
      AggregateAttained(log, g, stored, runs, now, key, n - 1, k);
    } else {
      var last := KnownTimes(InRunDataTimes(log, g, stored, runs[n - 1], now, key));
      if k in last && (k !in prev || agg[k] == last[k]) {
        assert Contributes(log, g, stored, runs, now, key, n - 1, k);
      } else {
        AggregateAttained(log, g, stored, runs, now, key, n - 1, k);
      }
    }
  }

  /** `end_time or create_timestamp`: an end time of 0 is falsy too. */
  function FailureTime(run: RunRecord): (t: int)
    ensures run.endTime.Some? && run.endTime.value != 0 ==> t == run.endTime.value
    ensures t != run.createTimestamp ==> run.endTime == Some(t) && t != 0
  {
    if run.endTime.Some? && run.endTime.value != 0 then run.endTime.value else run.createTimestamp
  }

  /** The asset's last run exists, failed, and is not the run of its last materialization. */
  predicate LastRunFailedWithout(record: Option<AssetEntry>, runs: map<string, RunRecord>)
    ensures LastRunFailedWithout(record, runs) ==>
              && record.Some? && record.value.lastRunId.Some? && record.value.lastRunId.value in runs
              && runs[record.value.lastRunId.value].status == Failed
  {
    && record.Some? && record.value.lastRunId.Some?
    && record.value.lastRunId.value in runs
    && runs[record.value.lastRunId.value].status == Failed
    && !(record.value.lastMaterialization.Some?
         && record.value.lastMaterialization.value.runId == runs[record.value.lastRunId.value].runId)
  }

  /** `get_failed_data_times_for_key`: when the asset's last run failed before materializing
      it, the times that run would have given, capped at the moment it failed. `record` is the
      asset record and `runs` the run storage. */
  function FailedDataTimes(log: seq<EventRecord>, g: AssetGraph, stored: map<(AssetKey, nat), map<AssetKey, Used>>,
                           record: Option<AssetEntry>, runs: map<string, RunRecord>, key: AssetKey)
    : (times: map<AssetKey, Option<int>>)
    requires Acyclic(g)
    ensures !LastRunFailedWithout(record, runs) ==> times == map[]
  {
    if record.None? || record.value.lastRunId.None? then map[]
    else
      var runId := record.value.lastRunId.value;
      if runId !in runs || runs[runId].status != Failed then map[]
      else
        var run := runs[runId];
        var last := record.value.lastMaterialization;
        if last.Some? && last.value.runId == run.runId then map[]
        else
          var failedAt := FailureTime(run);
          var expected := InRunDataTimes(log, g, stored, run, failedAt, key);
          map k | k in expected :: if expected[k].Some? then Some(Min(failedAt, expected[k].value)) else None
  }

  function Min(a: int, b: int): int {
    if a <= b then a else b
  }

  /** After a failure, the failed run's expected roots are reported, unknown ones stay
      unknown, and no known time lies after the failure. */
  lemma FailedDataTimesCapped(log: seq<EventRecord>, g: AssetGraph, stored: map<(AssetKey, nat), map<AssetKey, Used>>,
                              record: Option<AssetEntry>, runs: map<string, RunRecord>, key: AssetKey)
    requires Acyclic(g) && LastRunFailedWithout(record, runs)
    ensures var run := runs[record.value.lastRunId.value];
            var times := FailedDataTimes(log, g, stored, record, runs, key);
            var expected := InRunDataTimes(log, g, stored, run, FailureTime(run), key);
            && times.Keys == expected.Keys
            && (forall k :: k in times ==> (times[k].None? <==> expected[k].None?))
            && (forall k :: k in times && times[k].Some? ==>
                  && times[k].value <= FailureTime(run) && times[k].value <= expected[k].value
                  && (times[k].value == FailureTime(run) || times[k].value == expected[k].value))
  {
  }
}
