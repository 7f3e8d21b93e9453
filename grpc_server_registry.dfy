/** `GrpcServerRegistry`: a table from repository-location origin ids to the gRPC server
    process serving each origin (or the error its start-up raised), plus the list of every
    process the registry started. The lock and the cleanup thread are outside the model; each
    method below is the code that runs under the lock. */
module ServerRegistry {
  import opened Wrappers

  /** `LoadableTargetOrigin`: where the code of a location lives. */
  datatype LoadableTarget = LoadableTarget(pythonFile: Option<string>, moduleName: Option<string>,
                                           packageName: Option<string>, workingDirectory: Option<string>,
                                           attribute: Option<string>)

  /** `ManagedGrpcPythonEnvRepositoryLocationOrigin`, as the registry reads it. */
  datatype Origin = Origin(originId: string, locationName: string, loadableTarget: Option<LoadableTarget>)

  /** A started `GrpcServerProcess`, known by the server id it was started with. */
  datatype Process = Process(serverId: nat, target: LoadableTarget)

  /** `ServerRegistryEntry` and `ErrorRegistryEntry`; `created` is the creation timestamp. */
  datatype Entry =
    | ServerEntry(target: LoadableTarget, created: int, serverId: nat)
    | ErrorEntry(target: LoadableTarget, created: int, error: string)

  /** `GrpcServerEndpoint`, without port and socket. */
  datatype Endpoint = Endpoint(serverId: nat, host: string)

  datatype RegistryError =
    | NoTargetInformation(locationName: string)
    | UserCodeProcessError(error: string)

  /** What the registry holds: `_active_entries`, `_all_processes`, and the next fresh server
      id (the model's stand-in for `uuid4`). */
  datatype State = State(entries: map<string, Entry>, processes: seq<Process>, nextServerId: nat)

  /** Every server id in use was drawn before, and no two processes share one. */
  predicate StateValid(s: State) {
    && (forall k :: k in s.entries && s.entries[k].ServerEntry? ==> s.entries[k].serverId < s.nextServerId)
    && (forall i :: 0 <= i < |s.processes| ==> s.processes[i].serverId < s.nextServerId)
    && (forall i, j :: 0 <= i < j < |s.processes| ==> s.processes[i].serverId != s.processes[j].serverId)
  }

  /** A server is (re)started when the origin has no entry or its entry was made for another
      loadable target. */
  predicate NeedsRefresh(entries: map<string, Entry>, originId: string, target: LoadableTarget) {
    originId !in entries || entries[originId].target != target
  }

  /** The refresh: a new server id is drawn; when the process starts (`spawnError` is None) it
      joins the process list and the entry names it, otherwise the entry records the error. */
  function StartServer(s: State, originId: string, target: LoadableTarget, spawnError: Option<string>, now: int)
    : (s': State)
    ensures originId in s'.entries && s'.entries[originId].target == target && s'.entries[originId].created == now
    ensures s'.nextServerId == s.nextServerId + 1
    ensures forall k :: k != originId ==> (k in s'.entries <==> k in s.entries)
    ensures forall k :: k != originId && k in s.entries ==> s'.entries[k] == s.entries[k]
  {
    if spawnError.None? then
      State(s.entries[originId := ServerEntry(target, now, s.nextServerId)],
            s.processes + [Process(s.nextServerId, target)],
            s.nextServerId + 1)
    else
      State(s.entries[originId := ErrorEntry(target, now, spawnError.value)], s.processes, s.nextServerId + 1)
  }

  /** The endpoint an entry yields: its server, or the stored error raised again. */
  function EndpointFor(e: Entry): (r: Result<Endpoint, RegistryError>)
    ensures e.ServerEntry? ==> r == Success(Endpoint(e.serverId, "localhost"))
    ensures e.ErrorEntry? ==> r == Failure(UserCodeProcessError(e.error))
  {
    match e
    case ServerEntry(_, _, id) => Success(Endpoint(id, "localhost"))
    case ErrorEntry(_, _, error) => Failure(UserCodeProcessError(error))
  }

  /** `_get_grpc_endpoint`: the endpoint for the origin and the registry afterwards.
      `spawnError` is what starting a process would raise, `now` the clock. */
  function GetEndpoint(s: State, origin: Origin, spawnError: Option<string>, now: int)
    : (out: (Result<Endpoint, RegistryError>, State))
    ensures origin.loadableTarget.None? ==> out == (Failure(NoTargetInformation(origin.locationName)), s)
    ensures origin.loadableTarget.Some? ==>
              && origin.originId in out.1.entries
              && out.1.entries[origin.originId].target == origin.loadableTarget.value
              && out.0 == EndpointFor(out.1.entries[origin.originId])
    ensures origin.loadableTarget.Some? ==>
              (out.1.nextServerId == s.nextServerId + 1 <==> NeedsRefresh(s.entries, origin.originId, origin.loadableTarget.value))
    ensures origin.loadableTarget.Some? && !NeedsRefresh(s.entries, origin.originId, origin.loadableTarget.value) ==>
              out == (EndpointFor(s.entries[origin.originId]), s)
    ensures s.processes <= out.1.processes && |out.1.processes| <= |s.processes| + 1
    ensures forall k :: k != origin.originId ==> (k in out.1.entries <==> k in s.entries)
    ensures forall k :: k != origin.originId && k in s.entries ==> out.1.entries[k] == s.entries[k]
  {
    if origin.loadableTarget.None? then (Failure(NoTargetInformation(origin.locationName)), s)
    else
      var target := origin.loadableTarget.value;
      var s' := if NeedsRefresh(s.entries, origin.originId, target)
                then StartServer(s, origin.originId, target, spawnError, now)
                else s;
      (EndpointFor(s'.entries[origin.originId]), s')
  }

  /** `reload_grpc_endpoint`: the origin's entry is dropped first, so the lookup refreshes. */
  function ReloadEndpoint(s: State, origin: Origin, spawnError: Option<string>, now: int)
    : (out: (Result<Endpoint, RegistryError>, State))
    ensures origin.loadableTarget.None? ==>
              out == (Failure(NoTargetInformation(origin.locationName)), s.(entries := s.entries - {origin.originId}))
    ensures origin.loadableTarget.Some? ==>
              && out.1.nextServerId == s.nextServerId + 1
              && origin.originId in out.1.entries
              && out.1.entries[origin.originId].created == now
              && out.1.entries[origin.originId].target == origin.loadableTarget.value
  {
    GetEndpoint(s.(entries := s.entries - {origin.originId}), origin, spawnError, now)
  }

  /** A lookup keeps the registry valid. */
  lemma GetEndpointValid(s: State, origin: Origin, spawnError: Option<string>, now: int)
    requires StateValid(s)
    ensures StateValid(GetEndpoint(s, origin, spawnError, now).1)
  {
    var s' := GetEndpoint(s, origin, spawnError, now).1;
    if origin.loadableTarget.Some? && NeedsRefresh(s.entries, origin.originId, origin.loadableTarget.value)
       && spawnError.None? {
      assert s'.processes == s.processes + [Process(s.nextServerId, origin.loadableTarget.value)];
    }
  }

  /** A second lookup of the same origin, whatever happens at start-up by then, returns what
      the first returned (the same server id, or the same error raised again without a
      retry) and changes nothing. */
  lemma RepeatedLookupReuses(s: State, origin: Origin, spawnError1: Option<string>, now1: int,
                             spawnError2: Option<string>, now2: int)
    ensures var (r1, s1) := GetEndpoint(s, origin, spawnError1, now1);
            GetEndpoint(s1, origin, spawnError2, now2) == (r1, s1)
  {
  }

  /** Whatever happens in between, a lookup of an origin whose entry is current (present and
      made for the same loadable target) reuses that entry: the same server id, or the stored
      error raised again without a retry, and the registry is left as it was. */
  lemma CurrentEntryReused(s: State, origin: Origin, spawnError: Option<string>, now: int)
    requires origin.loadableTarget.Some? && !NeedsRefresh(s.entries, origin.originId, origin.loadableTarget.value)
    ensures GetEndpoint(s, origin, spawnError, now) == (EndpointFor(s.entries[origin.originId]), s)
  {
  }

  /** Lookups of other origins and cleanups that keep the entry leave it current: after a first
      lookup, a lookup of another origin and a cleanup that keeps this origin's entry, looking
      the origin up again returns what the first lookup returned, without starting a server. */
  lemma LaterLookupReuses(s: State, origin: Origin, other: Origin, spawnError1: Option<string>,
                          spawnError2: Option<string>, spawnError3: Option<string>,
                          now1: int, now2: int, now3: int, interval: int, exited: set<nat>)
    requires origin.loadableTarget.Some? && other.originId != origin.originId
    ensures var (r1, s1) := GetEndpoint(s, origin, spawnError1, now1);
            var s2 := GetEndpoint(s1, other, spawnError2, now2).1;
            var s3 := State(Unexpired(s2.entries, now3, interval), Live(s2.processes, exited), s2.nextServerId);
            origin.originId in s3.entries ==>
              GetEndpoint(s3, origin, spawnError3, now3) == (r1, s3)
  {
    var (r1, s1) := GetEndpoint(s, origin, spawnError1, now1);
    var s2 := GetEndpoint(s1, other, spawnError2, now2).1;
    var s3 := State(Unexpired(s2.entries, now3, interval), Live(s2.processes, exited), s2.nextServerId);
    if origin.originId in s3.entries {
      assert s3.entries[origin.originId] == s1.entries[origin.originId];
      CurrentEntryReused(s3, origin, spawnError3, now3);
    }
  }

  /** A lookup that needs a refresh and starts its process returns a server id no process and
      no entry had before, and appends exactly that process. */
  lemma RefreshStartsFreshServer(s: State, origin: Origin, now: int)
    requires StateValid(s) && origin.loadableTarget.Some?
    requires NeedsRefresh(s.entries, origin.originId, origin.loadableTarget.value)
    ensures var (r, s') := GetEndpoint(s, origin, None, now);
            && r.Success?
            && (forall i :: 0 <= i < |s.processes| ==> s.processes[i].serverId != r.value.serverId)
            && (forall k :: k in s.entries && s.entries[k].ServerEntry? ==> s.entries[k].serverId != r.value.serverId)
            && s'.processes == s.processes + [Process(r.value.serverId, origin.loadableTarget.value)]
  {
  }

  /** A failed start is remembered: the entry holds the error, no process is added, and the
      error is raised. */
  lemma FailedStartRecorded(s: State, origin: Origin, error: string, now: int)
    requires origin.loadableTarget.Some?
    requires NeedsRefresh(s.entries, origin.originId, origin.loadableTarget.value)
    ensures var (r, s') := GetEndpoint(s, origin, Some(error), now);
            && r == Failure(UserCodeProcessError(error))
            && s'.processes == s.processes
            && s'.entries[origin.originId] == ErrorEntry(origin.loadableTarget.value, now, error)
  {
  }

  /** A reload always refreshes: with a successful start it returns a server id that no
      process of the registry had, even when the origin's entry was current. */
  lemma ReloadAlwaysRefreshes(s: State, origin: Origin, now: int)
    requires StateValid(s) && origin.loadableTarget.Some?
    ensures var (r, s') := ReloadEndpoint(s, origin, None, now);
            && r == Success(Endpoint(s.nextServerId, "localhost"))
            && (forall i :: 0 <= i < |s.processes| ==> s.processes[i].serverId != r.value.serverId)
            && |s'.processes| == |s.processes| + 1
  {
  }

  /** The entries that the cleanup keeps: those at most `interval` old. */
  function Unexpired(entries: map<string, Entry>, now: int, interval: int): (kept: map<string, Entry>)
    ensures forall k :: k in kept <==> k in entries && now - entries[k].created <= interval
    ensures forall k :: k in kept ==> kept[k] == entries[k]
  {
    map k | k in entries && now - entries[k].created <= interval :: entries[k]
  }

  /** The processes that are still running, in their original order; `exited` holds the
      server ids whose `poll()` reports an exit code. */
  function Live(ps: seq<Process>, exited: set<nat>): seq<Process> {
    if |ps| == 0 then []
    else (if ps[0].serverId in exited then [] else [ps[0]]) + Live(ps[1..], exited)
  }

  /** Pruning keeps exactly the live processes. */
  lemma {:induction false} LiveExactly(ps: seq<Process>, exited: set<nat>)
    ensures forall p :: p in Live(ps, exited) <==> p in ps && p.serverId !in exited
    ensures |Live(ps, exited)| <= |ps|
  {
    if |ps| > 0 {
      LiveExactly(ps[1..], exited);
      assert ps == [ps[0]] + ps[1..];
    }
  }

  lemma {:induction false} LiveAppend(a: seq<Process>, b: seq<Process>, exited: set<nat>)
    ensures Live(a + b, exited) == Live(a, exited) + Live(b, exited)
  {
    if |a| > 0 {
      assert (a + b)[1..] == a[1..] + b;
      LiveAppend(a[1..], b, exited);
    } else {
      assert a + b == b;
    }
  }

  /** Live processes only: the whole sequence survives the filter. */
  lemma {:induction false} LiveOfLive(ps: seq<Process>, exited: set<nat>)
    requires forall i :: 0 <= i < |ps| ==> ps[i].serverId !in exited
    ensures Live(ps, exited) == ps
  {
    if |ps| > 0 {
      LiveOfLive(ps[1..], exited);
    }
  }

  /** Pruning keeps a valid registry valid. */
  lemma {:induction false} LiveDistinct(ps: seq<Process>, exited: set<nat>, bound: nat)
    requires forall i :: 0 <= i < |ps| ==> ps[i].serverId < bound
    requires forall i, j :: 0 <= i < j < |ps| ==> ps[i].serverId != ps[j].serverId
    ensures var l := Live(ps, exited);
            && (forall i :: 0 <= i < |l| ==> l[i].serverId < bound)
            && (forall i, j :: 0 <= i < j < |l| ==> l[i].serverId != l[j].serverId)
  {
    if |ps| > 0 {
      LiveDistinct(ps[1..], exited, bound);
      LiveExactly(ps[1..], exited);
      var rest := Live(ps[1..], exited);
      forall i | 0 <= i < |rest|
        ensures rest[i].serverId != ps[0].serverId
      {
        assert rest[i] in ps[1..];
      }
    }
  }

  class GrpcServerRegistry {
    var activeEntries: map<string, Entry>
    var allProcesses: seq<Process>
    var nextServerId: nat
    var waitedForProcesses: bool
    /** The processes `wait_for_processes` waited on, in order. */
    var waitedOn: seq<Process>
    const reloadInterval: int
    const heartbeatTtl: int

    function Snapshot(): State
      reads this
    {
      State(activeEntries, allProcesses, nextServerId)
    }

    ghost predicate Valid()
      reads this
    {
      heartbeatTtl > reloadInterval && StateValid(Snapshot())
    }

    /** `__init__`: the heartbeat TTL must exceed the reload interval. */
    constructor (reloadInterval: int, heartbeatTtl: int)
      requires heartbeatTtl > reloadInterval
      ensures Valid()
      ensures this.reloadInterval == reloadInterval && this.heartbeatTtl == heartbeatTtl
      ensures activeEntries == map[] && allProcesses == [] && !waitedForProcesses && waitedOn == []
    {
      this.reloadInterval := reloadInterval;
      this.heartbeatTtl := heartbeatTtl;
      activeEntries := map[];
      allProcesses := [];
      nextServerId := 0;
      waitedForProcesses := false;
      waitedOn := [];
    }

    /** `get_grpc_endpoint`. */
    method GetGrpcEndpoint(origin: Origin, spawnError: Option<string>, now: int)
      returns (r: Result<Endpoint, RegistryError>)
      requires Valid()
      modifies this`activeEntries, this`allProcesses, this`nextServerId
      ensures Valid()
      ensures (r, Snapshot()) == GetEndpoint(old(Snapshot()), origin, spawnError, now)
    {
      GetEndpointValid(Snapshot(), origin, spawnError, now);
      r := Lookup(origin, spawnError, now);
    }

    /** `reload_grpc_endpoint`. */
    method ReloadGrpcEndpoint(origin: Origin, spawnError: Option<string>, now: int)
      returns (r: Result<Endpoint, RegistryError>)
      requires Valid()
      modifies this`activeEntries, this`allProcesses, this`nextServerId
      ensures Valid()
      ensures (r, Snapshot()) == ReloadEndpoint(old(Snapshot()), origin, spawnError, now)
    {
      if origin.originId in activeEntries {
        activeEntries := activeEntries - {origin.originId};
      }
      assert Snapshot() == old(Snapshot()).(entries := old(activeEntries) - {origin.originId});
      GetEndpointValid(Snapshot(), origin, spawnError, now);
      r := Lookup(origin, spawnError, now);
    }

    /** `_get_grpc_endpoint`. */
    method Lookup(origin: Origin, spawnError: Option<string>, now: int)
      returns (r: Result<Endpoint, RegistryError>)
      modifies this`activeEntries, this`allProcesses, this`nextServerId
      ensures (r, Snapshot()) == GetEndpoint(old(Snapshot()), origin, spawnError, now)
    {
      if origin.loadableTarget.None? {
        return Failure(NoTargetInformation(origin.locationName));
      }
      var target := origin.loadableTarget.value;
      var refresh := origin.originId !in activeEntries || target != activeEntries[origin.originId].target;
      if refresh {
        var newServerId := nextServerId;
        nextServerId := nextServerId + 1;
        if spawnError.None? {
          allProcesses := allProcesses + [Process(newServerId, target)];
          activeEntries := activeEntries[origin.originId := ServerEntry(target, now, newServerId)];
        } else {
          activeEntries := activeEntries[origin.originId := ErrorEntry(target, now, spawnError.value)];
        }
      }
      var entry := activeEntries[origin.originId];
      if entry.ErrorEntry? {
        return Failure(UserCodeProcessError(entry.error));
      }
      r := Success(Endpoint(entry.serverId, "localhost"));
    }

    /** One pass of `_clear_old_processes` at time `now`: entries older than the reload
        interval are dropped, then the processes in `exited` are deleted from the process
        list. */
    method ClearOldProcesses(now: int, exited: set<nat>)
      requires Valid()
      modifies this`activeEntries, this`allProcesses
      ensures Valid()
      ensures activeEntries == Unexpired(old(activeEntries), now, reloadInterval)
      ensures allProcesses == Live(old(allProcesses), exited)
    {
      LiveDistinct(allProcesses, exited, nextServerId);
      var toClear := ExpiredOriginIds(now);
      DropEntries(toClear);
      assert activeEntries == Unexpired(old(activeEntries), now, reloadInterval);
      var dead := DeadProcessIndexes(exited);
      PruneProcesses(exited, dead);
    }

    /** `del self._active_entries[origin_id]` for each collected id. */
    method DropEntries(ids: seq<string>)
      modifies this`activeEntries
      ensures activeEntries == old(activeEntries) - set i | 0 <= i < |ids| :: ids[i]
    {
      var j := 0;
      while j < |ids|
        invariant 0 <= j <= |ids|
        invariant activeEntries == old(activeEntries) - set i | 0 <= i < j :: ids[i]
      {
        activeEntries := activeEntries - {ids[j]};
        j := j + 1;
      }
    }

    /** `for index in reversed(dead_process_indexes): del self._all_processes[index]`. */
    method PruneProcesses(exited: set<nat>, dead: seq<nat>)
      requires DeadIndexes(allProcesses, exited, dead)
      modifies this`allProcesses
      ensures allProcesses == Live(old(allProcesses), exited)
    {
      ghost var original := allProcesses;
      var k := |dead|;
      while k > 0
        invariant 0 <= k <= |dead|
        invariant allProcesses == original[..Cut(dead, k, |original|)]
                                  + Live(original[Cut(dead, k, |original|)..], exited)
      {
        k := k - 1;
        ghost var c := Cut(dead, k + 1, |original|);
        var d := dead[k];
        GapLive(original, exited, dead, k);
        LiveFromDead(original, exited, d, c);
        assert allProcesses[..d] == original[..d];
        assert allProcesses[d + 1..] == original[d + 1..c] + Live(original[c..], exited);
        allProcesses := allProcesses[..d] + allProcesses[d + 1..];
      }
      PruneDone(original, exited, dead);
    }

    /** The first loop of `_clear_old_processes`: the origin ids whose entries are older than
        the reload interval. */
    method ExpiredOriginIds(now: int) returns (ids: seq<string>)
      ensures forall k :: k in ids <==> k in activeEntries && now - activeEntries[k].created > reloadInterval
    {
      ids := [];
      var todo := activeEntries.Keys;
      while todo != {}
        invariant todo <= activeEntries.Keys
        invariant forall k :: k in ids <==> k in activeEntries && k !in todo
                                             && now - activeEntries[k].created > reloadInterval
        decreases todo
      {
        var originId :| originId in todo;
        if now - activeEntries[originId].created > reloadInterval {
          ids := ids + [originId];
        }
        todo := todo - {originId};
      }
    }

    /** The second loop of `_clear_old_processes`: the indexes of the exited processes, in
        increasing order. */
    method DeadProcessIndexes(exited: set<nat>) returns (dead: seq<nat>)
      ensures DeadIndexes(allProcesses, exited, dead)
    {
      dead := [];
      var index := 0;
      while index < |allProcesses|
        invariant 0 <= index <= |allProcesses|
        invariant forall j :: 0 <= j < |dead| ==> dead[j] < index && allProcesses[dead[j]].serverId in exited
        invariant forall j, l :: 0 <= j < l < |dead| ==> dead[j] < dead[l]
        invariant forall x :: 0 <= x < index && allProcesses[x].serverId in exited ==> x in dead
      {
        if allProcesses[index].serverId in exited {
          dead := dead + [index];
        }
        index := index + 1;
      }
    }

    /** `wait_for_processes`: waits on every process the first time only. */
    method WaitForProcesses()
      modifies this`waitedForProcesses, this`waitedOn
      ensures waitedForProcesses
      ensures waitedOn == if old(waitedForProcesses) then old(waitedOn) else old(waitedOn) + allProcesses
    {
      if waitedForProcesses {
        return;
      }
      waitedForProcesses := true;
      var i := 0;
      while i < |allProcesses|
        invariant 0 <= i <= |allProcesses|
        invariant waitedForProcesses
        invariant waitedOn == old(waitedOn) + allProcesses[..i]
      {
        waitedOn := waitedOn + [allProcesses[i]];
        i := i + 1;
      }
    }
  }

  /** `dead` lists, in increasing order, exactly the indexes of the exited processes of `ps`. */
  predicate DeadIndexes(ps: seq<Process>, exited: set<nat>, dead: seq<nat>) {
    && (forall j :: 0 <= j < |dead| ==> dead[j] < |ps| && ps[dead[j]].serverId in exited)
    && (forall j, l :: 0 <= j < l < |dead| ==> dead[j] < dead[l])
    && (forall x :: 0 <= x < |ps| && ps[x].serverId in exited ==> x in dead)
  }

  /** Where the part of the list still to prune ends once the dead indexes from `k` on are
      deleted. */
  function Cut(dead: seq<nat>, k: nat, n: nat): nat {
    if k < |dead| then dead[k] else n
  }

  /** The processes strictly between dead index `dead[k]` and the next one are live. */
  lemma GapLive(ps: seq<Process>, exited: set<nat>, dead: seq<nat>, k: nat)
    requires DeadIndexes(ps, exited, dead) && k < |dead|
    ensures dead[k] < Cut(dead, k + 1, |ps|) <= |ps|
    ensures forall x :: dead[k] < x < Cut(dead, k + 1, |ps|) ==> ps[x].serverId !in exited
  {
    forall x | dead[k] < x < Cut(dead, k + 1, |ps|)
      ensures ps[x].serverId !in exited
    {
      forall l | 0 <= l < |dead|
        ensures dead[l] != x
      {
        if l <= k {
          assert dead[l] <= dead[k];
        } else {
          assert dead[k + 1] <= dead[l];
        }
      }
      assert x !in dead;
    }
  }

  /** From a dead process up to the next dead one, pruning keeps the live ones in between. */
  lemma LiveFromDead(ps: seq<Process>, exited: set<nat>, d: nat, c: nat)
    requires d < c <= |ps| && ps[d].serverId in exited
    requires forall x :: d < x < c ==> ps[x].serverId !in exited
    ensures Live(ps[d..], exited) == ps[d + 1..c] + Live(ps[c..], exited)
  {
    assert ps[d..][1..] == ps[d + 1..];
    assert ps[d + 1..] == ps[d + 1..c] + ps[c..];
    LiveAppend(ps[d + 1..c], ps[c..], exited);
    LiveOfLive(ps[d + 1..c], exited);
  }

  /** Once every dead index is deleted, what remains is the live processes. */
  lemma PruneDone(ps: seq<Process>, exited: set<nat>, dead: seq<nat>)
    requires DeadIndexes(ps, exited, dead)
    ensures ps[..Cut(dead, 0, |ps|)] + Live(ps[Cut(dead, 0, |ps|)..], exited) == Live(ps, exited)
  {
    var c := Cut(dead, 0, |ps|);
    forall x | 0 <= x < c
      ensures ps[x].serverId !in exited
    {
      forall l | 0 <= l < |dead|
        ensures dead[l] != x
      {
        assert dead[0] <= dead[l];
      }
      assert x !in dead;
    }
    LiveOfLive(ps[..c], exited);
    assert ps == ps[..c] + ps[c..];
    LiveAppend(ps[..c], ps[c..], exited);
  }
}
