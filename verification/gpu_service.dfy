/** The GPU server side of the platform: the first-fit allocator that the
    task scheduler asks for a server, the ping that records a server's
    reachability, the maintenance window and the cluster counts.
    The server table is a sequence in the order the store returns it. */
module GpuService {
  import opened Models

  /** Ids of the tasks the store lists as running on server `sid`
      (the `tasks` query filtered on `gpu_server_id` and `status`). */
  function RunningOn(tasks: map<TaskId, Task>, sid: ServerId): set<TaskId> {
    set id | id in tasks && tasks[id].status == Running && tasks[id].gpuServerId == Some(sid)
  }

  /** `_check_server_availability`: fewer running tasks than `gpu_count`.
      A server without `gpu_count` makes the comparison raise, and the
      handler answers "not available". */
  predicate HasFreeSlot(s: GPUServer, tasks: map<TaskId, Task>) {
    s.gpuCount.Some? && |RunningOn(tasks, s.id)| < s.gpuCount.value
  }

  /** The `is_active` flags of the rows, in row order. */
  function ActiveFlags(servers: seq<GPUServer>): (r: seq<bool>)
    ensures |r| == |servers| && forall i :: 0 <= i < |servers| ==> r[i] == servers[i].isActive
  {
    seq(|servers|, i requires 0 <= i < |servers| => servers[i].isActive)
  }

  /** The `is_active = true` query, keeping the store's row order: one
      entry per active row. */
  function ActiveServers(servers: seq<GPUServer>): (r: seq<GPUServer>)
    ensures |r| <= |servers|
    ensures forall i :: 0 <= i < |r| ==> r[i].isActive && r[i] in servers
    ensures forall s :: s in servers && s.isActive ==> s in r
  {
    if servers == [] then []
    else if servers[0].isActive then [servers[0]] + ActiveServers(servers[1..])
    else ActiveServers(servers[1..])
  }

  /** The query returns one row per active row of the table. */
  lemma {:induction false} ActiveServersCount(servers: seq<GPUServer>)
    ensures |ActiveServers(servers)| == multiset(ActiveFlags(servers))[true]
  {
    if servers != [] {
      assert ActiveFlags(servers) == [servers[0].isActive] + ActiveFlags(servers[1..]);
      ActiveServersCount(servers[1..]);
    }
  }

  /** The query keeps the store's order: filtering a table split in two
      gives the filtered first part followed by the filtered second. */
  lemma {:induction false} ActiveServersAppend(a: seq<GPUServer>, b: seq<GPUServer>)
    ensures ActiveServers(a + b) == ActiveServers(a) + ActiveServers(b)
    decreases |a|
  {
    if a == [] {
      assert a + b == b;
    } else {
      assert (a + b)[0] == a[0];
      assert (a + b)[1..] == a[1..] + b;
      ActiveServersAppend(a[1..], b);
    }
  }

  /** `candidates[i]` is the first candidate with a free slot. */
  predicate IsFirstFit(candidates: seq<GPUServer>, tasks: map<TaskId, Task>, i: int) {
    && 0 <= i < |candidates|
    && HasFreeSlot(candidates[i], tasks)
    && forall j :: 0 <= j < i ==> !HasFreeSlot(candidates[j], tasks)
  }

  /** First fit is deterministic: at most one position is the first fit. */
  lemma FirstFitUnique(candidates: seq<GPUServer>, tasks: map<TaskId, Task>, i: int, k: int)
    requires IsFirstFit(candidates, tasks, i) && IsFirstFit(candidates, tasks, k)
    ensures i == k
  {
  }

  /** `find_available_server`: scan the active servers in query order and
      return the first with a free slot. `queryFails` stands for the store
      raising, which the handler turns into None. */
  method FindAvailableServer(servers: seq<GPUServer>, tasks: map<TaskId, Task>, queryFails: bool)
    returns (r: Option<GPUServer>)
    ensures queryFails ==> r.None?
    ensures r.Some? ==> r.value in servers && r.value.isActive && HasFreeSlot(r.value, tasks)
    ensures r.Some? ==> exists i :: IsFirstFit(ActiveServers(servers), tasks, i) && ActiveServers(servers)[i] == r.value
    ensures r.None? && !queryFails ==> forall s :: s in servers && s.isActive ==> !HasFreeSlot(s, tasks)
  {
    if queryFails {
      return None;
    }
    var candidates := ActiveServers(servers);
    if candidates == [] {
      return None;
    }
    var i := 0;
    while i < |candidates|
      invariant 0 <= i <= |candidates|
      invariant forall j :: 0 <= j < i ==> !HasFreeSlot(candidates[j], tasks)
    {
      if HasFreeSlot(candidates[i], tasks) {
        assert IsFirstFit(candidates, tasks, i);
        return Some(candidates[i]);
      }
      i := i + 1;
    }
    forall s | s in servers && s.isActive
      ensures !HasFreeSlot(s, tasks)
    {
      var j :| 0 <= j < |candidates| && candidates[j] == s;
    }
    return None;
  }

  /** Applies `f` to every row whose id is `id` (an `update ... eq('id', id)`). */
  function UpdateServers(servers: seq<GPUServer>, id: ServerId, f: GPUServer -> GPUServer): (r: seq<GPUServer>)
    ensures |r| == |servers|
    ensures forall i :: 0 <= i < |r| ==> r[i] == if servers[i].id == id then f(servers[i]) else servers[i]
  {
    seq(|servers|, i requires 0 <= i < |servers| => if servers[i].id == id then f(servers[i]) else servers[i])
  }

  predicate ServerExists(servers: seq<GPUServer>, id: ServerId) {
    exists i :: 0 <= i < |servers| && servers[i].id == id
  }

  /** `ping_server`: `probe` is the outcome of the reachability check.
      An unknown id answers false and writes nothing; otherwise the row is
      marked online exactly when the probe succeeded, `last_ping` is
      stamped, and the probe's outcome is returned. */
  method PingServer(servers: seq<GPUServer>, id: ServerId, probe: bool, now: Time)
    returns (ok: bool, servers': seq<GPUServer>)
    ensures !ServerExists(servers, id) ==> !ok && servers' == servers
    ensures ServerExists(servers, id) ==> ok == probe
    ensures |servers'| == |servers|
    ensures forall i :: 0 <= i < |servers| && servers[i].id != id ==> servers'[i] == servers[i]
    ensures forall i :: 0 <= i < |servers| && servers[i].id == id ==>
              servers'[i] == servers[i].(status := if probe then Online else Offline, lastPing := Some(now))
  {
    var found := false;
    var k := 0;
    while k < |servers| && !found
      invariant 0 <= k <= |servers|
      invariant found ==> ServerExists(servers, id)
      invariant !found ==> forall j :: 0 <= j < k ==> servers[j].id != id
    {
      found := servers[k].id == id;
      k := k + 1;
    }
    if !found {
      return false, servers;
    }
    var st := if probe then Online else Offline;
    servers' := UpdateServers(servers, id, (s: GPUServer) => s.(status := st, lastPing := Some(now)));
    ok := probe;
  }

  /** `schedule_maintenance` writes twice, with the sleep of the
      maintenance window between the two writes, so other requests can
      change the table in between. This is the first write: the rows with
      `id` are marked maintenance and stamped with the start of the
      window. */
  method StartMaintenance(servers: seq<GPUServer>, id: ServerId, start: Time) returns (during: seq<GPUServer>)
    ensures |during| == |servers|
    ensures forall i :: 0 <= i < |servers| && servers[i].id == id ==>
              during[i] == servers[i].(status := Maintenance, updatedAt := Some(start))
    ensures forall i :: 0 <= i < |servers| && servers[i].id != id ==> during[i] == servers[i]
  {
    during := UpdateServers(servers, id, (s: GPUServer) => s.(status := Maintenance, updatedAt := Some(start)));
  }

  /** The second write of `schedule_maintenance`, once the window's sleep
      ends, on the table as it stands then: the rows with `id` come back
      online whatever happened to them during the window, keeping every
      other field written meanwhile; a server deleted during the window
      stays deleted. */
  method EndMaintenance(current: seq<GPUServer>, id: ServerId, end: Time) returns (after: seq<GPUServer>)
    ensures |after| == |current|
    ensures forall i :: 0 <= i < |current| && current[i].id == id ==>
              after[i] == current[i].(status := Online, updatedAt := Some(end))
    ensures forall i :: 0 <= i < |current| && current[i].id != id ==> after[i] == current[i]
    ensures !ServerExists(current, id) ==> after == current
  {
    after := UpdateServers(current, id, (s: GPUServer) => s.(status := Online, updatedAt := Some(end)));
    if !ServerExists(current, id) {
      assert forall i :: 0 <= i < |current| ==> after[i] == current[i];
    }
  }

  /** A failed ping during the maintenance window: the ping marks the
      server offline and stamps `last_ping`; the end of the window then
      brings it back online and keeps that `last_ping`. */
  method PingDuringMaintenance(servers: seq<GPUServer>, id: ServerId, start: Time, pingAt: Time, end: Time)
    returns (after: seq<GPUServer>)
    ensures |after| == |servers|
    ensures forall i :: 0 <= i < |servers| && servers[i].id == id ==>
              after[i] == servers[i].(status := Online, lastPing := Some(pingAt), updatedAt := Some(end))
    ensures forall i :: 0 <= i < |servers| && servers[i].id != id ==> after[i] == servers[i]
  {
    var during := StartMaintenance(servers, id, start);
    var ok, pinged := PingServer(during, id, false, pingAt);
    after := EndMaintenance(pinged, id, end);
  }

  // ---------------------------------------------------------------------
  // Cluster statistics

  datatype ClusterStats = ClusterStats(
    totalServers: nat,
    activeServers: nat,
    onlineServers: nat,
    totalGpus: int,
    runningTasks: nat,
    pendingTasks: nat,
    completedTasks: nat,
    failedTasks: nat)

  /** The `status` of the rows, in row order. */
  function StatusesOf(servers: seq<GPUServer>): (r: seq<GPUStatus>)
    ensures |r| == |servers| && forall i :: 0 <= i < |servers| ==> r[i] == servers[i].status
  {
    seq(|servers|, i requires 0 <= i < |servers| => servers[i].status)
  }

  /** `len([s for s in servers if s['status'] == 'online'])`: the number
      of rows whose status is online. */
  function CountOnline(servers: seq<GPUServer>): (n: nat)
    ensures n == multiset(StatusesOf(servers))[Online]
    ensures n <= |servers|
  {
    if servers == [] then 0
    else
      assert StatusesOf(servers) == [servers[0].status] + StatusesOf(servers[1..]);
      (if servers[0].status == Online then 1 else 0) + CountOnline(servers[1..])
  }

  /** `sum(gpu_count for active servers)`; None when an active server has
      no `gpu_count` (adding None raises). */
  function TotalGpus(servers: seq<GPUServer>): (r: Option<int>)
    ensures r.None? <==> exists s :: s in servers && s.isActive && s.gpuCount.None?
  {
    if servers == [] then Some(0)
    else
      var rest := TotalGpus(servers[1..]);
      if !servers[0].isActive then rest
      else if servers[0].gpuCount.None? || rest.None? then None
      else Some(servers[0].gpuCount.value + rest.value)
  }

  /** Inactive servers contribute nothing to the GPU total. */
  lemma {:induction false} TotalGpusOnlyActive(servers: seq<GPUServer>)
    ensures TotalGpus(servers) == TotalGpus(ActiveServers(servers))
  {
    if servers != [] {
      TotalGpusOnlyActive(servers[1..]);
      if servers[0].isActive {
        assert ([servers[0]] + ActiveServers(servers[1..]))[1..] == ActiveServers(servers[1..]);
      }
    }
  }

  /** The ids of the tasks whose status is `st`. */
  function TasksWithStatus(tasks: map<TaskId, Task>, st: TaskStatus): set<TaskId> {
    set id | id in tasks && tasks[id].status == st
  }

  /** `get_cluster_stats`; None stands for the empty dictionary the
      handler returns when the computation raises. */
  function GetClusterStats(servers: seq<GPUServer>, tasks: map<TaskId, Task>): (r: Option<ClusterStats>)
    ensures r.None? <==> exists s :: s in servers && s.isActive && s.gpuCount.None?
    ensures r.Some? ==> r.value.totalServers == |servers|
    ensures r.Some? ==> r.value.activeServers == multiset(ActiveFlags(servers))[true] <= r.value.totalServers
    ensures r.Some? ==> r.value.onlineServers == multiset(StatusesOf(servers))[Online] <= r.value.totalServers
    ensures r.Some? ==> r.value.totalGpus == TotalGpus(ActiveServers(servers)).value
    ensures r.Some? ==> && r.value.runningTasks == |TasksWithStatus(tasks, Running)|
                        && r.value.pendingTasks == |TasksWithStatus(tasks, Pending)|
                        && r.value.completedTasks == |TasksWithStatus(tasks, Completed)|
                        && r.value.failedTasks == |TasksWithStatus(tasks, Failed)|
    ensures r.Some? ==> r.value.runningTasks + r.value.pendingTasks + r.value.completedTasks + r.value.failedTasks <= |tasks|
  {
    var gpus := TotalGpus(servers);
    if gpus.None? then None
    else
      TotalGpusOnlyActive(servers);
      ActiveServersCount(servers);
      StatusCountsBounded(tasks);
      Some(ClusterStats(
        |servers|, |ActiveServers(servers)|, CountOnline(servers), gpus.value,
        |TasksWithStatus(tasks, Running)|, |TasksWithStatus(tasks, Pending)|,
        |TasksWithStatus(tasks, Completed)|, |TasksWithStatus(tasks, Failed)|))
  }

  /** The per-status sets are disjoint parts of the table, so their sizes
      add up to at most the number of tasks. */
  lemma StatusCountsBounded(tasks: map<TaskId, Task>)
    ensures |TasksWithStatus(tasks, Running)| + |TasksWithStatus(tasks, Pending)|
          + |TasksWithStatus(tasks, Completed)| + |TasksWithStatus(tasks, Failed)| <= |tasks|
  {
    var r, p, c, f := TasksWithStatus(tasks, Running), TasksWithStatus(tasks, Pending),
                      TasksWithStatus(tasks, Completed), TasksWithStatus(tasks, Failed);
    assert r !! p && (r + p) !! c && (r + p + c) !! f;
    assert |r + p| == |r| + |p|;
    assert |r + p + c| == |r + p| + |c|;
    assert |r + p + c + f| == |r + p + c| + |f|;
    assert r + p + c + f <= tasks.Keys;
    assert |tasks.Keys| == |tasks|;
    SubsetCard(r + p + c + f, tasks.Keys);
  }

  lemma SubsetCard<T>(a: set<T>, b: set<T>)
    requires a <= b
    ensures |a| <= |b|
  {
    assert b == a + (b - a);
  }
}
