/** The master as the objects it is made of, each method proved to do to their fields what
    the functions of MasterState.dfy do to the state as a value. */
module MasterServer {
  import opened Locations
  import opened Seqs
  import opened Wrappers
  import opened MasterState
  import Failures
  import FanOut
  import MasterRuns
  import PathLocks
  import Recovery

  // ---- master/metadata.py ----

  class MetadataStore {
    var namespace: map<Path, FileMeta>
    var fileChunks: map<Path, seq<Handle>>
    var chunkMap: map<Handle, ChunkMeta>
    var chunkVersions: map<Handle, int>
    var nextHandle: Handle
    var gcPending: set<Handle>

    function State(): Store
      reads this
    {
      Store(namespace, fileChunks, chunkMap, chunkVersions, nextHandle, gcPending)
    }

    constructor ()
      ensures State() == EMPTY_STORE
    {
      namespace, fileChunks, chunkMap, chunkVersions := map[], map[], map[], map[];
      nextHandle, gcPending := 1, {};
    }

    /** Handles go up by one; the placement is left empty for the caller to fill. */
    method AllocateChunk(path: Path) returns (handle: Handle)
      modifies this
      ensures handle == old(nextHandle)
      ensures State() == old(State()).(
        nextHandle := old(nextHandle) + 1,
        fileChunks := old(fileChunks)[path := old(ChunksOf(State(), path)) + [handle]],
        chunkMap := old(chunkMap)[handle := ChunkMeta(handle, [], [], None, 0)],
        chunkVersions := old(chunkVersions)[handle := 0])
    {
      handle := nextHandle;
      nextHandle := nextHandle + 1;
      if path !in fileChunks { fileChunks := fileChunks[path := []]; }
      fileChunks := fileChunks[path := fileChunks[path] + [handle]];
      chunkMap := chunkMap[handle := ChunkMeta(handle, [], [], None, 0)];
      chunkVersions := chunkVersions[handle := 0];
    }
  }

  // ---- master/oplog.py ----

  /** The log file, oldest record first, and the checkpoint file beside it. */
  class OperationLog {
    var records: seq<Record>
    var checkpoint: Option<Store>

    function Disk(): Recovery.Disk
      reads this
    {
      Recovery.Disk(checkpoint, records)
    }

    constructor (disk: Recovery.Disk)
      ensures Disk() == disk
    {
      records, checkpoint := disk.log, disk.checkpoint;
    }

    method Append(r: Record)
      modifies this`records
      ensures records == old(records) + [r]
    {
      records := records + [r];
    }

    /** Nothing is skipped and the order is kept. */
    method Replay() returns (all: seq<Record>)
      ensures all == records
    {
      all := [];
      for i := 0 to |records|
        invariant all == records[..i]
      {
        all := all + [records[i]];
      }
    }

    /** The checkpoint takes its place first, then the log is emptied. */
    method WriteCheckpoint(store: MetadataStore)
      modifies this
      ensures Disk() == Recovery.Disk(Some(store.State()), [])
    {
      checkpoint := Some(store.State());
      records := [];
    }
  }

  // ---- List comprehensions and list.remove ----

  lemma {:induction false} FilterAppend(s: seq<Addr>, a: Addr, without: seq<Addr>)
    ensures Filter(s + [a], without) == Filter(s, without) + (if a in without then [] else [a])
    decreases |s|
  {
    if s == [] {
      assert [] + [a] == [a] && [a][1..] == [];
    } else {
      var first, rest := if s[0] in without then [] else [s[0]], Filter(s[1..], without);
      var last := if a in without then [] else [a];
      assert (s + [a])[1..] == s[1..] + [a];
      FilterAppend(s[1..], a, without);
      assert first + (rest + last) == first + rest + last;
    }
  }

  /** `[r for r in s if r not in without]` */
  method Without(s: seq<Addr>, without: seq<Addr>) returns (kept: seq<Addr>)
    ensures kept == Filter(s, without)
  {
    kept := [];
    for i := 0 to |s|
      invariant kept == Filter(s[..i], without)
    {
      assert s[..i + 1] == s[..i] + [s[i]];
      FilterAppend(s[..i], s[i], without);
      if s[i] !in without { kept := kept + [s[i]]; }
    }
    assert s[..|s|] == s;
  }

  lemma {:induction false} RemoveFirstAt(s: seq<Addr>, a: Addr, i: nat)
    requires i < |s| && s[i] == a && a !in s[..i]
    ensures RemoveFirst(s, a) == s[..i] + s[i + 1..]
    decreases |s|
  {
    if i > 0 {
      assert s[0] in s[..i];
      assert s[1..][..i - 1] == s[..i][1..];
      RemoveFirstAt(s[1..], a, i - 1);
    }
  }

  lemma {:induction false} RemoveAbsent(s: seq<Addr>, a: Addr)
    requires a !in s
    ensures RemoveFirst(s, a) == s
    decreases |s|
  {
    if s != [] { RemoveAbsent(s[1..], a); }
  }

  /** `s.remove(a)`, skipped when `a` is not there. */
  method Remove(s: seq<Addr>, a: Addr) returns (rest: seq<Addr>)
    ensures rest == RemoveFirst(s, a)
  {
    for i := 0 to |s|
      invariant a !in s[..i]
    {
      if s[i] == a {
        RemoveFirstAt(s, a, i);
        return s[..i] + s[i + 1..];
      }
    }
    assert s[..|s|] == s;
    RemoveAbsent(s, a);
    return s;
  }

  // ---- master/lease.py ----

  /** What a grant answers; the source uses a missing chunk before it tests for it. */
  datatype Grant = Granted(primary: Addr) | NotGranted | Raised

  class LeaseManager {
    const store: MetadataStore
    const oplog: OperationLog

    constructor (store: MetadataStore, oplog: OperationLog)
      ensures this.store == store && this.oplog == oplog
    {
      this.store, this.oplog := store, oplog;
    }

    /** The part of the master's state a lease concerns. */
    function State(): Master
      reads store, oplog
    {
      Master(store.State(), oplog.records, map[], multiset{}, [])
    }

    /** The version goes up before anybody learns of the lease; with no healthy replica
        nothing happens at all. */
    method GrantLease(h: Handle, now: Time) returns (grant: Grant)
      modifies store, oplog`records
      ensures State() == if h in old(store.chunkMap) then MasterState.GrantLease(old(State()), h, now) else old(State())
      ensures grant == if h !in old(store.chunkMap) then Raised else
        var healthy := Healthy(old(store.chunkMap)[h]); if healthy == [] then NotGranted else Granted(healthy[0])
    {
      if h !in store.chunkMap { return Raised; }
      var chunk := store.chunkMap[h];
      var healthy := Without(chunk.replicas, chunk.stale);
      if healthy == [] { return NotGranted; }
      var version := (if h in store.chunkVersions then store.chunkVersions[h] else 0) + 1;
      store.chunkVersions := store.chunkVersions[h := version];
      oplog.Append(GrantLeaseRecord(now, h, version));
      store.chunkMap := store.chunkMap[h := chunk.(primary := Some(healthy[0]), leaseExpiry := now + LEASE_DURATION)];
      return Granted(healthy[0]);
    }

    method HasValidLease(h: Handle, now: Time) returns (valid: bool)
      ensures valid <==> MasterState.HasValidLease(store.State(), h, now)
    {
      if h !in store.chunkMap { return false; }
      var chunk := store.chunkMap[h];
      return chunk.primary.Some? && now < chunk.leaseExpiry;
    }
  }

  // ---- master/heartbeat.py ----

  /** The chunk table while a dead server is being dropped: `todo` is still as it was. */
  function Dropping(was: map<Handle, ChunkMeta>, todo: set<Handle>, cs: Addr): map<Handle, ChunkMeta> {
    map h | h in was :: if h in todo then was[h] else was[h].(replicas := RemoveFirst(was[h].replicas, cs))
  }

  lemma BeatAllNext(m: Master, cs: Addr, reports: seq<Report>, i: nat)
    requires i < |reports|
    ensures BeatAll(m, cs, reports[..i + 1]) == BeatOne(BeatAll(m, cs, reports[..i]), cs, reports[i])
  {
    assert reports[..i + 1][..i] == reports[..i];
  }

  /** Requests queued before a report do not matter for what the report does. */
  lemma BeatForgets(m: Master, cs: Addr, r: Report)
    ensures BeatOne(m.(repairs := []), cs, r).(repairs := []) == BeatOne(m, cs, r).(repairs := [])
  {
  }

  class HeartbeatMonitor {
    const store: MetadataStore
    var replication: ReplicationManager?
    var lastSeen: map<Addr, Time>

    constructor (store: MetadataStore)
      ensures this.store == store && replication == null && lastSeen == map[]
    {
      this.store, replication, lastSeen := store, null, map[];
    }

    /** The part of the master's state a heartbeat concerns; without a replication manager
        there are no queues. */
    function State(): Master
      reads this, store, replication
    {
      Master(store.State(), [], lastSeen,
        if replication == null then multiset{} else replication.queue,
        if replication == null then [] else replication.staleQueue)
    }

    /** What is left of an effect on the master when nobody takes repair requests. */
    function Seen(m: Master): Master
      reads this
    {
      if replication == null then m.(repairs := []) else m
    }

    method MarkStale(h: Handle, cs: Addr) returns (newly: bool)
      requires h in store.chunkMap
      modifies store`chunkMap
      ensures store.chunkMap == old(store.chunkMap)[h := Reported(old(store.chunkMap)[h], cs, false)]
      ensures newly <==> cs !in old(store.chunkMap)[h].stale
    {
      var chunk := store.chunkMap[h];
      var replicas := Remove(chunk.replicas, cs);
      chunk := chunk.(replicas := replicas);
      newly := cs !in chunk.stale;
      if newly { chunk := chunk.(stale := chunk.stale + [cs]); }
      store.chunkMap := store.chunkMap[h := chunk];
    }

    method MarkCurrent(h: Handle, cs: Addr)
      requires h in store.chunkMap
      modifies store`chunkMap
      ensures store.chunkMap == old(store.chunkMap)[h := Reported(old(store.chunkMap)[h], cs, true)]
    {
      var chunk := store.chunkMap[h];
      if cs !in chunk.replicas { chunk := chunk.(replicas := chunk.replicas + [cs]); }
      var stale := Remove(chunk.stale, cs);
      store.chunkMap := store.chunkMap[h := chunk.(stale := stale)];
    }

    /** The body of the loop over the reported chunks. */
    method HandleReport(cs: Addr, h: Handle, version: int)
      modifies store`chunkMap, if replication == null then {} else {replication}
      ensures State() == Seen(BeatOne(old(State()), cs, Report(h, version)))
    {
      if h !in store.chunkMap { return; }
      var masterVersion := if h in store.chunkVersions then store.chunkVersions[h] else 0;
      if version != masterVersion {
        var newlyStale := MarkStale(h, cs);
        if newlyStale && replication != null { replication.EnqueueStaleRepair(h, cs); }
      } else {
        MarkCurrent(h, cs);
      }
    }

    method HandleHeartbeat(cs: Addr, handles: seq<Handle>, versions: seq<int>, now: Time)
      returns (toDelete: set<Handle>)
      modifies this`lastSeen, store`chunkMap, if replication == null then {} else {replication}
      ensures replication == old(replication)
      ensures State() == Seen(Heartbeat(old(State()), cs, Zip(handles, versions), now))
      ensures toDelete == store.gcPending
    {
      lastSeen := lastSeen[cs := now];
      ghost var start, reports := State(), Zip(handles, versions);
      ghost var m := start;
      for i := 0 to |Zip(handles, versions)|
        invariant replication == old(replication)
        invariant m == BeatAll(start, cs, reports[..i]) && State() == Seen(m)
      {
        BeatAllNext(start, cs, reports, i);
        BeatForgets(m, cs, reports[i]);
        HandleReport(cs, handles[i], versions[i]);
        m := BeatOne(m, cs, reports[i]);
      }
      assert reports[..|reports|] == reports;
      return store.gcPending;
    }

    /** Stale lists keep the server; only replica lists and the table of live servers change. */
    method DropServer(cs: Addr)
      requires cs in lastSeen
      modifies this`lastSeen, store`chunkMap
      ensures store.chunkMap == WithoutReplica(old(store.chunkMap), cs)
      ensures lastSeen == old(lastSeen) - {cs}
    {
      ghost var was := store.chunkMap;
      var todo := store.chunkMap.Keys;
      while todo != {}
        invariant todo <= was.Keys
        invariant lastSeen == old(lastSeen)
        invariant store.chunkMap == Dropping(was, todo, cs)
        decreases |todo|
      {
        HasMember(todo);
        var h :| h in todo;
        todo := todo - {h};
        var chunk := store.chunkMap[h];
        var replicas := Remove(chunk.replicas, cs);
        store.chunkMap := store.chunkMap[h := chunk.(replicas := replicas)];
      }
      lastSeen := lastSeen - {cs};
    }
  }

  // ---- master/replication.py ----

  /** A pass takes the request out, works on it, and puts it back if that failed. */
  lemma RunJobCases(m: Master, job: Job, target: Addr, cloned: bool)
    requires job in m.jobs
    ensures var m1 := m.(jobs := m.jobs - multiset{job});
      var n := if JobPlan(m1, job.handle).Clone? && cloned then AddReplica(m1, job.handle, target) else m1;
      && JobPlan(m1, job.handle) == JobPlan(m, job.handle)
      && RunJob(m, job, target, cloned) ==
         if JobPlan(m, job.handle).Clone? && !cloned then n.(jobs := n.jobs + multiset{job}) else n
  {
    assert m.jobs - multiset{job} + multiset{job} == m.jobs;
  }

  lemma {:induction false} LeastExists(jobs: multiset<Job>)
    requires jobs != multiset{}
    ensures exists j :: MasterRuns.IsLeast(j, jobs)
    decreases |jobs|
  {
    var k :| k in jobs;
    var rest := jobs - multiset{k};
    assert forall i :: i in jobs ==> i == k || i in rest;
    if rest == multiset{} {
      assert MasterRuns.IsLeast(k, jobs);
    } else {
      LeastExists(rest);
      var j :| MasterRuns.IsLeast(j, rest);
      var least := if k.priority < j.priority || (k.priority == j.priority && k.handle <= j.handle) then k else j;
      assert MasterRuns.IsLeast(least, jobs);
    }
  }

  class ReplicationManager {
    const store: MetadataStore
    const heartbeat: HeartbeatMonitor
    /** A priority queue: what it holds, in no particular order. */
    var queue: multiset<Job>
    var staleQueue: seq<Repair>

    constructor (store: MetadataStore, heartbeat: HeartbeatMonitor)
      ensures this.store == store && this.heartbeat == heartbeat && queue == multiset{} && staleQueue == []
    {
      this.store, this.heartbeat, queue, staleQueue := store, heartbeat, multiset{}, [];
    }

    function State(): Master
      reads this, store, heartbeat
    {
      Master(store.State(), [], heartbeat.lastSeen, queue, staleQueue)
    }

    method Enqueue(h: Handle, high: bool)
      modifies this`queue
      ensures queue == old(queue) + multiset{Job(if high then 0 else 1, h)}
    {
      queue := queue + multiset{Job(if high then 0 else 1, h)};
    }

    method EnqueueStaleRepair(h: Handle, stale: Addr)
      modifies this`staleQueue
      ensures staleQueue == old(staleQueue) + [Repair(h, stale)]
    {
      staleQueue := staleQueue + [Repair(h, stale)];
    }

    /** What the priority queue hands out next. */
    method Least() returns (job: Job)
      requires queue != multiset{}
      ensures MasterRuns.IsLeast(job, queue)
    {
      LeastExists(queue);
      job :| job in queue && forall k :: k in queue ==>
        job.priority < k.priority || (job.priority == k.priority && job.handle <= k.handle);
    }

    method VersionNow(h: Handle) returns (version: int)
      ensures version == VersionOf(store.State(), h)
    {
      return if h in store.chunkVersions then store.chunkVersions[h] else 0;
    }

    /** `done` is false where the source raises an exception; `order` is the call made. */
    method Rereplicate(h: Handle, cloned: bool) returns (done: bool, target: Addr, order: Option<CopyOrder>)
      modifies store`chunkMap
      ensures done <==> (JobPlan(old(State()), h).Clone? ==> cloned)
      ensures JobPlan(old(State()), h).Clone? ==> target in old(Targets(State(), h))
      ensures State() == if JobPlan(old(State()), h).Clone? && cloned then AddReplica(old(State()), h, target)
        else old(State())
      ensures order == JobOrder(old(State()), h, target)
      ensures order.Some? ==>
        && order.value.source == old(store.chunkMap)[h].replicas[0] != ""
        && order.value.target in heartbeat.lastSeen && order.value.target !in old(store.chunkMap)[h].replicas
    {
      target, order := "", None;
      if h !in store.chunkMap || |store.chunkMap[h].replicas| >= REPLICATION_FACTOR { return true, target, order; }
      var chunk := store.chunkMap[h];
      if chunk.replicas == [] || chunk.replicas[0] == "" { return true, target, order; }
      var targets := set s | s in heartbeat.lastSeen && s !in chunk.replicas;
      assert targets == Targets(State(), h);
      if targets == {} { return true, target, order; }
      target :| target in targets;
      var version := VersionNow(h);
      order := Some(CopyOrder(chunk.replicas[0], h, target, version));
      if cloned {
        store.chunkMap := store.chunkMap[h := chunk.(replicas := chunk.replicas + [target])];
      }
      return cloned, target, order;
    }

    /** One pass of the re-replication worker; `cloned` says how the clone call went. */
    method WorkerPass(cloned: bool) returns (job: Job, target: Addr, order: Option<CopyOrder>)
      requires queue != multiset{}
      modifies this`queue, store`chunkMap
      ensures old(MasterRuns.IsLeast(job, queue))
      ensures old(JobPlan(State(), job.handle)).Clone? ==> target in old(Targets(State(), job.handle))
      ensures State() == RunJob(old(State()), job, target, cloned)
      ensures order == old(JobOrder(State(), job.handle, target))
    {
      job := Least();
      queue := queue - multiset{job};
      var done;
      done, target, order := Rereplicate(job.handle, cloned);
      RunJobCases(old(State()), job, target, cloned);
      if !done { queue := queue + multiset{job}; }
    }

    /** The copy comes from a healthy replica, from the primary if it is one. */
    method RepairStaleReplica(h: Handle, stale: Addr, cloned: bool) returns (done: bool, order: Option<CopyOrder>)
      modifies store`chunkMap
      ensures done <==> (RepairPlan(old(State()), Repair(h, stale)).Clone? ==> cloned)
      ensures store.chunkMap == if RepairPlan(old(State()), Repair(h, stale)).Clone? && cloned
        then old(store.chunkMap)[h := Repaired(old(store.chunkMap)[h], stale)] else old(store.chunkMap)
      ensures order == RepairOrder(old(State()), Repair(h, stale))
      ensures order.Some? ==> h in old(store.chunkMap) && order.value.target == stale
      ensures order.Some? ==> var c := old(store.chunkMap)[h];
        && order.value.source in c.replicas && order.value.source !in c.stale
        && (c.primary.Some? && c.primary.value in c.replicas && c.primary.value !in c.stale ==>
             order.value.source == c.primary.value)
    {
      order := None;
      if h !in store.chunkMap { return true, order; }
      var chunk := store.chunkMap[h];
      var healthy := Without(chunk.replicas, chunk.stale);
      FanOut.FilterMembers(chunk.replicas, chunk.stale);
      if healthy == [] { return true, order; }
      var version := VersionNow(h);
      var source := if chunk.primary.Some? && chunk.primary.value in healthy then chunk.primary.value else healthy[0];
      order := Some(CopyOrder(source, h, stale, version));
      if !cloned { return false, order; }
      var stales := Remove(chunk.stale, stale);
      chunk := chunk.(stale := stales);
      if stale !in chunk.replicas { chunk := chunk.(replicas := chunk.replicas + [stale]); }
      store.chunkMap := store.chunkMap[h := chunk];
      return true, order;
    }

    /** One pass of the stale-repair worker. */
    method StaleWorkerPass(cloned: bool) returns (order: Option<CopyOrder>)
      requires staleQueue != []
      modifies this`staleQueue, store`chunkMap
      ensures State() == RunRepair(old(State()), cloned)
      ensures order == old(RepairOrder(State(), staleQueue[0]))
    {
      var r := staleQueue[0];
      staleQueue := staleQueue[1..];
      var done;
      done, order := RepairStaleReplica(r.handle, r.server, cloned);
      if !done { staleQueue := staleQueue + [r]; }
    }
  }

  // ---- master/garbage_collection.py ----

  function Handles(hs: seq<Handle>): set<Handle> {
    set h | h in hs
  }

  /** The chunks listed under any of `paths`. */
  function Under(chunks: map<Path, seq<Handle>>, paths: set<Path>): set<Handle> {
    set p, h | p in paths && p in chunks && h in chunks[p] :: h
  }

  lemma UnderOneMore(chunks: map<Path, seq<Handle>>, paths: set<Path>, path: Path)
    ensures Under(chunks, paths + {path}) == Under(chunks, paths) + if path in chunks then Handles(chunks[path]) else {}
  {
    forall h
      ensures h in Under(chunks, paths + {path}) <==>
        h in Under(chunks, paths) || (path in chunks && h in chunks[path])
    {
      if h in Under(chunks, paths) {
        var p :| p in paths && p in chunks && h in chunks[p];
        assert p in paths + {path};
      }
      if path in chunks && h in chunks[path] { assert path in paths + {path}; }
    }
  }

  lemma HandlesAppend(a: seq<Handle>, b: seq<Handle>)
    ensures Handles(a + b) == Handles(a) + Handles(b)
  {
  }

  /** How far a scan has come that has erased the files `erased`. */
  ghost predicate Erasing(was: Store, erased: set<Path>, namespace: map<Path, FileMeta>, chunks: map<Path, seq<Handle>>,
                          orphans: seq<Handle>)
  {
    && namespace == was.namespace - erased
    && chunks == was.fileChunks - erased
    && Handles(orphans) == Under(was.fileChunks, erased)
  }

  lemma ErasingOneMore(was: Store, erased: set<Path>, namespace: map<Path, FileMeta>, chunks: map<Path, seq<Handle>>,
                       orphans: seq<Handle>, path: Path)
    requires Erasing(was, erased, namespace, chunks, orphans) && path !in erased
    ensures Erasing(was, erased + {path}, namespace - {path}, chunks - {path},
        orphans + if path in chunks then chunks[path] else [])
  {
    UnderOneMore(was.fileChunks, erased, path);
    HandlesAppend(orphans, if path in chunks then chunks[path] else []);
  }

  class GarbageCollector {
    const store: MetadataStore
    const oplog: OperationLog

    constructor (store: MetadataStore, oplog: OperationLog)
      ensures this.store == store && this.oplog == oplog
    {
      this.store, this.oplog := store, oplog;
    }

    function State(): Master
      reads store, oplog
    {
      Master(store.State(), oplog.records, map[], multiset{}, [])
    }

    /** The namespace entry moves, the list of chunks stays where it is. */
    method SoftDelete(path: Path, now: Time)
      modifies store`namespace, oplog`records
      ensures State() == DeleteFile(old(State()), path, now)
    {
      if path !in store.namespace { return; }
      var meta := store.namespace[path];
      var hidden := HiddenName(path, now);
      meta := meta.(deleted := true, hiddenName := Some(hidden), deletedAt := Some(now));
      store.namespace := store.namespace[hidden := meta];
      store.namespace := store.namespace - {path};
      oplog.Append(DeleteFileRecord(now, path, hidden));
    }

    /** Erase one hidden file; its chunks are the result. */
    method Erase(path: Path) returns (handles: seq<Handle>)
      modifies store`namespace, store`fileChunks
      ensures store.namespace == old(store.namespace) - {path} && store.fileChunks == old(store.fileChunks) - {path}
      ensures handles == old(ChunksOf(store.State(), path))
    {
      handles := if path in store.fileChunks then store.fileChunks[path] else [];
      store.fileChunks := store.fileChunks - {path};
      store.namespace := store.namespace - {path};
    }

    /** The first phase: erase the expired hidden files and collect their chunks. */
    method EraseExpired(now: Time) returns (orphans: seq<Handle>)
      modifies store`namespace, store`fileChunks
      ensures store.namespace == old(store.namespace) - old(ExpiredPaths(store.State(), now))
      ensures store.fileChunks == old(store.fileChunks) - old(ExpiredPaths(store.State(), now))
      ensures Handles(orphans) == Under(old(store.fileChunks), old(ExpiredPaths(store.State(), now)))
    {
      var items, todo := store.namespace, store.namespace.Keys;
      ghost var was, erased: set<Path> := store.State(), {};
      orphans := [];
      while todo != {}
        invariant todo <= items.Keys && erased !! todo
        invariant forall p :: p in erased || (p in todo && Expired(items[p], now)) <==> p in ExpiredPaths(was, now)
        invariant Erasing(was, erased, store.namespace, store.fileChunks, orphans)
        decreases |todo|
      {
        var path :| path in todo;
        if Expired(items[path], now) {
          ErasingOneMore(was, erased, store.namespace, store.fileChunks, orphans, path);
          var handles := Erase(path);
          orphans := orphans + handles;
          erased := erased + {path};
        }
        todo := todo - {path};
      }
      assert erased == ExpiredPaths(was, now);
    }

    method ScanAndCollect(now: Time)
      modifies store
      ensures State() == Scan(old(State()), now)
    {
      assert Under(store.fileChunks, ExpiredPaths(store.State(), now)) == Orphans(store.State(), now);
      var orphans := EraseExpired(now);
      label erased:
      for i := 0 to |orphans|
        invariant store.namespace == old@erased(store.namespace) && store.fileChunks == old@erased(store.fileChunks)
        invariant store.nextHandle == old(store.nextHandle)
        invariant store.chunkMap == old(store.chunkMap) - Handles(orphans[..i])
        invariant store.chunkVersions == old(store.chunkVersions) - Handles(orphans[..i])
        invariant store.gcPending == old(store.gcPending) + Handles(orphans[..i])
      {
        var h := orphans[i];
        assert orphans[..i + 1] == orphans[..i] + [h];
        HandlesAppend(orphans[..i], [h]);
        assert Handles([h]) == {h};
        store.chunkMap := store.chunkMap - {h};
        store.chunkVersions := store.chunkVersions - {h};
        store.gcPending := store.gcPending + {h};
      }
      assert orphans[..|orphans|] == orphans;
    }
  }

  // ---- master/server.py ----

  /** random.sample of up to three members: any choice. */
  method Sample(population: set<Addr>) returns (chosen: seq<Addr>)
    ensures |chosen| == if |population| < REPLICATION_FACTOR then |population| else REPLICATION_FACTOR
    ensures Distinct(chosen)
    ensures forall a :: a in chosen ==> a in population
  {
    var rest := population;
    chosen := [];
    while rest != {} && |chosen| < REPLICATION_FACTOR
      invariant |chosen| + |rest| == |population| && |chosen| <= REPLICATION_FACTOR
      invariant Distinct(chosen)
      invariant rest <= population && forall a :: a in chosen ==> a in population && a !in rest
      decreases |rest|
    {
      var a :| a in rest;
      chosen, rest := chosen + [a], rest - {a};
    }
  }

  lemma OneMoreJob(hs: set<Handle>, h: Handle)
    requires h !in hs
    ensures multiset(JobsFor(hs + {h})) == multiset(JobsFor(hs)) + multiset{Job(0, h)}
  {
    assert JobsFor(hs + {h}) == JobsFor(hs) + {Job(0, h)};
  }

  /** The failure handler run for each of `dead` in turn. */
  function FailAll(m: Master, dead: seq<Addr>): Master
    decreases |dead|
  {
    if dead == [] then m else ServerFailed(FailAll(m, Init(dead)), Last(dead))
  }

  ghost predicate TimedOut(lastSeen: map<Addr, Time>, a: Addr, now: Time) {
    a in lastSeen && now - lastSeen[a] > HEARTBEAT_TIMEOUT
  }

  /** Of the servers no longer in `todo`, exactly those that timed out were declared dead. */
  ghost predicate PassSoFar(items: map<Addr, Time>, todo: set<Addr>, dead: seq<Addr>, now: Time) {
    && todo <= items.Keys
    && Distinct(dead)
    && (forall a :: a in dead ==> a !in todo)
    && (forall a :: a !in todo ==> (a in dead <==> TimedOut(items, a, now)))
  }

  lemma PassGoesOn(items: map<Addr, Time>, todo: set<Addr>, dead: seq<Addr>, now: Time, a: Addr)
    requires PassSoFar(items, todo, dead, now) && a in todo
    ensures PassSoFar(items, todo - {a}, if now - items[a] > HEARTBEAT_TIMEOUT then dead + [a] else dead, now)
  {
    DistinctAppend(dead, a);
  }

  lemma {:induction false} BeatIgnoresLog(m: Master, log: seq<Record>, cs: Addr, reports: seq<Report>)
    ensures var n := m.(log := log);
      BeatAll(m, cs, reports) == BeatAll(n, cs, reports).(log := m.log)
    decreases |reports|
  {
    if reports != [] { BeatIgnoresLog(m, log, cs, reports[..|reports| - 1]); }
  }

  lemma {:induction false} FailAllSeen(m: Master, dead: seq<Addr>, a: Addr)
    requires a !in dead
    ensures a in FailAll(m, dead).lastSeen <==> a in m.lastSeen
    ensures a in m.lastSeen ==> FailAll(m, dead).lastSeen[a] == m.lastSeen[a]
    decreases |dead|
  {
    if dead != [] { FailAllSeen(m, Init(dead), a); }
  }

  class MasterServicer {
    const store: MetadataStore
    const oplog: OperationLog
    const locks: PathLocks.NamespaceLockManager
    const heartbeat: HeartbeatMonitor
    const leases: LeaseManager
    const gc: GarbageCollector
    const repl: ReplicationManager

    /** The parts share one store and one log. */
    ghost predicate Valid()
      reads heartbeat
    {
      && heartbeat.store == store && heartbeat.replication == repl
      && leases.store == store && leases.oplog == oplog
      && gc.store == store && gc.oplog == oplog
      && repl.store == store && repl.heartbeat == heartbeat
    }

    function State(): Master
      reads store, oplog, heartbeat, repl
    {
      Master(store.State(), oplog.records, heartbeat.lastSeen, repl.queue, repl.staleQueue)
    }

    /** The body of the replay loop. */
    method RestoreRecord(record: Record)
      modifies store
      ensures store.State() == Recovery.ReplayOne(old(store.State()), record)
    {
      match record
      case CreateFileRecord(ts, filename) =>
        store.namespace := store.namespace[filename := FileMeta(filename, ts, false, None, None)];
      case AllocateChunkRecord(_, filename, handle) =>
        if filename !in store.fileChunks { store.fileChunks := store.fileChunks[filename := []]; }
        store.fileChunks := store.fileChunks[filename := store.fileChunks[filename] + [handle]];
      case GrantLeaseRecord(_, handle, version) =>
        store.chunkVersions := store.chunkVersions[handle := version];
      case DeleteFileRecord(ts, path, hidden) =>
        if path in store.namespace {
          var meta := store.namespace[path].(deleted := true, hiddenName := Some(hidden), deletedAt := Some(ts));
          store.namespace := store.namespace[hidden := meta];
          store.namespace := store.namespace - {path};
        }
    }

    /** Without a checkpoint the replay starts from nothing. */
    method RestoreState()
      requires store.State() == EMPTY_STORE
      modifies store
      ensures store.State() == Recovery.Restore(oplog.Disk())
    {
      if oplog.checkpoint.Some? {
        var cp := oplog.checkpoint.value;
        store.namespace, store.fileChunks, store.chunkMap := cp.namespace, cp.fileChunks, cp.chunkMap;
        store.chunkVersions, store.nextHandle, store.gcPending := cp.chunkVersions, cp.nextHandle, cp.gcPending;
      }
      ghost var base := store.State();
      var records := oplog.Replay();
      for i := 0 to |records|
        invariant store.State() == Recovery.Replay(base, records[..i])
      {
        assert Init(records[..i + 1]) == records[..i];
        RestoreRecord(records[i]);
      }
      assert records[..|records|] == records;
    }

    /** A master that starts over what an earlier one left on disk. */
    constructor (disk: Recovery.Disk)
      ensures Valid() && fresh(store) && fresh(oplog) && fresh(heartbeat) && fresh(repl) && fresh(locks)
      ensures State() == Master(Recovery.Restore(disk), disk.log, map[], multiset{}, [])
    {
      var data := new MetadataStore();
      var log := new OperationLog(disk);
      var monitor := new HeartbeatMonitor(data);
      var manager := new ReplicationManager(data, monitor);
      var granter := new LeaseManager(data, log);
      var collector := new GarbageCollector(data, log);
      var names := new PathLocks.NamespaceLockManager();
      store, oplog, locks, heartbeat, leases, gc, repl := data, log, names, monitor, granter, collector, manager;
      new;
      heartbeat.replication := repl;
      RestoreState();
    }

    method CreateFile(path: Path, now: Time) returns (success: bool)
      requires Valid()
      modifies locks, store`namespace, oplog`records
      ensures State() == MasterState.CreateFile(old(State()), path, now)
      ensures success <==> path !in old(store.namespace)
    {
      var held := locks.AcquireForOperation(path);
      if path in store.namespace { return false; }
      store.namespace := store.namespace[path := FileMeta(path, now, false, None, None)];
      oplog.Append(CreateFileRecord(now, path));
      return true;
    }

    method DeleteFile(path: Path, now: Time) returns (success: bool)
      requires Valid()
      modifies locks, store`namespace, oplog`records
      ensures State() == MasterState.DeleteFile(old(State()), path, now)
      ensures success <==> path in old(store.namespace)
    {
      var held := locks.AcquireForOperation(path);
      if path !in store.namespace { return false; }
      gc.SoftDelete(path, now);
      return true;
    }

    method Place(path: Path, chosen: seq<Addr>) returns (h: Handle)
      requires chosen != []
      modifies store
      ensures h == old(store.nextHandle)
      ensures store.State() == old(store.State()).(
        nextHandle := old(store.nextHandle) + 1,
        fileChunks := old(store.fileChunks)[path := old(ChunksOf(store.State(), path)) + [h]],
        chunkMap := old(store.chunkMap)[h := ChunkMeta(h, chosen, [], Some(chosen[0]), 0)],
        chunkVersions := old(store.chunkVersions)[h := 0])
    {
      h := store.AllocateChunk(path);
      store.chunkMap := store.chunkMap[h := store.chunkMap[h].(replicas := chosen)];
      store.chunkMap := store.chunkMap[h := store.chunkMap[h].(primary := Some(chosen[0]))];
    }

    /** The branch that allocates the chunk a request asks for. */
    method AllocateOnSample(path: Path, now: Time) returns (chosen: seq<Addr>)
      requires Valid() && heartbeat.lastSeen != map[]
      modifies store, oplog`records
      ensures IsSample(chosen, heartbeat.lastSeen) && chosen != []
      ensures State() == Allocate(old(State()), path, chosen, now)
    {
      assert |heartbeat.lastSeen| != 0;
      chosen := Sample(heartbeat.lastSeen.Keys);
      var h := Place(path, chosen);
      oplog.Append(AllocateChunkRecord(now, path, h));
    }

    method RenewLease(h: Handle, now: Time)
      requires Valid() && h in store.chunkMap
      modifies store, oplog`records
      ensures State() == EnsureLease(old(State()), h, now)
    {
      var valid := leases.HasValidLease(h, now);
      if !valid {
        var granted := leases.GrantLease(h, now);
      }
    }

    method Answer(h: Handle) returns (reply: LocReply)
      requires h in store.chunkMap
      ensures reply == ReplyFor(store.State(), h)
    {
      var chunk := store.chunkMap[h];
      var healthy := Without(chunk.replicas, chunk.stale);
      var primary := if chunk.primary.Some? then chunk.primary.value else "";
      var secondaries := Without(healthy, [primary]);
      var version := if h in store.chunkVersions then store.chunkVersions[h] else 0;
      return Located(Location(h, primary, secondaries, version));
    }

    /** The rest of the handler: find the chunk, renew its lease, answer. */
    method LocateAt(path: Path, chunks: seq<Handle>, index: int, now: Time) returns (reply: LocReply)
      requires Valid() && chunks == ChunksOf(store.State(), path)
      modifies store, oplog`records
      ensures (State(), reply) == LocateExisting(old(State()), path, index, now)
    {
      // a negative index counts from the end
      var i := if index < 0 then |chunks| + index else index;
      if i < 0 || i >= |chunks| { return InternalError; }
      var h := chunks[i];
      if h !in store.chunkMap { return InternalError; }
      RenewLease(h, now);
      reply := Answer(h);
    }

    method LocateNew(path: Path, create: bool, now: Time) returns (reply: LocReply, chosen: seq<Addr>)
      requires Valid()
      modifies store, oplog`records
      ensures create && heartbeat.lastSeen != map[] ==> IsSample(chosen, heartbeat.lastSeen) && chosen != []
      ensures (State(), reply) == MasterState.LocateNew(old(State()), path, create, chosen, now)
    {
      chosen := [];
      if !create { return ChunkNotFound, chosen; }
      if heartbeat.lastSeen == map[] { return NoActiveServers, chosen; }
      chosen := AllocateOnSample(path, now);
      var chunks := store.fileChunks[path];
      reply := LocateAt(path, chunks, |chunks| - 1, now);
    }

    /** `chosen` is the sample drawn when a chunk had to be allocated. */
    method GetChunkLocations(path: Path, index: int, create: bool, now: Time)
      returns (reply: LocReply, chosen: seq<Addr>)
      requires Valid()
      modifies locks, store, oplog`records
      ensures old(Allocates(State(), path, index, create)) ==> IsSample(chosen, old(heartbeat.lastSeen)) && chosen != []
      ensures (State(), reply) == MasterState.GetChunkLocations(old(State()), path, index, create, chosen, now)
    {
      chosen := [];
      if path !in store.namespace { return FileNotFound, chosen; }
      var held := locks.AcquireForOperation(path);
      var chunks := if path in store.fileChunks then store.fileChunks[path] else [];
      var i := index;
      if i == -1 { i := if |chunks| > 0 then |chunks| - 1 else 0; }
      assert chunks == ChunksOf(store.State(), path) && i == WantedIndex(store.State(), path, index);
      if i >= |chunks| {
        reply, chosen := LocateNew(path, create, now);
      } else {
        reply := LocateAt(path, chunks, i, now);
      }
    }

    method HeartBeat(cs: Addr, handles: seq<Handle>, versions: seq<int>, now: Time) returns (toDelete: set<Handle>)
      requires Valid()
      modifies heartbeat`lastSeen, store`chunkMap, repl
      ensures Valid()
      ensures State() == Heartbeat(old(State()), cs, Zip(handles, versions), now)
      ensures toDelete == store.gcPending
    {
      toDelete := heartbeat.HandleHeartbeat(cs, handles, versions, now);
      BeatIgnoresLog(old(State()).(lastSeen := old(heartbeat.lastSeen)[cs := now]), [], cs, Zip(handles, versions));
    }

    method EnqueueUnderReplicated()
      modifies repl`queue
      ensures repl.queue == old(repl.queue) + multiset(JobsFor(UnderReplicated(store.chunkMap)))
    {
      var items, todo := store.chunkMap, store.chunkMap.Keys;
      ghost var done: set<Handle> := {};
      while todo != {}
        invariant todo <= items.Keys && done !! todo
        invariant done <= UnderReplicated(items) <= done + todo
        invariant repl.queue == old(repl.queue) + multiset(JobsFor(done))
        decreases |todo|
      {
        HasMember(todo);
        var h :| h in todo;
        if |items[h].replicas| < REPLICATION_FACTOR {
          OneMoreJob(done, h);
          done := done + {h};
          repl.Enqueue(h, true);
        }
        todo := todo - {h};
      }
    }

    /** new_handle_failure */
    method HandleFailure(cs: Addr)
      requires Valid() && cs in heartbeat.lastSeen
      modifies heartbeat`lastSeen, store`chunkMap, repl`queue
      ensures Valid()
      ensures State() == ServerFailed(old(State()), cs)
    {
      heartbeat.DropServer(cs);
      EnqueueUnderReplicated();
    }

    /** One pass of check_dead_servers, over the servers as first listed. */
    method CheckDeadServers(now: Time) returns (dead: seq<Addr>)
      requires Valid()
      modifies heartbeat`lastSeen, store`chunkMap, repl`queue
      ensures Valid()
      ensures Distinct(dead) && forall a :: a in dead <==> TimedOut(old(heartbeat.lastSeen), a, now)
      ensures State() == FailAll(old(State()), dead)
    {
      var items, todo := heartbeat.lastSeen, heartbeat.lastSeen.Keys;
      dead := [];
      while todo != {}
        invariant Valid()
        invariant PassSoFar(items, todo, dead, now)
        invariant State() == FailAll(old(State()), dead)
        decreases |todo|
      {
        var a :| a in todo;
        PassGoesOn(items, todo, dead, now, a);
        if now - items[a] > HEARTBEAT_TIMEOUT {
          FailAllSeen(old(State()), dead, a);
          assert Init(dead + [a]) == dead;
          HandleFailure(a);
          dead := dead + [a];
        }
        todo := todo - {a};
      }
    }
  }

  // ---- The methods are the steps of the runs ----

  function Deaths(dead: seq<Addr>, now: Time): seq<MasterRuns.Event>
    decreases |dead|
  {
    if dead == [] then [] else Deaths(Init(dead), now) + [MasterRuns.Event(now, MasterRuns.Die(Last(dead)))]
  }

  lemma DieStep(v: MasterRuns.World, a: Addr, now: Time)
    requires v.clock <= now && TimedOut(v.master.lastSeen, a, now)
    ensures var e := MasterRuns.Event(now, MasterRuns.Die(a));
      MasterRuns.CanStep(v, e) && MasterRuns.Step(v, e) == MasterRuns.World(ServerFailed(v.master, a), now)
  {
  }

  /** A run from `w` that ends in `m`, not later than `now`. */
  ghost predicate RunTo(w: MasterRuns.World, es: seq<MasterRuns.Event>, m: Master, now: Time) {
    MasterRuns.Legal(w, es) && MasterRuns.Exec(w, es).master == m && MasterRuns.Exec(w, es).clock <= now
  }

  /** The servers a pass finds, over every run: those last heard of more than fifteen seconds
      ago and not declared dead since. */
  lemma {:induction false} TimedOutIff(w: MasterRuns.World, es: seq<MasterRuns.Event>, a: Addr, now: Time)
    requires MasterRuns.Fresh(w) && MasterRuns.Legal(w, es)
    ensures TimedOut(MasterRuns.Exec(w, es).master.lastSeen, a, now) <==>
      Failures.LastHeard(es, a).Some? && now - Failures.LastHeard(es, a).value > 15
  {
    Failures.LiveIff(w, es, a);
  }

  /** A pass of the failure detector is a run of the steps `Die`, one for each server
      that timed out, each of them enabled. */
  lemma {:induction false} PassIsRun(w: MasterRuns.World, dead: seq<Addr>, now: Time)
    requires w.clock <= now && Distinct(dead)
    requires forall a :: a in dead ==> TimedOut(w.master.lastSeen, a, now)
    ensures RunTo(w, Deaths(dead, now), FailAll(w.master, dead), now)
    decreases |dead|
  {
    if dead != [] {
      assert Last(dead) !in Init(dead);
      FailAllSeen(w.master, Init(dead), Last(dead));
      PassIsRun(w, Init(dead), now);
      DieStep(MasterRuns.Exec(w, Deaths(Init(dead), now)), Last(dead), now);
      MasterRuns.OneMore(w, Deaths(Init(dead), now), MasterRuns.Event(now, MasterRuns.Die(Last(dead))));
    }
  }
}
