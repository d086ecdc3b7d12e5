/** The master's state as a value, and what each of its operations does to it. The
    classes of MasterServer.dfy are proved to compute exactly these functions. */
module MasterState {
  import opened Locations
  import opened Seqs
  import opened Text
  import opened Wrappers

  type Path = string

  /** Seconds on the master's clock. */
  type Time = int

  const REPLICATION_FACTOR: nat := 3
  const LEASE_DURATION: Time := 60
  const HEARTBEAT_TIMEOUT: Time := 15
  const SOFT_DELETE_TTL: Time := 10

  // ---- Records ----

  datatype FileMeta = FileMeta(path: Path, createdAt: Time, deleted: bool, deletedAt: Option<Time>,
                               hiddenName: Option<Path>)

  datatype ChunkMeta = ChunkMeta(handle: Handle, replicas: seq<Addr>, stale: seq<Addr>, primary: Option<Addr>,
                                 leaseExpiry: Time)

  datatype Store = Store(
    namespace: map<Path, FileMeta>,
    fileChunks: map<Path, seq<Handle>>,
    chunkMap: map<Handle, ChunkMeta>,
    chunkVersions: map<Handle, int>,
    nextHandle: Handle,
    gcPending: set<Handle>)

  datatype Record =
    | CreateFileRecord(ts: Time, filename: Path)
    | AllocateChunkRecord(ts: Time, filename: Path, handle: Handle)
    | GrantLeaseRecord(ts: Time, handle: Handle, version: int)
    | DeleteFileRecord(ts: Time, path: Path, hidden: Path)

  /** The priority of a re-replication request; the lower one goes first. */
  datatype Job = Job(priority: int, handle: Handle)

  datatype Repair = Repair(handle: Handle, server: Addr)

  datatype Master = Master(
    store: Store,
    log: seq<Record>,
    lastSeen: map<Addr, Time>,
    jobs: multiset<Job>,
    repairs: seq<Repair>)

  const EMPTY_STORE := Store(map[], map[], map[], map[], 1, {})
  const NEW_MASTER := Master(EMPTY_STORE, [], map[], multiset{}, [])

  function NewFile(path: Path, now: Time): FileMeta {
    FileMeta(path, now, false, None, None)
  }

  // ---- Lists of addresses ----

  /** Python's list.remove: the first occurrence goes. */
  function RemoveFirst(s: seq<Addr>, a: Addr): (r: seq<Addr>)
    decreases |s|
  {
    if s == [] then []
    else if s[0] == a then s[1..]
    else [s[0]] + RemoveFirst(s[1..], a)
  }

  /** `[x for x in s if x not in without]` */
  function Filter(s: seq<Addr>, without: seq<Addr>): (r: seq<Addr>)
    decreases |s|
  {
    if s == [] then []
    else (if s[0] in without then [] else [s[0]]) + Filter(s[1..], without)
  }

  function Healthy(c: ChunkMeta): seq<Addr> {
    Filter(c.replicas, c.stale)
  }

  function VersionOf(s: Store, h: Handle): int {
    if h in s.chunkVersions then s.chunkVersions[h] else 0
  }

  // ---- Namespace operations (master/server.py, master/garbage_collection.py) ----

  function CreateFile(m: Master, path: Path, now: Time): Master {
    if path in m.store.namespace then m
    else m.(store := m.store.(namespace := m.store.namespace[path := NewFile(path, now)]),
            log := m.log + [CreateFileRecord(now, path)])
  }

  /** `path.replace('/', '_')` */
  function Underscored(path: Path): (r: string)
    ensures |r| == |path|
  {
    seq(|path|, i requires 0 <= i < |path| => if path[i] == '/' then '_' else path[i])
  }

  const TRASH: string := "/.trash/"

  function HiddenName(path: Path, now: Time): Path {
    TRASH + Underscored(path) + "_" + Decimal(now)
  }

  function Tombstone(f: FileMeta, hidden: Path, now: Time): FileMeta {
    f.(deleted := true, hiddenName := Some(hidden), deletedAt := Some(now))
  }

  /** Dictionary operations of a soft delete: bind the hidden name, drop the old one. */
  function Hide(ns: map<Path, FileMeta>, path: Path, hidden: Path, now: Time): map<Path, FileMeta>
    requires path in ns
  {
    ns[hidden := Tombstone(ns[path], hidden, now)] - {path}
  }

  function DeleteFile(m: Master, path: Path, now: Time): Master {
    if path !in m.store.namespace then m
    else
      var hidden := HiddenName(path, now);
      m.(store := m.store.(namespace := Hide(m.store.namespace, path, hidden, now)),
         log := m.log + [DeleteFileRecord(now, path, hidden)])
  }

  /** A hidden file whose time is up. */
  predicate Expired(f: FileMeta, now: Time) {
    f.deleted && f.deletedAt.Some? && now - f.deletedAt.value > SOFT_DELETE_TTL
  }

  function ExpiredPaths(s: Store, now: Time): set<Path> {
    set p | p in s.namespace && Expired(s.namespace[p], now)
  }

  /** The chunks listed under the hidden names a scan erases. */
  function Orphans(s: Store, now: Time): set<Handle> {
    set p, h | p in ExpiredPaths(s, now) && p in s.fileChunks && h in s.fileChunks[p] :: h
  }

  function ScanStore(s: Store, now: Time): Store {
    var gone, orphans := ExpiredPaths(s, now), Orphans(s, now);
    s.(namespace := s.namespace - gone,
       fileChunks := s.fileChunks - gone,
       chunkMap := s.chunkMap - orphans,
       chunkVersions := s.chunkVersions - orphans,
       gcPending := s.gcPending + orphans)
  }

  function Scan(m: Master, now: Time): Master {
    m.(store := ScanStore(m.store, now))
  }

  // ---- Chunk locations and leases (master/server.py, master/lease.py) ----

  datatype LocReply =
    | Located(at: Location)
    | FileNotFound
    | ChunkNotFound
    | NoActiveServers
    | InternalError  // an uncaught KeyError or IndexError

  function ChunksOf(s: Store, path: Path): seq<Handle> {
    if path in s.fileChunks then s.fileChunks[path] else []
  }

  /** MetadataStore.allocate_chunk, then the placement on `chosen`. */
  function Allocate(m: Master, path: Path, chosen: seq<Addr>, now: Time): Master
    requires chosen != []
  {
    var s, h := m.store, m.store.nextHandle;
    m.(store := s.(nextHandle := h + 1,
                   fileChunks := s.fileChunks[path := ChunksOf(s, path) + [h]],
                   chunkMap := s.chunkMap[h := ChunkMeta(h, chosen, [], Some(chosen[0]), 0)],
                   chunkVersions := s.chunkVersions[h := 0]),
       log := m.log + [AllocateChunkRecord(now, path, h)])
  }

  predicate HasValidLease(s: Store, h: Handle, now: Time) {
    h in s.chunkMap && s.chunkMap[h].primary.Some? && now < s.chunkMap[h].leaseExpiry
  }

  function GrantLease(m: Master, h: Handle, now: Time): Master
    requires h in m.store.chunkMap
  {
    var s, c := m.store, m.store.chunkMap[h];
    if Healthy(c) == [] then m
    else
      var v := VersionOf(s, h) + 1;
      m.(store := s.(chunkVersions := s.chunkVersions[h := v],
                     chunkMap :=
                       s.chunkMap[h := c.(primary := Some(Healthy(c)[0]), leaseExpiry := now + LEASE_DURATION)]),
         log := m.log + [GrantLeaseRecord(now, h, v)])
  }

  function EnsureLease(m: Master, h: Handle, now: Time): Master
    requires h in m.store.chunkMap
  {
    if HasValidLease(m.store, h, now) then m else GrantLease(m, h, now)
  }

  function ReplyFor(s: Store, h: Handle): LocReply
    requires h in s.chunkMap
  {
    var c := s.chunkMap[h];
    var primary := if c.primary.Some? then c.primary.value else "";
    Located(Location(h, primary, Filter(Healthy(c), [primary]), VersionOf(s, h)))
  }

  /** What random.sample may return: min(3, n) distinct active servers. */
  ghost predicate IsSample(chosen: seq<Addr>, lastSeen: map<Addr, Time>) {
    && |chosen| == (if |lastSeen| < REPLICATION_FACTOR then |lastSeen| else REPLICATION_FACTOR)
    && Distinct(chosen)
    && forall a :: a in chosen ==> a in lastSeen
  }

  /** The index a request means: -1 is the last chunk. */
  function WantedIndex(s: Store, path: Path, index: int): int {
    var n := |ChunksOf(s, path)|;
    if index == -1 then (if n > 0 then n - 1 else 0) else index
  }

  /** Does the request make the master allocate a chunk? */
  predicate Allocates(m: Master, path: Path, index: int, create: bool) {
    && path in m.store.namespace
    && WantedIndex(m.store, path, index) >= |ChunksOf(m.store, path)|
    && create
    && m.lastSeen != map[]
  }

  function LocateExisting(m: Master, path: Path, index: int, now: Time): (Master, LocReply) {
    var chunks := ChunksOf(m.store, path);
    // a negative index counts from the end
    var i := if index < 0 then |chunks| + index else index;
    if !(0 <= i < |chunks|) then (m, InternalError)
    else
      var h := chunks[i];
      if h !in m.store.chunkMap then (m, InternalError)
      else
        var m' := EnsureLease(m, h, now);
        (m', ReplyFor(m'.store, h))
  }

  /** The branch for an index past the end of the file. */
  function LocateNew(m: Master, path: Path, create: bool, chosen: seq<Addr>, now: Time): (Master, LocReply)
    requires create && m.lastSeen != map[] ==> chosen != []
  {
    if !create then (m, ChunkNotFound)
    else if m.lastSeen == map[] then (m, NoActiveServers)
    else
      var m1 := Allocate(m, path, chosen, now);
      LocateExisting(m1, path, |ChunksOf(m1.store, path)| - 1, now)
  }

  function GetChunkLocations(m: Master, path: Path, index: int, create: bool, chosen: seq<Addr>,
                             now: Time): (Master, LocReply)
    requires Allocates(m, path, index, create) ==> chosen != []
  {
    if path !in m.store.namespace then (m, FileNotFound)
    else
      var i := WantedIndex(m.store, path, index);
      if i < |ChunksOf(m.store, path)| then LocateExisting(m, path, i, now)
      else LocateNew(m, path, create, chosen, now)
  }

  // ---- Heartbeats and failures (master/heartbeat.py, master/server.py) ----

  datatype Report = Report(handle: Handle, version: int)

  /** Python's zip: as long as the shorter list. */
  function Zip(handles: seq<Handle>, versions: seq<int>): (reports: seq<Report>) {
    var n := if |handles| < |versions| then |handles| else |versions|;
    seq(n, i requires 0 <= i < n => Report(handles[i], versions[i]))
  }

  /** A report moves the server between the two lists of a chunk. */
  function Reported(c: ChunkMeta, cs: Addr, current: bool): ChunkMeta {
    if current then
      c.(replicas := if cs in c.replicas then c.replicas else c.replicas + [cs],
         stale := RemoveFirst(c.stale, cs))
    else
      c.(replicas := RemoveFirst(c.replicas, cs),
         stale := if cs in c.stale then c.stale else c.stale + [cs])
  }

  function BeatOne(m: Master, cs: Addr, r: Report): Master {
    if r.handle !in m.store.chunkMap then m
    else
      var c := m.store.chunkMap[r.handle];
      var current := r.version == VersionOf(m.store, r.handle);
      m.(store := m.store.(chunkMap := m.store.chunkMap[r.handle := Reported(c, cs, current)]),
         repairs := if current || cs in c.stale then m.repairs else m.repairs + [Repair(r.handle, cs)])
  }

  function BeatAll(m: Master, cs: Addr, reports: seq<Report>): Master
    decreases |reports|
  {
    if reports == [] then m
    else BeatOne(BeatAll(m, cs, reports[..|reports| - 1]), cs, reports[|reports| - 1])
  }

  /** handle_heartbeat; its reply is `gcPending`. */
  function Heartbeat(m: Master, cs: Addr, reports: seq<Report>, now: Time): Master {
    BeatAll(m.(lastSeen := m.lastSeen[cs := now]), cs, reports)
  }

  function WithoutReplica(chunks: map<Handle, ChunkMeta>, cs: Addr): map<Handle, ChunkMeta> {
    map h | h in chunks :: chunks[h].(replicas := RemoveFirst(chunks[h].replicas, cs))
  }

  function UnderReplicated(chunks: map<Handle, ChunkMeta>): set<Handle> {
    set h | h in chunks && |chunks[h].replicas| < REPLICATION_FACTOR
  }

  function JobsFor(hs: set<Handle>): set<Job> {
    set h | h in hs :: Job(0, h)
  }

  /** new_handle_failure: drop the server everywhere, then ask for new replicas. */
  function ServerFailed(m: Master, cs: Addr): Master {
    var chunks := WithoutReplica(m.store.chunkMap, cs);
    m.(store := m.store.(chunkMap := chunks),
       lastSeen := m.lastSeen - {cs},
       jobs := m.jobs + multiset(JobsFor(UnderReplicated(chunks))))
  }

  // ---- Repair (master/replication.py) ----

  /** How one pass of the re-replication worker ends. */
  datatype JobOutcome =
    | NothingToDo             // chunk gone, or replicated enough
    | NoSource                // no replica is left
    | NoTarget                // every active server is a replica already
    | Clone(source: Addr)     // ask `source` to copy to some target

  /** The servers a chunk may be cloned to. */
  function Targets(m: Master, h: Handle): set<Addr>
    requires h in m.store.chunkMap
  {
    set a | a in m.lastSeen && a !in m.store.chunkMap[h].replicas
  }

  function JobPlan(m: Master, h: Handle): JobOutcome {
    if h !in m.store.chunkMap || |m.store.chunkMap[h].replicas| >= REPLICATION_FACTOR then NothingToDo
    else
      var c := m.store.chunkMap[h];
      if c.replicas == [] || c.replicas[0] == "" then NoSource
      else if Targets(m, h) == {} then NoTarget
      else Clone(c.replicas[0])
  }

  /** A call of CopyChunkTo the master makes. */
  datatype CopyOrder = CopyOrder(source: Addr, handle: Handle, target: Addr, version: int)

  function JobOrder(m: Master, h: Handle, target: Addr): Option<CopyOrder> {
    var plan := JobPlan(m, h);
    if plan.Clone? then Some(CopyOrder(plan.source, h, target, VersionOf(m.store, h))) else None
  }

  function AddReplica(m: Master, h: Handle, a: Addr): Master
    requires h in m.store.chunkMap
  {
    var c := m.store.chunkMap[h];
    m.(store := m.store.(chunkMap := m.store.chunkMap[h := c.(replicas := c.replicas + [a])]))
  }

  /** One pass of `_worker` on `job`; `target` and `ok` say how the clone went. */
  function RunJob(m: Master, job: Job, target: Addr, ok: bool): Master
    requires job in m.jobs
  {
    var m1 := m.(jobs := m.jobs - multiset{job});
    if !JobPlan(m, job.handle).Clone? then m1
    else if ok then AddReplica(m1, job.handle, target)
    else m
  }

  /** The chunk gone, no healthy source, or a copy from some source. */
  function RepairPlan(m: Master, r: Repair): JobOutcome {
    if r.handle !in m.store.chunkMap then NothingToDo
    else
      var c := m.store.chunkMap[r.handle];
      var healthy := Healthy(c);
      if healthy == [] then NoSource
      else Clone(if c.primary.Some? && c.primary.value in healthy then c.primary.value else healthy[0])
  }

  function RepairOrder(m: Master, r: Repair): Option<CopyOrder> {
    var plan := RepairPlan(m, r);
    if plan.Clone? then Some(CopyOrder(plan.source, r.handle, r.server, VersionOf(m.store, r.handle))) else None
  }

  function Repaired(c: ChunkMeta, a: Addr): ChunkMeta {
    c.(stale := RemoveFirst(c.stale, a),
       replicas := if a in c.replicas then c.replicas else c.replicas + [a])
  }

  /** One pass of `_stale_worker` on the oldest request. */
  function RunRepair(m: Master, ok: bool): Master
    requires m.repairs != []
  {
    var r := m.repairs[0];
    var m1 := m.(repairs := m.repairs[1..]);
    if !RepairPlan(m, r).Clone? then m1
    else if ok then
      m1.(store := m.store.(chunkMap := m.store.chunkMap[r.handle := Repaired(m.store.chunkMap[r.handle], r.server)]))
    else m1.(repairs := m1.repairs + [r])
  }
}
