/** Runs of one master incarnation: every interleaving of its handlers, its failure
    detector, its two repair workers and its garbage collector, each taken as one
    atomic step, under a clock that never goes back. */
module MasterRuns {
  import opened Locations
  import opened Seqs
  import opened Wrappers
  import opened MasterState

  datatype Op =
    | Create(path: Path)
    | Delete(path: Path)
    | Locate(path: Path, index: int, create: bool, chosen: seq<Addr>)
    | ScanTrash
    | Beat(server: Addr, reports: seq<Report>)
    | Die(server: Addr)
    | DoJob(job: Job, target: Addr, ok: bool)
    | DoRepair(ok: bool)

  datatype Event = Event(now: Time, op: Op)

  datatype World = World(master: Master, clock: Time)

  /** The priority queue hands out its least entry. */
  ghost predicate IsLeast(j: Job, jobs: multiset<Job>) {
    j in jobs && forall k :: k in jobs ==> j.priority < k.priority || (j.priority == k.priority && j.handle <= k.handle)
  }

  ghost predicate Enabled(m: Master, e: Event) {
    match e.op
    case Locate(path, index, create, chosen) => Allocates(m, path, index, create) ==> IsSample(chosen, m.lastSeen)
    case Die(server) => server in m.lastSeen && e.now - m.lastSeen[server] > HEARTBEAT_TIMEOUT
    case DoJob(job, target, _) => IsLeast(job, m.jobs)
      && (JobPlan(m, job.handle).Clone? ==> target in Targets(m, job.handle))
    case DoRepair(_) => m.repairs != []
    case _ => true
  }

  lemma SampleNotEmpty(chosen: seq<Addr>, lastSeen: map<Addr, Time>)
    requires IsSample(chosen, lastSeen) && lastSeen != map[]
    ensures chosen != []
  {
    assert |lastSeen| != 0;
  }

  ghost function Apply(m: Master, e: Event): Master
    requires Enabled(m, e)
  {
    match e.op
    case Create(path) => CreateFile(m, path, e.now)
    case Delete(path) => DeleteFile(m, path, e.now)
    case Locate(path, index, create, chosen) =>
      if Allocates(m, path, index, create) then
        SampleNotEmpty(chosen, m.lastSeen);
        GetChunkLocations(m, path, index, create, chosen, e.now).0
      else
        GetChunkLocations(m, path, index, create, [], e.now).0
    case ScanTrash => Scan(m, e.now)
    case Beat(server, reports) => Heartbeat(m, server, reports, e.now)
    case Die(server) => ServerFailed(m, server)
    case DoJob(job, target, ok) => RunJob(m, job, target, ok)
    case DoRepair(ok) => RunRepair(m, ok)
  }

  ghost predicate CanStep(w: World, e: Event) {
    w.clock <= e.now && Enabled(w.master, e)
  }

  ghost function Step(w: World, e: Event): World
    requires CanStep(w, e)
  {
    World(Apply(w.master, e), e.now)
  }

  ghost predicate Legal(w: World, es: seq<Event>)
    decreases |es|, 0
  {
    es == [] || (Legal(w, Init(es)) && CanStep(Exec(w, Init(es)), Last(es)))
  }

  ghost function Exec(w: World, es: seq<Event>): World
    requires Legal(w, es)
    decreases |es|, 1
  {
    if es == [] then w else Step(Exec(w, Init(es)), Last(es))
  }

  lemma OneMore(w: World, es: seq<Event>, e: Event)
    requires Legal(w, es) && CanStep(Exec(w, es), e)
    ensures Legal(w, es + [e]) && Exec(w, es + [e]) == Step(Exec(w, es), e)
  {
    assert Init(es + [e]) == es && Last(es + [e]) == e;
  }

  lemma {:induction false} ExecSplit(w: World, es1: seq<Event>, es2: seq<Event>)
    requires Legal(w, es1) && Legal(Exec(w, es1), es2)
    ensures Legal(w, es1 + es2) && Exec(w, es1 + es2) == Exec(Exec(w, es1), es2)
    decreases |es2|
  {
    if es2 == [] {
      assert es1 + es2 == es1;
    } else {
      assert Init(es1 + es2) == es1 + Init(es2) && Last(es1 + es2) == Last(es2);
      ExecSplit(w, es1, Init(es2));
    }
  }

  /** A master that starts with nothing. */
  ghost predicate Fresh(w: World) {
    w.master == NEW_MASTER
  }

  // ---- Handle conservation ----

  predicate Lists(s: Store, p: Path, h: Handle) {
    p in s.fileChunks && h in s.fileChunks[p]
  }

  function Listed(s: Store): set<Handle> {
    set p, h | p in s.fileChunks && h in s.fileChunks[p] :: h
  }

  /** Every handle ever given out is listed by exactly one file, exactly once, or is
      waiting to be collected; the chunk tables cover exactly the listed ones. */
  ghost predicate Conserved(s: Store) {
    && s.nextHandle >= 1
    && (forall h :: h in Listed(s) || h in s.gcPending <==> 1 <= h < s.nextHandle)
    && (forall h :: h in Listed(s) ==> h !in s.gcPending)
    && (forall p, q, h :: Lists(s, p, h) && Lists(s, q, h) ==> p == q)
    && (forall p :: p in s.fileChunks ==> Distinct(s.fileChunks[p]) && s.fileChunks[p] != [])
    && s.chunkMap.Keys == Listed(s)
    && s.chunkVersions.Keys == Listed(s)
  }

  /** The parts of the store conservation speaks of did not change. */
  predicate SameHandles(s: Store, t: Store) {
    && s.fileChunks == t.fileChunks && s.nextHandle == t.nextHandle && s.gcPending == t.gcPending
    && s.chunkMap.Keys == t.chunkMap.Keys && s.chunkVersions.Keys == t.chunkVersions.Keys
  }

  lemma SameHandlesConserved(s: Store, t: Store)
    requires SameHandles(s, t) && Conserved(s)
    ensures Conserved(t)
  {
    assert Listed(s) == Listed(t);
    forall p, q, h | Lists(t, p, h) && Lists(t, q, h) ensures p == q {
      assert Lists(s, p, h) && Lists(s, q, h);
    }
  }

  lemma Lister(s: Store, h: Handle) returns (p: Path)
    requires h in Listed(s)
    ensures Lists(s, p, h)
  {
    p :| p in s.fileChunks && h in s.fileChunks[p];
  }

  lemma Orphaner(s: Store, now: Time, h: Handle) returns (p: Path)
    requires h in Orphans(s, now)
    ensures Lists(s, p, h) && p in ExpiredPaths(s, now)
  {
    p :| p in ExpiredPaths(s, now) && p in s.fileChunks && h in s.fileChunks[p];
  }

  lemma AllocateLists(m: Master, path: Path, chosen: seq<Addr>, now: Time)
    requires Conserved(m.store) && chosen != []
    ensures m.store.nextHandle !in Listed(m.store)
    ensures forall p, h :: Lists(Allocate(m, path, chosen, now).store, p, h) <==>
      Lists(m.store, p, h) || (p == path && h == m.store.nextHandle)
  {
    var s, t := m.store, Allocate(m, path, chosen, now).store;
    assert t.fileChunks == s.fileChunks[path := ChunksOf(s, path) + [s.nextHandle]];
    forall p, h
      ensures Lists(t, p, h) <==> Lists(s, p, h) || (p == path && h == s.nextHandle)
    {
      assert p == path ==> (h in t.fileChunks[p] <==> h in ChunksOf(s, path) || h == s.nextHandle);
    }
  }

  lemma AllocateConserves(m: Master, path: Path, chosen: seq<Addr>, now: Time)
    requires Conserved(m.store) && chosen != []
    ensures Conserved(Allocate(m, path, chosen, now).store)
  {
    var s, t, h := m.store, Allocate(m, path, chosen, now).store, m.store.nextHandle;
    AllocateLists(m, path, chosen, now);
    forall k ensures k in Listed(t) <==> k in Listed(s) || k == h {
      if k in Listed(t) { var p := Lister(t, k); }
      if k in Listed(s) { var p := Lister(s, k); assert Lists(t, p, k); }
      if k == h { assert Lists(t, path, k); }
    }
    forall p, q, k | Lists(t, p, k) && Lists(t, q, k) ensures p == q {
      assert k != h ==> Lists(s, p, k) && Lists(s, q, k);
    }
    assert h in ChunksOf(s, path) ==> Lists(s, path, h);
    DistinctAppend(ChunksOf(s, path), h);
    forall p | p in t.fileChunks ensures Distinct(t.fileChunks[p]) && t.fileChunks[p] != [] {
      assert t.fileChunks[p] == if p == path then ChunksOf(s, path) + [h] else s.fileChunks[p];
    }
  }

  lemma ScanLists(s: Store, now: Time, p: Path, h: Handle)
    requires Conserved(s)
    ensures Lists(ScanStore(s, now), p, h) <==> Lists(s, p, h) && h !in Orphans(s, now)
  {
    if Lists(s, p, h) && h in Orphans(s, now) {
      var q := Orphaner(s, now, h);
    }
  }

  lemma ScanConserves(s: Store, now: Time)
    requires Conserved(s)
    ensures Conserved(ScanStore(s, now))
  {
    var t, orphans := ScanStore(s, now), Orphans(s, now);
    forall h ensures h in Listed(t) <==> h in Listed(s) && h !in orphans {
      if h in Listed(t) { var p := Lister(t, h); ScanLists(s, now, p, h); }
      if h in Listed(s) && h !in orphans { var p := Lister(s, h); ScanLists(s, now, p, h); assert Lists(t, p, h); }
    }
    forall h | h in orphans ensures h in Listed(s) {
      var p := Orphaner(s, now, h);
    }
    forall p, q, h | Lists(t, p, h) && Lists(t, q, h) ensures p == q {
      assert Lists(s, p, h) && Lists(s, q, h);
    }
  }

  // ---- Steps that leave the handles alone ----

  lemma EnsureLeaseSameHandles(m: Master, h: Handle, now: Time)
    requires h in m.store.chunkMap && Conserved(m.store)
    ensures SameHandles(m.store, EnsureLease(m, h, now).store)
  {
  }

  lemma {:induction false} BeatSameHandles(m: Master, cs: Addr, reports: seq<Report>)
    ensures SameHandles(m.store, BeatAll(m, cs, reports).store)
    ensures BeatAll(m, cs, reports).log == m.log
    decreases |reports|
  {
    if reports != [] { BeatSameHandles(m, cs, reports[..|reports| - 1]); }
  }

  /** A location request allocates a chunk when it must, then renews the lease of one
      chunk unless the lookup fails. */
  lemma LocateSteps(m: Master, path: Path, index: int, create: bool, chosen: seq<Addr>, now: Time)
    returns (m1: Master, h: Option<Handle>)
    requires Allocates(m, path, index, create) ==> chosen != []
    ensures m1 == if Allocates(m, path, index, create) then Allocate(m, path, chosen, now) else m
    ensures h.Some? ==> h.value in m1.store.chunkMap
    ensures var (m2, reply) := GetChunkLocations(m, path, index, create, chosen, now);
      if h.None? then m2 == m1 && !reply.Located?
      else m2 == EnsureLease(m1, h.value, now) && reply == ReplyFor(m2.store, h.value)
  {
    m1 := if Allocates(m, path, index, create) then Allocate(m, path, chosen, now) else m;
    var reply := GetChunkLocations(m, path, index, create, chosen, now).1;
    h := if reply.Located? then Some(reply.at.handle) else None;
  }

  lemma LocateConserves(m: Master, path: Path, index: int, create: bool, chosen: seq<Addr>, now: Time)
    requires Allocates(m, path, index, create) ==> chosen != []
    requires Conserved(m.store)
    ensures Conserved(GetChunkLocations(m, path, index, create, chosen, now).0.store)
  {
    var m1, h := LocateSteps(m, path, index, create, chosen, now);
    if Allocates(m, path, index, create) { AllocateConserves(m, path, chosen, now); }
    if h.Some? {
      EnsureLeaseSameHandles(m1, h.value, now);
      SameHandlesConserved(m1.store, EnsureLease(m1, h.value, now).store);
    }
  }

  /** The sample a location event carries, or nothing when none is drawn. */
  ghost function Drawn(m: Master, e: Event): (chosen: seq<Addr>)
    requires Enabled(m, e) && e.op.Locate?
    ensures Allocates(m, e.op.path, e.op.index, e.op.create) ==> IsSample(chosen, m.lastSeen) && chosen != []
  {
    if Allocates(m, e.op.path, e.op.index, e.op.create) then
      SampleNotEmpty(e.op.chosen, m.lastSeen);
      e.op.chosen
    else []
  }

  /** The same, for a step of a run. */
  lemma LocateApplied(m: Master, e: Event) returns (m1: Master, h: Option<Handle>)
    requires Enabled(m, e) && e.op.Locate?
    ensures m1 == if Allocates(m, e.op.path, e.op.index, e.op.create) then Allocate(m, e.op.path, Drawn(m, e), e.now)
      else m
    ensures h.Some? ==> h.value in m1.store.chunkMap
    ensures Apply(m, e) == if h.Some? then EnsureLease(m1, h.value, e.now) else m1
  {
    m1, h := LocateSteps(m, e.op.path, e.op.index, e.op.create, Drawn(m, e), e.now);
  }

  lemma JobSameHandles(m: Master, job: Job, target: Addr, ok: bool)
    requires job in m.jobs
    ensures SameHandles(m.store, RunJob(m, job, target, ok).store)
  {
  }

  lemma RepairSameHandles(m: Master, ok: bool)
    requires m.repairs != []
    ensures SameHandles(m.store, RunRepair(m, ok).store)
  {
  }

  lemma BeatConserves(m: Master, server: Addr, reports: seq<Report>, now: Time)
    requires Conserved(m.store)
    ensures Conserved(Heartbeat(m, server, reports, now).store)
  {
    BeatSameHandles(m.(lastSeen := m.lastSeen[server := now]), server, reports);
    SameHandlesConserved(m.store, Heartbeat(m, server, reports, now).store);
  }

  lemma StepConserves(m: Master, e: Event)
    requires Enabled(m, e) && Conserved(m.store)
    ensures Conserved(Apply(m, e).store)
  {
    match e.op
    case Locate(path, index, create, _) =>
      LocateConserves(m, path, index, create, Drawn(m, e), e.now);
    case ScanTrash => ScanConserves(m.store, e.now);
    case Beat(server, reports) => BeatConserves(m, server, reports, e.now);
    case Create(path) => SameHandlesConserved(m.store, CreateFile(m, path, e.now).store);
    case Delete(path) => SameHandlesConserved(m.store, DeleteFile(m, path, e.now).store);
    case Die(server) => SameHandlesConserved(m.store, ServerFailed(m, server).store);
    case DoJob(job, target, ok) =>
      JobSameHandles(m, job, target, ok);
      SameHandlesConserved(m.store, RunJob(m, job, target, ok).store);
    case DoRepair(ok) =>
      RepairSameHandles(m, ok);
      SameHandlesConserved(m.store, RunRepair(m, ok).store);
  }

  /** In every reachable state the handles given out so far are the disjoint union of
      the ones files list, each once, and the ones awaiting collection. */
  lemma {:induction false} HandlesConserved(w: World, es: seq<Event>)
    requires Legal(w, es) && Conserved(w.master.store)
    ensures Conserved(Exec(w, es).master.store)
    decreases |es|
  {
    if es != [] {
      HandlesConserved(w, Init(es));
      StepConserves(Exec(w, Init(es)).master, Last(es));
    }
  }

  lemma FreshConserved(w: World)
    requires Fresh(w)
    ensures Conserved(w.master.store)
  {
  }

  lemma ChunksKnown(m: Master, path: Path)
    requires Conserved(m.store)
    ensures forall h :: h in ChunksOf(m.store, path) ==> h in m.store.chunkMap
  {
    forall h | h in ChunksOf(m.store, path) ensures h in m.store.chunkMap {
      assert Lists(m.store, path, h);
      assert h in Listed(m.store);
    }
  }

  /** The handler never runs into a missing table entry: it fails unexpectedly exactly for
      a negative index, other than -1, that reaches back beyond the first chunk of a file
      that exists. */
  lemma InternalErrorIff(w: World, es: seq<Event>, e: Event)
    requires Fresh(w) && Legal(w, es) && CanStep(Exec(w, es), e) && e.op.Locate?
    ensures var m := Exec(w, es).master;
      GetChunkLocations(m, e.op.path, e.op.index, e.op.create, Drawn(m, e), e.now).1.InternalError? <==>
        e.op.path in m.store.namespace && e.op.index < -1 && e.op.index < -|ChunksOf(m.store, e.op.path)|
  {
    FreshConserved(w);
    HandlesConserved(w, es);
    var m := Exec(w, es).master;
    ChunksKnown(m, e.op.path);
    if Allocates(m, e.op.path, e.op.index, e.op.create) {
      AllocateConserves(m, e.op.path, Drawn(m, e), e.now);
      ChunksKnown(Allocate(m, e.op.path, Drawn(m, e), e.now), e.op.path);
    }
  }

  // ---- Collection is safe ----

  lemma LeaseKeepsPending(m: Master, h: Handle, now: Time)
    requires h in m.store.chunkMap
    ensures EnsureLease(m, h, now).store.gcPending == m.store.gcPending
    ensures EnsureLease(m, h, now).store.nextHandle == m.store.nextHandle
  {
  }

  lemma StepKeepsPending(m: Master, e: Event)
    requires Enabled(m, e) && Conserved(m.store)
    ensures m.store.gcPending <= Apply(m, e).store.gcPending
    ensures m.store.nextHandle <= Apply(m, e).store.nextHandle
  {
    match e.op
    case Locate(path, index, create, _) =>
      var m1, h := LocateSteps(m, path, index, create, Drawn(m, e), e.now);
      if h.Some? { LeaseKeepsPending(m1, h.value, e.now); }
    case Beat(server, reports) =>
      BeatSameHandles(m.(lastSeen := m.lastSeen[server := e.now]), server, reports);
    case _ =>
  }

  /** What a heartbeat reply tells a chunkserver to delete belongs to no file, neither
      when the reply is made nor at any later time. */
  lemma {:induction false} CollectedNeverReferenced(w: World, es: seq<Event>, h: Handle, p: Path)
    requires Legal(w, es) && Conserved(w.master.store)
    requires h in w.master.store.gcPending
    ensures h in Exec(w, es).master.store.gcPending
    ensures !Lists(Exec(w, es).master.store, p, h)
    decreases |es|
  {
    HandlesConserved(w, es);
    if es != [] {
      CollectedNeverReferenced(w, Init(es), h, p);
      HandlesConserved(w, Init(es));
      StepKeepsPending(Exec(w, Init(es)).master, Last(es));
    }
    var s := Exec(w, es).master.store;
    assert Lists(s, p, h) ==> h in Listed(s);
  }
}
