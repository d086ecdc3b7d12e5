/** Many incarnations of the master, one after the other, each over the checkpoint and log
    its predecessors left: what survives any number of restarts. */
module Incarnations {
  import opened Locations
  import opened Seqs
  import opened Wrappers
  import opened MasterState
  import opened MasterRuns
  import opened Recovery
  import opened CheckpointCrash
  import opened ChunkLists

  /** The running master, whose log is the log file, and the last checkpoint. */
  datatype Site = Site(world: World, checkpoint: Option<Store>)

  datatype Act =
    | Serves(e: Event)
    | Checkpoints
    | Restarts
    | CrashesInCheckpoint  // the checkpoint is in place, the log not yet emptied, and the master restarts

  function DiskOf(site: Site): Disk {
    Disk(site.checkpoint, site.world.master.log)
  }

  /** A new process: metadata from the disk, no known servers, empty queues. */
  function Reborn(d: Disk): Master {
    Master(Restore(d), d.log, map[], multiset{}, [])
  }

  ghost predicate Can(site: Site, act: Act) {
    act.Serves? ==> CanStep(site.world, act.e)
  }

  ghost function Do(site: Site, act: Act): Site
    requires Can(site, act)
  {
    match act
    case Serves(e) => site.(world := Step(site.world, e))
    case Checkpoints =>
      var m := site.world.master;
      Site(site.world.(master := m.(log := WriteCheckpoint(m).log)), WriteCheckpoint(m).checkpoint)
    case Restarts => site.(world := site.world.(master := Reborn(DiskOf(site))))
    case CrashesInCheckpoint =>
      var m := site.world.master;
      var left := WriteCheckpoint(m).(log := m.log);
      Site(site.world.(master := Reborn(left)), left.checkpoint)
  }

  ghost predicate Possible(site: Site, acts: seq<Act>)
    decreases |acts|, 0
  {
    acts == [] || (Possible(site, Init(acts)) && Can(After(site, Init(acts)), Last(acts)))
  }

  ghost function After(site: Site, acts: seq<Act>): Site
    requires Possible(site, acts)
    decreases |acts|, 1
  {
    if acts == [] then site else Do(After(site, Init(acts)), Last(acts))
  }

  /** The first incarnation, over empty files. */
  ghost predicate Founded(site: Site) {
    Fresh(site.world) && site.checkpoint == None
  }

  // ---- What the disk always knows ----

  /** Everything visible, and the chunk list of every name outside the hidden directory. */
  ghost predicate Saved(live: Store, rec: Store, now: Time) {
    && NamespaceMirrors(live, rec, now)
    && TombstonesHidden(live) && TombstonesHidden(rec)
    && (forall p :: !IsHidden(p) ==> ChunksOf(rec, p) == ChunksOf(live, p))
  }

  lemma SavedItself(s: Store, now: Time)
    requires TombstonesHidden(s)
    ensures Saved(s, s, now)
  {
  }

  lemma SavedLater(live: Store, rec: Store, clock: Time, now: Time)
    requires Saved(live, rec, clock) && clock <= now
    ensures Saved(live, rec, now)
  {
  }

  lemma CreateSaved(m: Master, rec: Store, path: Path, now: Time)
    requires Saved(m.store, rec, now) && path !in m.store.namespace
    ensures Saved(CreateFile(m, path, now).store, ReplayOne(rec, CreateFileRecord(now, path)), now)
  {
  }

  lemma DeleteSaved(m: Master, rec: Store, path: Path, now: Time)
    requires Saved(m.store, rec, now) && path in m.store.namespace
    ensures Saved(DeleteFile(m, path, now).store, ReplayOne(rec, DeleteFileRecord(now, path, HiddenName(path, now))),
        now)
  {
    HiddenNameIsHidden(path, now);
  }

  lemma AllocateSaved(m: Master, rec: Store, path: Path, chosen: seq<Addr>, now: Time)
    requires Saved(m.store, rec, now) && chosen != []
    ensures Saved(Allocate(m, path, chosen, now).store,
        ReplayOne(rec, AllocateChunkRecord(now, path, m.store.nextHandle)), now)
  {
  }

  lemma LeaseSaved(m: Master, start: Store, h: Handle, now: Time)
    requires h in m.store.chunkMap && Saved(m.store, Replay(start, m.log), now)
    ensures var n := EnsureLease(m, h, now); Saved(n.store, Replay(start, n.log), now)
  {
    LeaseAppends(m, h, now, 0);
    var n := EnsureLease(m, h, now);
    if n != m {
      assert m.log[0..] == m.log && n.log[0..] == n.log;
      ReplayLast(start, m.log, GrantLeaseRecord(now, h, VersionOf(m.store, h) + 1));
    }
  }

  lemma LocateSaved(m: Master, e: Event, start: Store)
    requires Enabled(m, e) && e.op.Locate? && Saved(m.store, Replay(start, m.log), e.now)
    ensures Saved(Apply(m, e).store, Replay(start, Apply(m, e).log), e.now)
  {
    var m1, h := LocateApplied(m, e);
    if m1 != m {
      AllocateSaved(m, Replay(start, m.log), e.op.path, Drawn(m, e), e.now);
      ReplayLast(start, m.log, AllocateChunkRecord(e.now, e.op.path, m.store.nextHandle));
    }
    if h.Some? { LeaseSaved(m1, start, h.value, e.now); }
  }

  /** A scan erases only hidden files whose time is up. */
  lemma ScanSaved(s: Store, rec: Store, now: Time)
    requires Saved(s, rec, now)
    ensures Saved(ScanStore(s, now), rec, now)
  {
    forall p | !IsHidden(p) ensures ChunksOf(ScanStore(s, now), p) == ChunksOf(s, p) {
      assert p !in ExpiredPaths(s, now);
    }
  }

  lemma StepSaved(m: Master, e: Event, start: Store)
    requires Enabled(m, e) && Saved(m.store, Replay(start, m.log), e.now)
    ensures Saved(Apply(m, e).store, Replay(start, Apply(m, e).log), e.now)
  {
    var rec := Replay(start, m.log);
    match e.op
    case Create(path) =>
      if path !in m.store.namespace {
        CreateSaved(m, rec, path, e.now);
        ReplayLast(start, m.log, CreateFileRecord(e.now, path));
      }
    case Delete(path) =>
      if path in m.store.namespace {
        DeleteSaved(m, rec, path, e.now);
        ReplayLast(start, m.log, DeleteFileRecord(e.now, path, HiddenName(path, e.now)));
      }
    case Locate(_, _, _, _) => LocateSaved(m, e, start);
    case ScanTrash => ScanSaved(m.store, rec, e.now);
    case _ => UnloggedStep(m, e);
  }

  /** Deleted files were logged under hidden names. */
  predicate HidesDeleted(log: seq<Record>) {
    forall i :: 0 <= i < |log| && log[i].DeleteFileRecord? ==> IsHidden(log[i].hidden)
  }

  lemma StepHides(m: Master, e: Event)
    requires Enabled(m, e) && HidesDeleted(m.log)
    ensures HidesDeleted(Apply(m, e).log)
  {
    match e.op
    case Create(_) =>
    case Delete(path) => HiddenNameIsHidden(path, e.now);
    case Locate(_, _, _, _) => var m1, h := LocateApplied(m, e);
    case ScanTrash =>
    case _ => UnloggedStep(m, e);
  }

  lemma {:induction false} ReplayTombstones(s: Store, log: seq<Record>)
    requires TombstonesHidden(s) && HidesDeleted(log)
    ensures TombstonesHidden(Replay(s, log))
    decreases |log|
  {
    if log != [] { ReplayTombstones(s, Init(log)); }
  }

  ghost predicate Safe(site: Site) {
    && Saved(site.world.master.store, Restore(DiskOf(site)), site.world.clock)
    && HidesDeleted(site.world.master.log)
  }

  lemma ActSafe(site: Site, act: Act)
    requires Can(site, act) && Safe(site)
    ensures Safe(Do(site, act))
  {
    var w := site.world;
    match act
    case Serves(e) =>
      SavedLater(w.master.store, Restore(DiskOf(site)), w.clock, e.now);
      StepSaved(w.master, e, Base(DiskOf(site)));
      StepHides(w.master, e);
    case Checkpoints => SavedItself(w.master.store, w.clock);
    case Restarts => SavedItself(Restore(DiskOf(site)), w.clock);
    case CrashesInCheckpoint =>
      ReplayTombstones(w.master.store, w.master.log);
      SavedItself(Replay(w.master.store, w.master.log), w.clock);
  }

  lemma {:induction false} AlwaysSafe(site: Site, acts: seq<Act>)
    requires Safe(site) && Possible(site, acts)
    ensures Safe(After(site, acts))
    decreases |acts|
  {
    if acts != [] {
      AlwaysSafe(site, Init(acts));
      ActSafe(After(site, Init(acts)), Last(acts));
    }
  }

  /** Over any number of incarnations, with checkpoints wherever one likes: at every moment
      a restart would give back exactly the visible namespace, after one scan on each side
      the whole namespace, and the chunk list of every name outside the hidden directory,
      although each restart may have forgotten placements and handed out handles again. */
  lemma {:induction false} RestartsLoseNoNames(site: Site, acts: seq<Act>)
    requires Founded(site) && Possible(site, acts)
    ensures var now := After(site, acts); var next := Do(now, Restarts);
      var s, t := now.world.master.store, next.world.master.store;
      && Visible(t) == Visible(s)
      && ScanStore(t, now.world.clock).namespace == ScanStore(s, now.world.clock).namespace
      && (forall p :: !IsHidden(p) ==> ChunksOf(t, p) == ChunksOf(s, p))
  {
    SavedItself(EMPTY_STORE, site.world.clock);
    AlwaysSafe(site, acts);
    NamesAgree(After(site, acts).world.master.store, Restore(DiskOf(After(site, acts))), After(site, acts).world.clock);
  }

  // ---- The namespace is a simple map ----

  /** What clients asked for, applied to a map from names to creation times, with no crash,
      checkpoint or scan. */
  function ClientNames(acts: seq<Act>): map<Path, Time>
    decreases |acts|
  {
    if acts == [] then map[]
    else
      var names, act := ClientNames(Init(acts)), Last(acts);
      if act.Serves? && act.e.op.Create? then
        var path := act.e.op.path;
        if path in names then names else names[path := act.e.now]
      else if act.Serves? && act.e.op.Delete? then names - {act.e.op.path}
      else names
  }

  /** Clients name no path inside the hidden directory. */
  predicate ClientActs(acts: seq<Act>) {
    forall i :: 0 <= i < |acts| ==> acts[i].Serves? ==> ClientEvent(acts[i].e)
  }

  ghost predicate BothHidden(site: Site) {
    && WellHidden(site.world.master.store) && WellHidden(Restore(DiskOf(site)))
    && ClientLog(site.world.master.log)
  }

  lemma HiddenAfter(m: Master, n: Master, start: Store)
    requires StaysHidden(m, n) && ClientLog(m.log) && WellHidden(Replay(start, m.log))
    ensures ClientLog(n.log) && WellHidden(n.store) && WellHidden(Replay(start, n.log))
  {
    var later := n.log[|m.log|..];
    assert n.log == m.log + later;
    ReplayAppend(start, m.log, later);
    ReplayStaysHidden(Replay(start, m.log), later);
  }

  lemma ActHidden(site: Site, act: Act)
    requires Can(site, act) && BothHidden(site) && (act.Serves? ==> ClientEvent(act.e))
    ensures BothHidden(Do(site, act))
  {
    match act
    case Serves(e) =>
      StepStaysHidden(site.world.master, e);
      HiddenAfter(site.world.master, Apply(site.world.master, e), Base(DiskOf(site)));
    case Checkpoints =>
    case Restarts =>
    case CrashesInCheckpoint => ReplayStaysHidden(site.world.master.store, site.world.master.log);
  }

  lemma DeleteNames(m: Master, path: Path, now: Time)
    requires WellHidden(m.store) && !IsHidden(path)
    ensures Visible(DeleteFile(m, path, now).store) == Visible(m.store) - {path}
  {
    HiddenNameIsHidden(path, now);
  }

  lemma CreateNames(m: Master, path: Path, now: Time)
    requires WellHidden(m.store) && !IsHidden(path)
    ensures Visible(CreateFile(m, path, now).store) ==
      if path in Visible(m.store) then Visible(m.store)
      else Visible(m.store)[path := FileMeta(path, now, false, None, None)]
  {
  }

  lemma OtherNames(m: Master, e: Event)
    requires Enabled(m, e) && WellHidden(m.store) && !e.op.Create? && !e.op.Delete?
    ensures Visible(Apply(m, e).store) == Visible(m.store)
  {
    match e.op
    case Locate(_, _, _, _) => LocateKeepsNames(m, e);
    case ScanTrash =>
    case _ => UnloggedStep(m, e);
  }

  /** The visible files are exactly these, as they were created. */
  ghost predicate ShowsNames(s: Store, names: map<Path, Time>) {
    && Visible(s).Keys == names.Keys
    && forall p :: p in names ==> Visible(s)[p] == FileMeta(p, names[p], false, None, None)
  }

  lemma {:induction false} NamesKept(site: Site, acts: seq<Act>)
    requires Founded(site) && Possible(site, acts) && ClientActs(acts)
    ensures BothHidden(After(site, acts))
    ensures ShowsNames(After(site, acts).world.master.store, ClientNames(acts))
    decreases |acts|
  {
    if acts != [] {
      var now, act := After(site, Init(acts)), Last(acts);
      NamesKept(site, Init(acts));
      ActHidden(now, act);
      match act
      case Serves(e) =>
        if e.op.Create? {
          CreateNames(now.world.master, e.op.path, e.now);
        } else if e.op.Delete? {
          DeleteNames(now.world.master, e.op.path, e.now);
        } else {
          OtherNames(now.world.master, e);
        }
      case Checkpoints =>
      case Restarts => RestartsLoseNoNames(site, Init(acts));
      case CrashesInCheckpoint =>
        SavedItself(EMPTY_STORE, site.world.clock);
        AlwaysSafe(site, Init(acts));
        CrashKeepsNames(Base(DiskOf(now)), now.world.master.store, now.world.master.log, now.world.clock);
    }
  }

  /** As long as clients stay out of the hidden directory: whatever the crashes, also in the
      middle of a checkpoint, the checkpoints, scans, failures and repairs in between, a file
      is visible, with its creation time, exactly when the creations and deletions alone
      would have left it so. */
  lemma NamespaceIsMap(site: Site, acts: seq<Act>, path: Path)
    requires Founded(site) && Possible(site, acts) && ClientActs(acts) && !IsHidden(path)
    ensures var ns := After(site, acts).world.master.store.namespace;
      && (path in ns <==> path in ClientNames(acts))
      && (path in ns ==> ns[path] == FileMeta(path, ClientNames(acts)[path], false, None, None))
  {
    NamesKept(site, acts);
    assert path in Visible(After(site, acts).world.master.store) <==> path in ClientNames(acts);
  }
}
