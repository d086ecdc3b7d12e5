/** Recovery: what replaying the operation log, from nothing or from a checkpoint,
    rebuilds of the live master, over every run. */
module Recovery {
  import opened Locations
  import opened Seqs
  import opened Wrappers
  import opened MasterState
  import opened MasterRuns

  // ---- Replay (master/server.py, _restore_state) ----

  function ReplayOne(s: Store, r: Record): Store {
    match r
    case CreateFileRecord(ts, filename) =>
      s.(namespace := s.namespace[filename := NewFile(filename, ts)])
    case AllocateChunkRecord(_, filename, handle) =>
      s.(fileChunks := s.fileChunks[filename := ChunksOf(s, filename) + [handle]])
    case GrantLeaseRecord(_, handle, version) =>
      s.(chunkVersions := s.chunkVersions[handle := version])
    case DeleteFileRecord(ts, path, hidden) =>
      if path in s.namespace then s.(namespace := Hide(s.namespace, path, hidden, ts)) else s
  }

  function Replay(s: Store, log: seq<Record>): Store
    decreases |log|
  {
    if log == [] then s else ReplayOne(Replay(s, Init(log)), Last(log))
  }

  /** What is on disk: the last checkpoint, if any, and the log. */
  datatype Disk = Disk(checkpoint: Option<Store>, log: seq<Record>)

  /** What the log is replayed on. */
  function Base(d: Disk): Store {
    if d.checkpoint.Some? then d.checkpoint.value else EMPTY_STORE
  }

  function Restore(d: Disk): Store {
    Replay(Base(d), d.log)
  }

  lemma {:induction false} ReplayAppend(s: Store, x: seq<Record>, y: seq<Record>)
    ensures Replay(s, x + y) == Replay(Replay(s, x), y)
    decreases |y|
  {
    if y == [] {
      assert x + y == x;
    } else {
      assert Init(x + y) == x + Init(y) && Last(x + y) == Last(y);
      ReplayAppend(s, x, Init(y));
    }
  }

  // ---- The mirror relation ----

  /** Everything in the live namespace was recovered, and whatever else was recovered is
      a hidden file whose time is up. */
  ghost predicate NamespaceMirrors(live: Store, rec: Store, now: Time) {
    && (forall p :: p in live.namespace ==> p in rec.namespace && rec.namespace[p] == live.namespace[p])
    && (forall p :: p in rec.namespace ==> p in live.namespace || Expired(rec.namespace[p], now))
  }

  /** `start` is what awaited collection when the log began. */
  ghost predicate ChunksMirror(live: Store, rec: Store, start: set<Handle>) {
    && start <= live.gcPending
    && (live.gcPending == start ==> rec.fileChunks == live.fileChunks)
    && Listed(live) + (live.gcPending - start) <= Listed(rec)
    && (forall h :: h in live.chunkMap ==> VersionOf(rec, h) == VersionOf(live, h))
    && (forall h :: h in rec.chunkVersions ==> h < live.nextHandle)
  }

  ghost predicate Mirrors(live: Store, rec: Store, start: set<Handle>, now: Time) {
    Conserved(live) && NamespaceMirrors(live, rec, now) && ChunksMirror(live, rec, start)
  }

  lemma MirrorsItself(s: Store, now: Time)
    requires Conserved(s)
    ensures Mirrors(s, s, s.gcPending, now)
  {
    forall h | h in s.chunkVersions ensures h < s.nextHandle { assert h in Listed(s); }
  }

  lemma CreateMirrors(m: Master, rec: Store, start: set<Handle>, path: Path, now: Time)
    requires Mirrors(m.store, rec, start, now) && path !in m.store.namespace
    ensures Mirrors(CreateFile(m, path, now).store, ReplayOne(rec, CreateFileRecord(now, path)), start, now)
  {
    var n, rec' := CreateFile(m, path, now), ReplayOne(rec, CreateFileRecord(now, path));
    SameHandlesConserved(m.store, n.store);
    assert Listed(rec') == Listed(rec) && Listed(n.store) == Listed(m.store);
  }

  lemma DeleteMirrors(m: Master, rec: Store, start: set<Handle>, path: Path, now: Time)
    requires Mirrors(m.store, rec, start, now) && path in m.store.namespace
    ensures Mirrors(DeleteFile(m, path, now).store, ReplayOne(rec, DeleteFileRecord(now, path, HiddenName(path, now))),
        start, now)
  {
    var n, rec' := DeleteFile(m, path, now), ReplayOne(rec, DeleteFileRecord(now, path, HiddenName(path, now)));
    SameHandlesConserved(m.store, n.store);
    assert Listed(rec') == Listed(rec) && Listed(n.store) == Listed(m.store);
  }

  lemma AllocateChunksMirror(m: Master, rec: Store, start: set<Handle>, path: Path, chosen: seq<Addr>, now: Time)
    requires Conserved(m.store) && ChunksMirror(m.store, rec, start) && chosen != []
    ensures ChunksMirror(Allocate(m, path, chosen, now).store,
        ReplayOne(rec, AllocateChunkRecord(now, path, m.store.nextHandle)), start)
  {
    var n, rec' := Allocate(m, path, chosen, now), ReplayOne(rec, AllocateChunkRecord(now, path, m.store.nextHandle));
    forall h | h in Listed(rec) ensures h in Listed(rec') {
      var p := Lister(rec, h);
      assert Lists(rec', p, h);
    }
    forall h | h in Listed(n.store) ensures h in Listed(rec') {
      var p := Lister(n.store, h);
      AllocateLists(m, path, chosen, now);
      if Lists(m.store, p, h) { assert h in Listed(m.store); } else { assert Lists(rec', path, h); }
    }
  }

  lemma AllocateMirrors(m: Master, rec: Store, start: set<Handle>, path: Path, chosen: seq<Addr>, now: Time)
    requires Mirrors(m.store, rec, start, now) && chosen != []
    ensures Mirrors(Allocate(m, path, chosen, now).store,
        ReplayOne(rec, AllocateChunkRecord(now, path, m.store.nextHandle)), start, now)
  {
    AllocateConserves(m, path, chosen, now);
    AllocateChunksMirror(m, rec, start, path, chosen, now);
  }

  lemma GrantChunksMirror(m: Master, rec: Store, start: set<Handle>, h: Handle, now: Time)
    requires Conserved(m.store) && ChunksMirror(m.store, rec, start) && h in m.store.chunkMap
    requires Healthy(m.store.chunkMap[h]) != []
    ensures ChunksMirror(GrantLease(m, h, now).store,
        ReplayOne(rec, GrantLeaseRecord(now, h, VersionOf(m.store, h) + 1)), start)
  {
    var n, rec' := GrantLease(m, h, now), ReplayOne(rec, GrantLeaseRecord(now, h, VersionOf(m.store, h) + 1));
    assert Listed(rec') == Listed(rec) && Listed(n.store) == Listed(m.store);
    assert h in Listed(m.store);
  }

  lemma GrantMirrors(m: Master, rec: Store, start: set<Handle>, h: Handle, now: Time)
    requires Mirrors(m.store, rec, start, now) && h in m.store.chunkMap && Healthy(m.store.chunkMap[h]) != []
    ensures Mirrors(GrantLease(m, h, now).store, ReplayOne(rec, GrantLeaseRecord(now, h, VersionOf(m.store, h) + 1)),
        start, now)
  {
    SameHandlesConserved(m.store, GrantLease(m, h, now).store);
    GrantChunksMirror(m, rec, start, h, now);
  }

  /** A scan that collects nothing new erases no chunk list. */
  lemma ScanErasesLists(s: Store, now: Time)
    requires Conserved(s)
    ensures Orphans(s, now) !! s.gcPending && Orphans(s, now) <= Listed(s)
    ensures Orphans(s, now) == {} ==> ScanStore(s, now).fileChunks == s.fileChunks
  {
    forall h | h in Orphans(s, now) ensures h in Listed(s) && h !in s.gcPending {
      var p := Orphaner(s, now, h);
    }
    forall p | p in ExpiredPaths(s, now) && p in s.fileChunks ensures s.fileChunks[p][0] in Orphans(s, now) {
      var h := s.fileChunks[p][0];
      assert h in s.fileChunks[p];
    }
    if Orphans(s, now) == {} {
      assert s.fileChunks.Keys !! ExpiredPaths(s, now);
    }
  }

  lemma ScanMirrors(m: Master, rec: Store, start: set<Handle>, now: Time)
    requires Mirrors(m.store, rec, start, now)
    ensures Mirrors(Scan(m, now).store, rec, start, now)
  {
    var s, t := m.store, ScanStore(m.store, now);
    ScanConserves(s, now);
    ScanErasesLists(s, now);
    if t.gcPending == start { assert Orphans(s, now) == {}; }
    forall h | h in Listed(t) ensures h in Listed(s) {
      var p := Lister(t, h);
      assert Lists(s, p, h);
    }
  }

  // ---- Steps and runs ----

  lemma LaterMirrors(live: Store, rec: Store, start: set<Handle>, clock: Time, now: Time)
    requires Mirrors(live, rec, start, clock) && clock <= now
    ensures Mirrors(live, rec, start, now)
  {
  }

  lemma SameMirrors(live: Store, live': Store, rec: Store, start: set<Handle>, now: Time)
    requires Mirrors(live, rec, start, now)
    requires SameHandles(live, live') && live'.namespace == live.namespace && live'.chunkVersions == live.chunkVersions
    ensures Mirrors(live', rec, start, now)
  {
    SameHandlesConserved(live, live');
    assert Listed(live') == Listed(live);
  }

  lemma {:induction false} BeatKeepsLogged(m: Master, cs: Addr, reports: seq<Report>)
    ensures var n := BeatAll(m, cs, reports);
      && n.log == m.log && SameHandles(m.store, n.store)
      && n.store.namespace == m.store.namespace && n.store.chunkVersions == m.store.chunkVersions
    decreases |reports|
  {
    if reports != [] { BeatKeepsLogged(m, cs, reports[..|reports| - 1]); }
  }

  /** Steps that neither log anything nor touch what the log records. */
  lemma UnloggedStep(m: Master, e: Event)
    requires Enabled(m, e) && !e.op.Create? && !e.op.Delete? && !e.op.Locate? && !e.op.ScanTrash?
    ensures var n := Apply(m, e);
      && n.log == m.log && SameHandles(m.store, n.store)
      && n.store.namespace == m.store.namespace && n.store.chunkVersions == m.store.chunkVersions
  {
    match e.op
    case Beat(server, reports) => BeatKeepsLogged(m.(lastSeen := m.lastSeen[server := e.now]), server, reports);
    case _ =>
  }

  lemma ReplayLast(s: Store, log: seq<Record>, r: Record)
    ensures Replay(s, log + [r]) == ReplayOne(Replay(s, log), r)
  {
    assert Init(log + [r]) == log;
  }

  lemma AllocateLogged(m: Master, base: Store, skip: nat, start: set<Handle>, path: Path, chosen: seq<Addr>, now: Time)
    requires skip <= |m.log| && chosen != []
    requires Mirrors(m.store, Replay(base, m.log[skip..]), start, now)
    ensures var n := Allocate(m, path, chosen, now);
      m.log <= n.log && Mirrors(n.store, Replay(base, n.log[skip..]), start, now)
  {
    AllocateMirrors(m, Replay(base, m.log[skip..]), start, path, chosen, now);
    var r := AllocateChunkRecord(now, path, m.store.nextHandle);
    assert Allocate(m, path, chosen, now).log[skip..] == m.log[skip..] + [r];
    ReplayLast(base, m.log[skip..], r);
  }

  /** Renewing a lease does nothing or appends one record. */
  lemma LeaseAppends(m: Master, h: Handle, now: Time, skip: nat)
    requires h in m.store.chunkMap && skip <= |m.log|
    ensures var n, r := EnsureLease(m, h, now), GrantLeaseRecord(now, h, VersionOf(m.store, h) + 1);
      n == m || (n == GrantLease(m, h, now) && Healthy(m.store.chunkMap[h]) != [] && m.log <= n.log
          && n.log[skip..] == m.log[skip..] + [r])
  {
  }

  lemma LeaseLogged(m: Master, base: Store, skip: nat, start: set<Handle>, h: Handle, now: Time)
    requires skip <= |m.log| && h in m.store.chunkMap
    requires Mirrors(m.store, Replay(base, m.log[skip..]), start, now)
    ensures var n := EnsureLease(m, h, now);
      m.log <= n.log && Mirrors(n.store, Replay(base, n.log[skip..]), start, now)
  {
    LeaseAppends(m, h, now, skip);
    if EnsureLease(m, h, now) != m {
      GrantMirrors(m, Replay(base, m.log[skip..]), start, h, now);
      ReplayLast(base, m.log[skip..], GrantLeaseRecord(now, h, VersionOf(m.store, h) + 1));
    }
  }

  lemma LocateMirrors(m: Master, e: Event, base: Store, skip: nat, start: set<Handle>)
    requires Enabled(m, e) && e.op.Locate? && skip <= |m.log|
    requires Mirrors(m.store, Replay(base, m.log[skip..]), start, e.now)
    ensures m.log <= Apply(m, e).log
    ensures Mirrors(Apply(m, e).store, Replay(base, Apply(m, e).log[skip..]), start, e.now)
  {
    var chosen := Drawn(m, e);
    var m1, h := LocateSteps(m, e.op.path, e.op.index, e.op.create, chosen, e.now);
    if m1 != m { AllocateLogged(m, base, skip, start, e.op.path, chosen, e.now); }
    if h.Some? { LeaseLogged(m1, base, skip, start, h.value, e.now); }
  }

  lemma StepMirrors(m: Master, e: Event, base: Store, skip: nat, start: set<Handle>)
    requires Enabled(m, e) && skip <= |m.log|
    requires Mirrors(m.store, Replay(base, m.log[skip..]), start, e.now)
    ensures m.log <= Apply(m, e).log
    ensures Mirrors(Apply(m, e).store, Replay(base, Apply(m, e).log[skip..]), start, e.now)
  {
    var n, rec := Apply(m, e), Replay(base, m.log[skip..]);
    match e.op
    case Create(path) =>
      if path !in m.store.namespace {
        CreateMirrors(m, rec, start, path, e.now);
        assert n.log[skip..] == m.log[skip..] + [CreateFileRecord(e.now, path)];
        ReplayLast(base, m.log[skip..], CreateFileRecord(e.now, path));
      }
    case Delete(path) =>
      if path in m.store.namespace {
        DeleteMirrors(m, rec, start, path, e.now);
        assert n.log[skip..] == m.log[skip..] + [DeleteFileRecord(e.now, path, HiddenName(path, e.now))];
        ReplayLast(base, m.log[skip..], DeleteFileRecord(e.now, path, HiddenName(path, e.now)));
      }
    case Locate(_, _, _, _) => LocateMirrors(m, e, base, skip, start);
    case ScanTrash => ScanMirrors(m, rec, start, e.now);
    case _ =>
      UnloggedStep(m, e);
      SameMirrors(m.store, n.store, rec, start, e.now);
  }

  /** Whatever the master does from a state it saved on, the records logged since,
      replayed on the saved state, mirror the live master. */
  lemma {:induction false} RunMirrors(w: World, es: seq<Event>)
    requires Legal(w, es) && Conserved(w.master.store)
    ensures var v := Exec(w, es);
      && w.master.log <= v.master.log
      && w.clock <= v.clock
      && Mirrors(v.master.store, Replay(w.master.store, v.master.log[|w.master.log|..]), w.master.store.gcPending,
          v.clock)
    decreases |es|
  {
    var skip := |w.master.log|;
    if es == [] {
      assert w.master.log[skip..] == [];
      MirrorsItself(w.master.store, w.clock);
    } else {
      RunMirrors(w, Init(es));
      var v, e := Exec(w, Init(es)), Last(es);
      LaterMirrors(v.master.store, Replay(w.master.store, v.master.log[skip..]), w.master.store.gcPending, v.clock,
          e.now);
      StepMirrors(v.master, e, w.master.store, skip, w.master.store.gcPending);
    }
  }

  // ---- What recovery gives back ----

  /** The files a client can see. */
  function Visible(s: Store): map<Path, FileMeta> {
    map p | p in s.namespace && !s.namespace[p].deleted :: s.namespace[p]
  }

  /** What two stores that hold the same recoverable state agree on. */
  ghost predicate Agree(live: Store, rec: Store, now: Time) {
    && Visible(rec) == Visible(live)
    && ScanStore(rec, now).namespace == ScanStore(live, now).namespace
    && (forall h :: h in live.chunkMap ==> VersionOf(rec, h) == VersionOf(live, h))
  }

  lemma NamesAgree(live: Store, rec: Store, now: Time)
    requires NamespaceMirrors(live, rec, now)
    ensures Visible(rec) == Visible(live)
    ensures ScanStore(rec, now).namespace == ScanStore(live, now).namespace
  {
    forall p ensures p in Visible(rec) <==> p in Visible(live) { }
  }

  lemma MirrorsAgree(live: Store, rec: Store, start: set<Handle>, now: Time)
    requires Mirrors(live, rec, start, now)
    ensures Agree(live, rec, now)
    ensures rec.fileChunks == live.fileChunks <==> live.gcPending == start
  {
    NamesAgree(live, rec, now);
    if rec.fileChunks == live.fileChunks {
      assert Listed(rec) == Listed(live);
      forall h | h in live.gcPending ensures h in start {
        assert h !in Listed(rec);
      }
      assert live.gcPending == start;
    }
  }

  /** Replaying the whole log of any run from an empty master gives back the visible
      namespace and every live chunk's version, and, after one scan on each side, the
      whole namespace. It gives back the chunk lists exactly when no scan has collected
      a chunk so far. */
  lemma {:induction false} ReplayRecovers(w: World, es: seq<Event>)
    requires Fresh(w) && Legal(w, es)
    ensures var v := Exec(w, es); var rec := Restore(Disk(None, v.master.log));
      && Agree(v.master.store, rec, v.clock)
      && (rec.fileChunks == v.master.store.fileChunks <==> v.master.store.gcPending == {})
  {
    FreshConserved(w);
    RunMirrors(w, es);
    var v := Exec(w, es);
    assert v.master.log[0..] == v.master.log;
    MirrorsAgree(v.master.store, Restore(Disk(None, v.master.log)), {}, v.clock);
  }

  /** write_checkpoint: the state goes to the checkpoint and the log is emptied. */
  function WriteCheckpoint(m: Master): Disk {
    Disk(Some(m.store), [])
  }

  /** A checkpoint written at any point of any run changes nothing about recovery: the
      checkpoint with the later log agrees with the live master as the whole log does,
      and its chunk lists are the live ones exactly when nothing was collected since. */
  lemma CheckpointTransparent(w: World, es1: seq<Event>, es2: seq<Event>)
    requires Fresh(w) && Legal(w, es1) && Legal(Exec(w, es1), es2)
    ensures var u := Exec(w, es1); var v := Exec(u, es2);
      && u.master.log <= v.master.log
      && var later := v.master.log[|u.master.log|..];
      var fromCheckpoint := Restore(WriteCheckpoint(u.master).(log := later));
      var fromWholeLog := Restore(Disk(None, v.master.log));
      && Agree(v.master.store, fromCheckpoint, v.clock)
      && Agree(v.master.store, fromWholeLog, v.clock)
      && Visible(fromCheckpoint) == Visible(fromWholeLog)
      && (fromCheckpoint.fileChunks == v.master.store.fileChunks <==>
           v.master.store.gcPending == u.master.store.gcPending)
  {
    FreshConserved(w);
    HandlesConserved(w, es1);
    var u := Exec(w, es1);
    RunMirrors(u, es2);
    var v := Exec(u, es2);
    MirrorsAgree(v.master.store, Replay(u.master.store, v.master.log[|u.master.log|..]), u.master.store.gcPending,
        v.clock);
    ExecSplit(w, es1, es2);
    ReplayRecovers(w, es1 + es2);
  }
}
