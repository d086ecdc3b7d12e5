/** Two consequences of keeping deleted files under hidden names: a crash between saving
    a checkpoint and emptying the log, and which chunks are ever collected. Both are
    about clients that stay out of the hidden directory. */
module CheckpointCrash {
  import opened Locations
  import opened Seqs
  import opened Text
  import opened Wrappers
  import opened MasterState
  import opened MasterRuns
  import opened Recovery

  predicate IsHidden(p: Path) {
    TRASH <= p
  }

  predicate ClientEvent(e: Event) {
    match e.op
    case Create(path) => !IsHidden(path)
    case Delete(path) => !IsHidden(path)
    case Locate(path, _, _, _) => !IsHidden(path)
    case _ => true
  }

  /** Clients name no path inside the hidden directory. */
  predicate ClientPaths(es: seq<Event>) {
    forall i :: 0 <= i < |es| ==> ClientEvent(es[i])
  }

  /** The hidden directory holds the deleted files and no chunk lists. */
  ghost predicate WellHidden(s: Store) {
    && (forall p :: p in s.namespace ==> (s.namespace[p].deleted <==> IsHidden(p)))
    && (forall p :: p in s.fileChunks ==> !IsHidden(p))
  }

  predicate ClientRecord(r: Record) {
    match r
    case CreateFileRecord(_, filename) => !IsHidden(filename)
    case AllocateChunkRecord(_, filename, _) => !IsHidden(filename)
    case GrantLeaseRecord(_, _, _) => true
    case DeleteFileRecord(_, path, hidden) => !IsHidden(path) && IsHidden(hidden)
  }

  predicate ClientLog(log: seq<Record>) {
    forall i :: 0 <= i < |log| ==> ClientRecord(log[i])
  }

  // ---- Nothing is ever collected ----

  lemma StartsWith(a: string, b: string, c: string, d: string)
    ensures a <= a + b + c + d
  {
  }

  lemma HiddenNameIsHidden(path: Path, now: Time)
    ensures IsHidden(HiddenName(path, now))
  {
    StartsWith(TRASH, Underscored(path), "_", Decimal(now));
  }

  lemma ScanCollectsNothing(s: Store, now: Time)
    requires WellHidden(s)
    ensures Orphans(s, now) == {}
    ensures WellHidden(ScanStore(s, now))
  {
    forall h ensures h !in Orphans(s, now) {
      assert forall p :: p in ExpiredPaths(s, now) ==> IsHidden(p);
    }
  }

  /** Nothing was collected, the hidden directory stayed as it should be, and only
      client records were logged. */
  ghost predicate StaysHidden(m: Master, n: Master) {
    && WellHidden(n.store)
    && n.store.gcPending == m.store.gcPending
    && m.log <= n.log && ClientLog(n.log[|m.log|..])
  }

  lemma DeleteStaysHidden(m: Master, path: Path, now: Time)
    requires WellHidden(m.store) && !IsHidden(path)
    ensures StaysHidden(m, DeleteFile(m, path, now))
  {
    HiddenNameIsHidden(path, now);
  }

  lemma AllocateStaysHidden(m: Master, path: Path, chosen: seq<Addr>, now: Time)
    requires WellHidden(m.store) && !IsHidden(path) && chosen != []
    ensures StaysHidden(m, Allocate(m, path, chosen, now))
  {
  }

  lemma LeaseStaysHidden(m: Master, m1: Master, h: Handle, now: Time)
    requires StaysHidden(m, m1) && h in m1.store.chunkMap
    ensures StaysHidden(m, EnsureLease(m1, h, now))
  {
  }

  lemma LocateStaysHidden(m: Master, e: Event)
    requires Enabled(m, e) && ClientEvent(e) && e.op.Locate? && WellHidden(m.store)
    ensures StaysHidden(m, Apply(m, e))
  {
    var chosen := Drawn(m, e);
    var m1, h := LocateSteps(m, e.op.path, e.op.index, e.op.create, chosen, e.now);
    if m1 != m { AllocateStaysHidden(m, e.op.path, chosen, e.now); }
    if h.Some? { LeaseStaysHidden(m, m1, h.value, e.now); }
  }

  lemma StepStaysHidden(m: Master, e: Event)
    requires Enabled(m, e) && ClientEvent(e) && WellHidden(m.store)
    ensures StaysHidden(m, Apply(m, e))
  {
    match e.op
    case Create(_) =>
    case Delete(path) => DeleteStaysHidden(m, path, e.now);
    case Locate(_, _, _, _) => LocateStaysHidden(m, e);
    case ScanTrash => ScanCollectsNothing(m.store, e.now);
    case _ => UnloggedStep(m, e);
  }

  lemma {:induction false} RunStaysHidden(w: World, es: seq<Event>)
    requires Legal(w, es) && ClientPaths(es) && WellHidden(w.master.store)
    ensures var v := Exec(w, es);
      && WellHidden(v.master.store)
      && v.master.store.gcPending == w.master.store.gcPending
      && w.master.log <= v.master.log && ClientLog(v.master.log[|w.master.log|..])
    decreases |es|
  {
    if es != [] {
      RunStaysHidden(w, Init(es));
      var u := Exec(w, Init(es));
      StepStaysHidden(u.master, Last(es));
      var skip, n := |w.master.log|, Apply(u.master, Last(es));
      assert n.log[skip..] == u.master.log[skip..] + n.log[|u.master.log|..];
    }
  }

  /** The scan looks for chunks under hidden names while a delete leaves them under the
      old name, so as long as clients stay out of the hidden directory no chunk is ever
      collected, and log replay rebuilds every chunk list. */
  lemma NothingIsCollected(w: World, es: seq<Event>)
    requires Fresh(w) && Legal(w, es) && ClientPaths(es)
    ensures var v := Exec(w, es);
      && v.master.store.gcPending == {}
      && Restore(Disk(None, v.master.log)).fileChunks == v.master.store.fileChunks
  {
    RunStaysHidden(w, es);
    ReplayRecovers(w, es);
  }

  // ---- The last record about a name decides ----

  predicate Touches(r: Record, p: Path) {
    (r.CreateFileRecord? && r.filename == p) || (r.DeleteFileRecord? && r.path == p)
  }

  predicate Touched(log: seq<Record>, p: Path) {
    exists i :: 0 <= i < |log| && Touches(log[i], p)
  }

  function FileAt(s: Store, p: Path): Option<FileMeta> {
    if p in s.namespace then Some(s.namespace[p]) else None
  }

  lemma {:induction false} ReplayFile(s: Store, t: Store, log: seq<Record>, p: Path)
    requires ClientLog(log) && !IsHidden(p)
    ensures Touched(log, p) ==> FileAt(Replay(s, log), p) == FileAt(Replay(t, log), p)
    ensures !Touched(log, p) ==> FileAt(Replay(s, log), p) == FileAt(s, p)
    decreases |log|
  {
    if log != [] {
      ReplayFile(s, t, Init(log), p);
      var r := Last(log);
      assert ClientRecord(r);
      if !Touches(r, p) {
        assert FileAt(Replay(s, log), p) == FileAt(Replay(s, Init(log)), p);
        assert FileAt(Replay(t, log), p) == FileAt(Replay(t, Init(log)), p);
        assert Touched(log, p) ==> Touched(Init(log), p);
      }
      assert Touched(Init(log), p) ==> Touched(log, p) by {
        if Touched(Init(log), p) {
          var i :| 0 <= i < |Init(log)| && Touches(Init(log)[i], p);
          assert Touches(log[i], p);
        }
      }
    }
  }

  predicate Granted(log: seq<Record>, h: Handle) {
    exists i :: 0 <= i < |log| && log[i].GrantLeaseRecord? && log[i].handle == h
  }

  lemma {:induction false} ReplayVersion(s: Store, t: Store, log: seq<Record>, h: Handle)
    ensures Granted(log, h) ==> VersionOf(Replay(s, log), h) == VersionOf(Replay(t, log), h)
    ensures !Granted(log, h) ==> VersionOf(Replay(s, log), h) == VersionOf(s, h)
    decreases |log|
  {
    if log != [] {
      ReplayVersion(s, t, Init(log), h);
      if Granted(Init(log), h) {
        var i :| 0 <= i < |Init(log)| && Init(log)[i].GrantLeaseRecord? && Init(log)[i].handle == h;
        assert log[i].GrantLeaseRecord? && log[i].handle == h;
      }
      if Granted(log, h) && !(Last(log).GrantLeaseRecord? && Last(log).handle == h) {
        var i :| 0 <= i < |log| && log[i].GrantLeaseRecord? && log[i].handle == h;
        assert Init(log)[i] == log[i];
      }
    }
  }

  /** The handles a log assigns to a file, oldest first. */
  function AllocatedIn(log: seq<Record>, p: Path): seq<Handle>
    decreases |log|
  {
    if log == [] then []
    else AllocatedIn(Init(log), p) + var r := Last(log);
         if r.AllocateChunkRecord? && r.filename == p then [r.handle] else []
  }

  lemma {:induction false} ReplayChunks(s: Store, log: seq<Record>, p: Path)
    ensures ChunksOf(Replay(s, log), p) == ChunksOf(s, p) + AllocatedIn(log, p)
    decreases |log|
  {
    if log != [] { ReplayChunks(s, Init(log), p); }
  }

  lemma {:induction false} ReplayStaysHidden(s: Store, log: seq<Record>)
    requires WellHidden(s) && ClientLog(log)
    ensures WellHidden(Replay(s, log))
    decreases |log|
  {
    if log != [] {
      ReplayStaysHidden(s, Init(log));
      assert ClientRecord(Last(log));
    }
  }

  // ---- A crash between the rename and the truncation ----

  lemma CrashKeepsFile(start: Store, live: Store, log: seq<Record>, p: Path, now: Time)
    requires NamespaceMirrors(live, Replay(start, log), now)
    requires WellHidden(Replay(start, log)) && WellHidden(live) && ClientLog(log) && !IsHidden(p)
    ensures FileAt(Replay(live, log), p) == FileAt(live, p)
  {
    ReplayFile(live, start, log, p);
    assert FileAt(Replay(start, log), p) == FileAt(live, p);
  }

  /** Replaying the log once more over what it already led to shows the same files. */
  lemma CrashKeepsNames(start: Store, live: Store, log: seq<Record>, now: Time)
    requires NamespaceMirrors(live, Replay(start, log), now)
    requires WellHidden(Replay(start, log)) && WellHidden(live) && ClientLog(log)
    ensures WellHidden(Replay(live, log)) && Visible(Replay(live, log)) == Visible(live)
  {
    var rec := Replay(live, log);
    ReplayStaysHidden(live, log);
    forall q ensures q in Visible(rec) <==> q in Visible(live)
      ensures q in Visible(live) ==> rec.namespace[q] == live.namespace[q]
    {
      if !IsHidden(q) { CrashKeepsFile(start, live, log, q, now); }
    }
  }

  /** A crash after the new checkpoint is in place and before the log is emptied leaves
      the checkpoint with the whole log behind it. Recovery then still gives the visible
      namespace and the live versions, but every chunk allocated in that log is listed a
      second time. */
  lemma {:induction false} CrashBeforeTruncation(w: World, es: seq<Event>, p: Path)
    requires Legal(w, es) && Conserved(w.master.store) && WellHidden(w.master.store) && ClientPaths(es)
    ensures var v := Exec(w, es); var live := v.master.store;
      && w.master.log <= v.master.log
      && var log := v.master.log[|w.master.log|..]; var rec := Restore(Disk(Some(live), log));
      && Visible(rec) == Visible(live)
      && (forall h :: h in live.chunkMap ==> VersionOf(rec, h) == VersionOf(live, h))
      && ChunksOf(rec, p) == ChunksOf(live, p) + AllocatedIn(log, p)
      && (ChunksOf(rec, p) == ChunksOf(live, p) <==> AllocatedIn(log, p) == [])
  {
    RunMirrors(w, es);
    RunStaysHidden(w, es);
    var v := Exec(w, es);
    var live, log := v.master.store, v.master.log[|w.master.log|..];
    var rec := Replay(live, log);
    ReplayStaysHidden(w.master.store, log);
    CrashKeepsNames(w.master.store, live, log, v.clock);
    forall h | h in live.chunkMap ensures VersionOf(rec, h) == VersionOf(live, h) {
      ReplayVersion(live, w.master.store, log, h);
    }
    ReplayChunks(live, log, p);
  }
}
