/** What a new master can and cannot do with the state it recovers from the checkpoint
    and log of an earlier one. */
module Restart {
  import opened Locations
  import opened Seqs
  import opened Wrappers
  import opened MasterState
  import opened MasterRuns
  import opened Recovery
  import opened CheckpointCrash

  /** The handles a log gives out. */
  function GivenOut(log: seq<Record>): set<Handle> {
    set i | 0 <= i < |log| && log[i].AllocateChunkRecord? :: log[i].handle
  }

  predicate AllocatesNone(log: seq<Record>) {
    forall i :: 0 <= i < |log| ==> !log[i].AllocateChunkRecord?
  }

  lemma NoneGivenOut(log: seq<Record>)
    ensures AllocatesNone(log) <==> forall h :: h !in GivenOut(log)
  {
    if i :| 0 <= i < |log| && log[i].AllocateChunkRecord? {
      assert log[i].handle in GivenOut(log);
    }
  }

  /** The records logged between two states of a run. */
  function Later(m: Master, n: Master): seq<Record>
    requires m.log <= n.log
  {
    n.log[|m.log|..]
  }

  /** The later log gives out exactly the handles in between, and neither it nor the
      chunk table speaks of any others. */
  ghost predicate LogsHandles(m: Master, n: Master) {
    && m.log <= n.log && m.store.nextHandle <= n.store.nextHandle
    && (forall h :: h in GivenOut(Later(m, n)) <==> m.store.nextHandle <= h < n.store.nextHandle)
    && (forall h :: h in n.store.chunkMap ==> h in m.store.chunkMap || h in GivenOut(Later(m, n)))
    && (forall h :: Granted(Later(m, n), h) ==> h in m.store.chunkMap || h in GivenOut(Later(m, n)))
  }

  lemma GivenOutAppend(log: seq<Record>, r: Record)
    ensures forall h :: h in GivenOut(log + [r]) <==> h in GivenOut(log) || (r.AllocateChunkRecord? && r.handle == h)
    ensures forall h :: Granted(log + [r], h) <==> Granted(log, h) || (r.GrantLeaseRecord? && r.handle == h)
  {
    var longer := log + [r];
    forall h ensures h in GivenOut(longer) <==> h in GivenOut(log) || (r.AllocateChunkRecord? && r.handle == h) {
      if h in GivenOut(log) {
        var i :| 0 <= i < |log| && log[i].AllocateChunkRecord? && log[i].handle == h;
        assert longer[i].AllocateChunkRecord? && longer[i].handle == h;
      }
      assert longer[|log|] == r;
    }
    forall h ensures Granted(longer, h) <==> Granted(log, h) || (r.GrantLeaseRecord? && r.handle == h) {
      if Granted(log, h) {
        var i :| 0 <= i < |log| && log[i].GrantLeaseRecord? && log[i].handle == h;
        assert longer[i].GrantLeaseRecord? && longer[i].handle == h;
      }
      assert longer[|log|] == r;
    }
  }

  /** A step that logs `r` and adds at most the handle `r` gives out. */
  lemma LogsOneMore(m: Master, n: Master, n': Master, r: Record)
    requires LogsHandles(m, n) && n'.log == n.log + [r]
    requires n'.store.nextHandle == n.store.nextHandle + if r.AllocateChunkRecord? then 1 else 0
    requires r.AllocateChunkRecord? ==> r.handle == n.store.nextHandle
    requires r.GrantLeaseRecord? ==> r.handle in n.store.chunkMap
    requires forall h :: h in n'.store.chunkMap ==> h in n.store.chunkMap || (r.AllocateChunkRecord? && h == r.handle)
    ensures LogsHandles(m, n')
  {
    assert Later(m, n') == Later(m, n) + [r];
    GivenOutAppend(Later(m, n), r);
  }

  lemma LogsNoMore(m: Master, n: Master, n': Master)
    requires LogsHandles(m, n) && n'.log == n.log && n'.store.nextHandle == n.store.nextHandle
    requires n'.store.chunkMap.Keys <= n.store.chunkMap.Keys
    ensures LogsHandles(m, n')
  {
    assert Later(m, n') == Later(m, n);
    forall h | h in n'.store.chunkMap ensures h in n.store.chunkMap {
      assert h in n'.store.chunkMap.Keys;
    }
  }

  lemma LeaseLogsHandles(m: Master, n: Master, h: Handle, now: Time)
    requires LogsHandles(m, n) && h in n.store.chunkMap
    ensures LogsHandles(m, EnsureLease(n, h, now))
  {
    var n' := EnsureLease(n, h, now);
    if n' != n { LogsOneMore(m, n, n', GrantLeaseRecord(now, h, VersionOf(n.store, h) + 1)); }
  }

  lemma LocateLogsHandles(m: Master, n: Master, e: Event)
    requires LogsHandles(m, n) && Enabled(n, e) && e.op.Locate?
    ensures LogsHandles(m, Apply(n, e))
  {
    var n1, h := LocateSteps(n, e.op.path, e.op.index, e.op.create, Drawn(n, e), e.now);
    if n1 != n { LogsOneMore(m, n, n1, AllocateChunkRecord(e.now, e.op.path, n.store.nextHandle)); }
    if h.Some? { LeaseLogsHandles(m, n1, h.value, e.now); }
  }

  lemma StepLogsHandles(m: Master, n: Master, e: Event)
    requires LogsHandles(m, n) && Enabled(n, e)
    ensures LogsHandles(m, Apply(n, e))
  {
    var n' := Apply(n, e);
    match e.op
    case Create(path) => if n' != n { LogsOneMore(m, n, n', CreateFileRecord(e.now, path)); }
    case Delete(path) => if n' != n { LogsOneMore(m, n, n', DeleteFileRecord(e.now, path, HiddenName(path, e.now))); }
    case Locate(_, _, _, _) => LocateLogsHandles(m, n, e);
    case ScanTrash => LogsNoMore(m, n, n');
    case _ =>
      UnloggedStep(n, e);
      LogsNoMore(m, n, n');
  }

  lemma {:induction false} RunLogsHandles(w: World, es: seq<Event>)
    requires Legal(w, es)
    ensures LogsHandles(w.master, Exec(w, es).master)
    decreases |es|
  {
    if es != [] {
      RunLogsHandles(w, Init(es));
      StepLogsHandles(w.master, Exec(w, Init(es)).master, Last(es));
    }
  }

  lemma {:induction false} ReplayLeavesTables(s: Store, log: seq<Record>)
    ensures Replay(s, log).chunkMap == s.chunkMap && Replay(s, log).nextHandle == s.nextHandle
    ensures Replay(s, log).gcPending == s.gcPending
    decreases |log|
  {
    if log != [] { ReplayLeavesTables(s, Init(log)); }
  }

  lemma {:induction false} AllocatedGivenOut(log: seq<Record>, p: Path, h: Handle)
    ensures h in AllocatedIn(log, p) ==> h in GivenOut(log)
    decreases |log|
  {
    if log != [] {
      AllocatedGivenOut(Init(log), p, h);
      GivenOutAppend(Init(log), Last(log));
      assert log == Init(log) + [Last(log)];
    }
  }

  lemma {:induction false} GivenOutAllocated(log: seq<Record>, h: Handle) returns (p: Path)
    requires h in GivenOut(log)
    ensures h in AllocatedIn(log, p)
    decreases |log|
  {
    GivenOutAppend(Init(log), Last(log));
    assert log == Init(log) + [Last(log)];
    if Last(log).AllocateChunkRecord? && Last(log).handle == h {
      p := Last(log).filename;
    } else {
      p := GivenOutAllocated(Init(log), h);
    }
  }

  /** Recovery lists what the saved state listed and what the later log gave out. */
  lemma RecoveredLists(s: Store, log: seq<Record>, h: Handle)
    ensures h in Listed(Replay(s, log)) <==> h in Listed(s) || h in GivenOut(log)
  {
    var rec := Replay(s, log);
    if h in Listed(rec) {
      var p := Lister(rec, h);
      ReplayChunks(s, log, p);
      AllocatedGivenOut(log, p, h);
      if h in ChunksOf(s, p) { assert Lists(s, p, h); }
    }
    if h in Listed(s) {
      var p := Lister(s, h);
      ReplayChunks(s, log, p);
      assert h in ChunksOf(rec, p) && Lists(rec, p, h);
    }
    if h in GivenOut(log) {
      var p := GivenOutAllocated(log, h);
      ReplayChunks(s, log, p);
      assert h in ChunksOf(rec, p) && Lists(rec, p, h);
    }
  }

  lemma {:induction false} ReplayKeepsLists(s: Store, log: seq<Record>)
    requires AllocatesNone(log)
    ensures Replay(s, log).fileChunks == s.fileChunks
    decreases |log|
  {
    if log != [] { ReplayKeepsLists(s, Init(log)); }
  }

  lemma {:induction false} ReplayVersionKeys(s: Store, log: seq<Record>, h: Handle)
    ensures h in Replay(s, log).chunkVersions <==> h in s.chunkVersions || Granted(log, h)
    decreases |log|
  {
    if log != [] {
      assert log == Init(log) + [Last(log)];
      GivenOutAppend(Init(log), Last(log));
      ReplayVersionKeys(s, Init(log), h);
    }
  }

  lemma ConservedWithout(m: Master, n: Master)
    requires Conserved(m.store) && LogsHandles(m, n) && AllocatesNone(Later(m, n))
    ensures Conserved(Replay(m.store, Later(m, n)))
  {
    var rec := Replay(m.store, Later(m, n));
    ReplayLeavesTables(m.store, Later(m, n));
    ReplayKeepsLists(m.store, Later(m, n));
    forall h ensures h in rec.chunkVersions.Keys <==> h in m.store.chunkVersions.Keys {
      ReplayVersionKeys(m.store, Later(m, n), h);
      NoneGivenOut(Later(m, n));
      assert Granted(Later(m, n), h) ==> h in m.store.chunkMap.Keys;
    }
    assert rec.chunkVersions.Keys == m.store.chunkVersions.Keys;
    SameHandlesConserved(m.store, rec);
  }

  lemma RestartOf(u: Master, v: Master, seen: map<Addr, Time>)
    requires Conserved(u.store) && LogsHandles(u, v)
    ensures var rec, later := Replay(u.store, Later(u, v)), Later(u, v);
      && (forall path, i, create, chosen, now ::
            path in rec.namespace && 0 <= i < |ChunksOf(rec, path)| ==>
              var reply :=
                GetChunkLocations(Master(rec, Later(u, v), seen, multiset{}, []), path, i, create, chosen, now).1;
              if ChunksOf(rec, path)[i] in u.store.chunkMap then
                reply.Located? && reply.at.handle == ChunksOf(rec, path)[i]
              else reply.InternalError?)
      && (forall h :: h in GivenOut(later) ==> h in Listed(rec) && h !in u.store.chunkMap)
      && (rec.nextHandle == v.store.nextHandle <==> AllocatesNone(later))
      && (rec.nextHandle !in Listed(rec) <==> AllocatesNone(later))
      && (Conserved(rec) <==> AllocatesNone(later))
  {
    var rec, next, gifts := Replay(u.store, Later(u, v)), u.store.nextHandle, GivenOut(Later(u, v));
    ReplayLeavesTables(u.store, Later(u, v));
    forall h | h in gifts ensures h in Listed(rec) && h !in u.store.chunkMap {
      RecoveredLists(u.store, Later(u, v), h);
      assert h in u.store.chunkMap ==> h in Listed(u.store);
    }
    RecoveredLists(u.store, Later(u, v), next);
    NoneGivenOut(Later(u, v));
    assert next in gifts <==> next < v.store.nextHandle;
    if AllocatesNone(Later(u, v)) { ConservedWithout(u, v); }
  }

  /** What a restart gives, from a checkpoint written at any point of any run and the log
      after it; with a first part that is empty, from the log alone. The chunk table and
      the handle counter are those of the checkpoint. So a request for a listed chunk is
      answered exactly when the chunk is in the checkpoint's table, and fails for every
      chunk allocated later. The counter is right, the next handle is unused, and handles
      are conserved, exactly when the later log allocated nothing. */
  lemma RestartLosesPlacement(w: World, es1: seq<Event>, es2: seq<Event>, seen: map<Addr, Time>)
    requires Fresh(w) && Legal(w, es1) && Legal(Exec(w, es1), es2)
    ensures var u, v := Exec(w, es1).master, Exec(Exec(w, es1), es2).master;
      && u.log <= v.log
      && var rec := Restore(WriteCheckpoint(u).(log := Later(u, v)));
      && (es1 == [] ==> rec == Restore(Disk(None, v.log)))
      && (forall path, i, create, chosen, now ::
            path in rec.namespace && 0 <= i < |ChunksOf(rec, path)| ==>
              var reply :=
                GetChunkLocations(Master(rec, Later(u, v), seen, multiset{}, []), path, i, create, chosen, now).1;
              if ChunksOf(rec, path)[i] in u.store.chunkMap then
                reply.Located? && reply.at.handle == ChunksOf(rec, path)[i]
              else reply.InternalError?)
      && (forall h :: h in GivenOut(Later(u, v)) ==> h in Listed(rec) && h !in u.store.chunkMap)
      && (rec.nextHandle == v.store.nextHandle <==> AllocatesNone(Later(u, v)))
      && (rec.nextHandle !in Listed(rec) <==> AllocatesNone(Later(u, v)))
      && (Conserved(rec) <==> AllocatesNone(Later(u, v)))
  {
    FreshConserved(w);
    HandlesConserved(w, es1);
    RunLogsHandles(Exec(w, es1), es2);
    RestartOf(Exec(w, es1).master, Exec(Exec(w, es1), es2).master, seen);
    assert es1 == [] ==>
      Later(Exec(w, es1).master, Exec(Exec(w, es1), es2).master) == Exec(Exec(w, es1), es2).master.log;
  }
}
