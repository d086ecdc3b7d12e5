/** How a file's list of chunks changes: over every run it grows by exactly the chunks that
    location requests past its end were given, until a scan erases it. */
module ChunkLists {
  import opened Locations
  import opened Seqs
  import opened MasterState
  import opened MasterRuns
  import opened Recovery
  import opened CheckpointCrash

  /** Only names in the hidden directory carry a tombstone, so a scan erases no others. */
  ghost predicate TombstonesHidden(s: Store) {
    forall p :: p in s.namespace && s.namespace[p].deleted ==> IsHidden(p)
  }

  lemma LocateKeepsNames(m: Master, e: Event)
    requires Enabled(m, e) && e.op.Locate?
    ensures Apply(m, e).store.namespace == m.store.namespace
  {
    var m1, h := LocateApplied(m, e);
  }

  lemma StepTombstones(m: Master, e: Event)
    requires Enabled(m, e) && TombstonesHidden(m.store)
    ensures TombstonesHidden(Apply(m, e).store)
  {
    match e.op
    case Create(_) =>
    case Delete(path) => HiddenNameIsHidden(path, e.now);
    case Locate(_, _, _, _) => LocateKeepsNames(m, e);
    case ScanTrash =>
    case _ => UnloggedStep(m, e);
  }

  /** A request past the end of the file, with leave to create, while a server is up. */
  predicate Extends(m: Master, e: Event, path: Path) {
    e.op.Locate? && e.op.path == path && Allocates(m, path, e.op.index, e.op.create)
  }

  /** A scan that finds the name expired, and chunks listed under it. */
  predicate Clears(m: Master, e: Event, path: Path) {
    e.op.ScanTrash? && path in ExpiredPaths(m.store, e.now) && ChunksOf(m.store, path) != []
  }

  lemma StepChunks(m: Master, e: Event, path: Path)
    requires Enabled(m, e)
    ensures var n := Apply(m, e);
      && ChunksOf(n.store, path) ==
           (if Clears(m, e, path) then [] else ChunksOf(m.store, path))
             + (if Extends(m, e, path) then [m.store.nextHandle] else [])
      && m.store.nextHandle + (if Extends(m, e, path) then 1 else 0) <= n.store.nextHandle
  {
    match e.op
    case Locate(_, _, _, _) => var m1, h := LocateApplied(m, e);
    case ScanTrash =>
    case Create(_) =>
    case Delete(_) =>
    case _ => UnloggedStep(m, e);
  }

  /** Did any step extend the file? */
  ghost predicate Extended(w: World, es: seq<Event>, path: Path)
    requires Legal(w, es)
    decreases |es|
  {
    es != [] && (Extended(w, Init(es), path) || Extends(Exec(w, Init(es)).master, Last(es), path))
  }

  /** Did any step erase its list? */
  ghost predicate Cleared(w: World, es: seq<Event>, path: Path)
    requires Legal(w, es)
    decreases |es|
  {
    es != [] && (Cleared(w, Init(es), path) || Clears(Exec(w, Init(es)).master, Last(es), path))
  }

  ghost predicate Untouched(w: World, es: seq<Event>, path: Path)
    requires Legal(w, es)
  {
    !Extended(w, es, path) && !Cleared(w, es, path)
  }

  /** Handles given out between two states. */
  predicate NewFrom(s: Store, t: Store, hs: seq<Handle>) {
    forall i :: 0 <= i < |hs| ==> s.nextHandle <= hs[i] < t.nextHandle
  }

  /** In every run, whatever clients do: a file's list of chunks only grows, by handles
      never given out before, and stays as it is exactly when nobody extends it; once a
      scan has erased it, it lists nothing it listed before. */
  lemma {:induction false} ListHistory(w: World, es: seq<Event>, path: Path)
    requires Legal(w, es)
    ensures var s, t := w.master.store, Exec(w, es).master.store;
      var old1, new1 := ChunksOf(s, path), ChunksOf(t, path);
      && s.nextHandle <= t.nextHandle
      && if Cleared(w, es, path) then NewFrom(s, t, new1)
         else old1 <= new1 && NewFrom(s, t, new1[|old1|..]) && (new1 == old1 <==> !Extended(w, es, path))
    decreases |es|
  {
    if es != [] {
      ListHistory(w, Init(es), path);
      StepChunks(Exec(w, Init(es)).master, Last(es), path);
    }
  }

  /** Names outside the hidden directory never lose their list. */
  lemma {:induction false} NeverCleared(w: World, es: seq<Event>, path: Path)
    requires Legal(w, es) && TombstonesHidden(w.master.store) && !IsHidden(path)
    ensures TombstonesHidden(Exec(w, es).master.store) && !Cleared(w, es, path)
    decreases |es|
  {
    if es != [] {
      NeverCleared(w, Init(es), path);
      StepTombstones(Exec(w, Init(es)).master, Last(es));
    }
  }

  /** So the last chunk is still the same one exactly when nobody extended the file and no
      scan erased its list; else it is one that was not there. */
  lemma {:induction false} LastChunkIff(w: World, es: seq<Event>, path: Path)
    requires Legal(w, es) && Conserved(w.master.store) && ChunksOf(w.master.store, path) != []
    ensures var s, t := w.master.store, Exec(w, es).master.store;
      && s.nextHandle <= t.nextHandle && Last(ChunksOf(s, path)) < s.nextHandle
      && if Untouched(w, es, path) then ChunksOf(t, path) == ChunksOf(s, path)
         else ChunksOf(t, path) == [] || s.nextHandle <= Last(ChunksOf(t, path))
  {
    ListHistory(w, es, path);
    var s := w.master.store;
    assert Lists(s, path, Last(ChunksOf(s, path)));
    assert Last(ChunksOf(s, path)) in Listed(s);
  }
}
