/** What becomes of deleted files: under which names they are kept, and for how long. */
module Trash {
  import opened Seqs
  import opened Text
  import opened Wrappers
  import opened MasterState
  import opened MasterRuns
  import opened Recovery
  import opened CheckpointCrash
  import opened ChunkLists

  // ---- Names ----

  /** Equal up to slashes and underscores. */
  predicate Alike(p: Path, q: Path) {
    |p| == |q| && forall i :: 0 <= i < |p| ==> p[i] == q[i] || (p[i] in "/_" && q[i] in "/_")
  }

  lemma UnderscoredAlike(p: Path, q: Path)
    ensures Underscored(p) == Underscored(q) <==> Alike(p, q)
  {
    if Underscored(p) == Underscored(q) {
      forall i | 0 <= i < |p| ensures p[i] == q[i] || (p[i] in "/_" && q[i] in "/_") {
        assert Underscored(p)[i] == Underscored(q)[i];
      }
    }
  }

  /** Two deletions use the same hidden name exactly when they happen in the same second and
      the paths differ in nothing but slashes and underscores. */
  lemma SameHiddenNameIff(p: Path, s: Time, q: Path, t: Time)
    ensures HiddenName(p, s) == HiddenName(q, t) <==> s == t && Alike(p, q)
    ensures "/.trash/" <= HiddenName(p, s)
  {
    var a, b := Underscored(p) + "_" + Decimal(s), Underscored(q) + "_" + Decimal(t);
    assert HiddenName(p, s) == TRASH + a && HiddenName(q, t) == TRASH + b;
    assert (TRASH + a)[|TRASH|..] == a && (TRASH + b)[|TRASH|..] == b;
    UnderscoredAlike(p, q);
    if HiddenName(p, s) == HiddenName(q, t) {
      LastSeparator(Underscored(p), Decimal(s), Underscored(q), Decimal(t));
      DecimalInjective(s, t);
    }
  }

  /** So of two such files deleted in the same second only the later one is kept. */
  lemma TombstoneOverwritten(m: Master, p: Path, q: Path, now: Time)
    requires p in m.store.namespace && q in m.store.namespace && p != q && Alike(p, q)
    requires !IsHidden(p) && !IsHidden(q)
    ensures var ns := DeleteFile(DeleteFile(m, p, now), q, now).store.namespace;
      var hidden := HiddenName(q, now);
      && p !in ns && q !in ns && HiddenName(p, now) == hidden && hidden in ns
      && ns[hidden].createdAt == m.store.namespace[q].createdAt && ns[hidden].path == m.store.namespace[q].path
  {
    SameHiddenNameIff(p, now, q, now);
    HiddenNameIsHidden(q, now);
  }

  // ---- Time ----

  /** A scan more than ten seconds after `t`. */
  predicate ScansAfter(es: seq<Event>, t: Time) {
    exists i :: 0 <= i < |es| && es[i].op.ScanTrash? && es[i].now > t + 10
  }

  /** No deletion in the run uses the hidden name. */
  predicate NotReused(es: seq<Event>, hidden: Path) {
    forall i :: 0 <= i < |es| && es[i].op.Delete? ==> HiddenName(es[i].op.path, es[i].now) != hidden
  }

  lemma ScansAfterMore(es: seq<Event>, t: Time)
    requires es != []
    ensures ScansAfter(es, t) <==> ScansAfter(Init(es), t) || (Last(es).op.ScanTrash? && Last(es).now > t + 10)
  {
    assert forall i :: 0 <= i < |Init(es)| ==> Init(es)[i] == es[i];
    if ScansAfter(Init(es), t) {
      var i :| 0 <= i < |Init(es)| && Init(es)[i].op.ScanTrash? && Init(es)[i].now > t + 10;
      assert es[i].op.ScanTrash?;
    }
  }

  lemma StepKeepsTombstone(m: Master, e: Event, hidden: Path, t: Time)
    requires Enabled(m, e) && ClientEvent(e) && IsHidden(hidden)
    requires hidden in m.store.namespace && m.store.namespace[hidden].deleted
    requires m.store.namespace[hidden].deletedAt == Some(t)
    requires e.op.Delete? ==> HiddenName(e.op.path, e.now) != hidden
    ensures var ns := Apply(m, e).store.namespace;
      && (hidden in ns <==> !(e.op.ScanTrash? && e.now > t + 10))
      && (hidden in ns ==> ns[hidden] == m.store.namespace[hidden])
  {
    match e.op
    case Create(_) =>
    case Delete(_) =>
    case Locate(_, _, _, _) => LocateKeepsNames(m, e);
    case ScanTrash =>
    case _ => UnloggedStep(m, e);
  }

  lemma StepRevivesNothing(m: Master, e: Event, hidden: Path)
    requires Enabled(m, e) && ClientEvent(e) && IsHidden(hidden) && hidden !in m.store.namespace
    requires e.op.Delete? ==> HiddenName(e.op.path, e.now) != hidden
    ensures hidden !in Apply(m, e).store.namespace
  {
    match e.op
    case Create(_) =>
    case Delete(_) =>
    case Locate(_, _, _, _) => LocateKeepsNames(m, e);
    case ScanTrash =>
    case _ => UnloggedStep(m, e);
  }

  lemma {:induction false} TombstoneKeptIff(w: World, es: seq<Event>, hidden: Path, t: Time)
    requires Legal(w, es) && ClientPaths(es) && NotReused(es, hidden) && IsHidden(hidden)
    requires var ns := w.master.store.namespace; hidden in ns && ns[hidden].deleted && ns[hidden].deletedAt == Some(t)
    ensures var ns := Exec(w, es).master.store.namespace;
      && (hidden in ns <==> !ScansAfter(es, t))
      && (hidden in ns ==> ns[hidden] == w.master.store.namespace[hidden])
    decreases |es|
  {
    if es != [] {
      TombstoneKeptIff(w, Init(es), hidden, t);
      ScansAfterMore(es, t);
      var m := Exec(w, Init(es)).master;
      if hidden in m.store.namespace {
        StepKeepsTombstone(m, Last(es), hidden, t);
      } else {
        StepRevivesNothing(m, Last(es), hidden);
      }
    }
  }

  /** A deleted file is gone from its name and kept under a hidden one, with its creation
      time and the time of the deletion, until the first scan more than ten seconds later,
      as long as no other deletion uses that hidden name. */
  lemma {:induction false} DeletedFileKeptIff(w: World, e: Event, es: seq<Event>)
    requires CanStep(w, e) && e.op.Delete? && ClientEvent(e)
    requires e.op.path in w.master.store.namespace && !w.master.store.namespace[e.op.path].deleted
    requires Legal(Step(w, e), es) && ClientPaths(es) && NotReused(es, HiddenName(e.op.path, e.now))
    ensures var old1, ns := w.master.store.namespace, Exec(Step(w, e), es).master.store.namespace;
      var hidden := HiddenName(e.op.path, e.now);
      && e.op.path !in Step(w, e).master.store.namespace
      && (hidden in ns <==> !ScansAfter(es, e.now))
      && (hidden in ns ==>
           ns[hidden] == FileMeta(old1[e.op.path].path, old1[e.op.path].createdAt, true, Some(e.now), Some(hidden)))
  {
    HiddenNameIsHidden(e.op.path, e.now);
    TombstoneKeptIff(Step(w, e), es, HiddenName(e.op.path, e.now), e.now);
  }
}
