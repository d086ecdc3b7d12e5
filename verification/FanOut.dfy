/** Who a location reply names: over all runs, the replica lists hold no server twice
    and a reply names exactly the healthy replicas and the primary, each once. */
module FanOut {
  import opened Locations
  import opened Seqs
  import opened MasterState
  import opened MasterRuns

  ghost predicate NoRepeats(c: ChunkMeta) {
    Distinct(c.replicas) && Distinct(c.stale) && c.primary.Some?
  }

  ghost predicate AllDistinct(s: Store) {
    forall h :: h in s.chunkMap ==> NoRepeats(s.chunkMap[h])
  }

  // ---- Lists ----

  lemma PrependDistinct(a: Addr, s: seq<Addr>)
    requires Distinct(s) && a !in s
    ensures Distinct([a] + s)
  {
  }

  lemma {:induction false} RemoveFirstMembers(s: seq<Addr>, a: Addr)
    requires Distinct(s)
    ensures Distinct(RemoveFirst(s, a))
    ensures forall x :: x in RemoveFirst(s, a) <==> x in s && x != a
    decreases |s|
  {
    if s != [] {
      assert s == [s[0]] + s[1..];
      assert forall i :: 1 <= i < |s| ==> s[i] != s[0];
      RemoveFirstMembers(s[1..], a);
      if s[0] != a { PrependDistinct(s[0], RemoveFirst(s[1..], a)); }
    }
  }

  lemma {:induction false} FilterMembers(s: seq<Addr>, without: seq<Addr>)
    ensures forall x :: x in Filter(s, without) <==> x in s && x !in without
    ensures Distinct(s) ==> Distinct(Filter(s, without))
    decreases |s|
  {
    if s != [] {
      assert s == [s[0]] + s[1..];
      FilterMembers(s[1..], without);
      if Distinct(s) {
        assert forall i :: 1 <= i < |s| ==> s[i] != s[0];
        assert Distinct(s[1..]);
      }
    }
  }

  lemma AppendDistinct(s: seq<Addr>, a: Addr)
    requires Distinct(s) && a !in s
    ensures Distinct(s + [a])
  {
  }

  // ---- Every step keeps the lists distinct ----

  lemma ReportedDistinct(c: ChunkMeta, cs: Addr, current: bool)
    requires NoRepeats(c)
    ensures NoRepeats(Reported(c, cs, current))
  {
    RemoveFirstMembers(c.replicas, cs);
    RemoveFirstMembers(c.stale, cs);
  }

  lemma BeatOneDistinct(m: Master, cs: Addr, r: Report)
    requires AllDistinct(m.store)
    ensures AllDistinct(BeatOne(m, cs, r).store)
  {
    if r.handle in m.store.chunkMap {
      ReportedDistinct(m.store.chunkMap[r.handle], cs, r.version == VersionOf(m.store, r.handle));
    }
  }

  lemma {:induction false} BeatAllDistinct(m: Master, cs: Addr, reports: seq<Report>)
    requires AllDistinct(m.store)
    ensures AllDistinct(BeatAll(m, cs, reports).store)
    decreases |reports|
  {
    if reports != [] {
      BeatAllDistinct(m, cs, reports[..|reports| - 1]);
      BeatOneDistinct(BeatAll(m, cs, reports[..|reports| - 1]), cs, reports[|reports| - 1]);
    }
  }

  lemma EnsureLeaseDistinct(m: Master, h: Handle, now: Time)
    requires AllDistinct(m.store) && h in m.store.chunkMap
    ensures AllDistinct(EnsureLease(m, h, now).store)
  {
  }

  lemma ServerFailedDistinct(m: Master, cs: Addr)
    requires AllDistinct(m.store)
    ensures AllDistinct(ServerFailed(m, cs).store)
  {
    forall h | h in m.store.chunkMap ensures Distinct(RemoveFirst(m.store.chunkMap[h].replicas, cs)) {
      RemoveFirstMembers(m.store.chunkMap[h].replicas, cs);
    }
  }

  lemma RunRepairDistinct(m: Master, ok: bool)
    requires AllDistinct(m.store) && m.repairs != []
    ensures AllDistinct(RunRepair(m, ok).store)
  {
    var r := m.repairs[0];
    if r.handle in m.store.chunkMap {
      RemoveFirstMembers(m.store.chunkMap[r.handle].stale, r.server);
    }
  }

  lemma StepDistinct(m: Master, e: Event)
    requires Enabled(m, e) && AllDistinct(m.store)
    ensures AllDistinct(Apply(m, e).store)
  {
    match e.op
    case Locate(path, index, create, _) =>
      var m1, h := LocateSteps(m, path, index, create, Drawn(m, e), e.now);
      if h.Some? { EnsureLeaseDistinct(m1, h.value, e.now); }
    case Beat(server, reports) =>
      BeatAllDistinct(m.(lastSeen := m.lastSeen[server := e.now]), server, reports);
    case Die(server) => ServerFailedDistinct(m, server);
    case DoRepair(ok) => RunRepairDistinct(m, ok);
    case _ =>
  }

  lemma {:induction false} ListsStayDistinct(w: World, es: seq<Event>)
    requires Legal(w, es) && AllDistinct(w.master.store)
    ensures AllDistinct(Exec(w, es).master.store)
    decreases |es|
  {
    if es != [] {
      ListsStayDistinct(w, Init(es));
      StepDistinct(Exec(w, Init(es)).master, Last(es));
    }
  }

  // ---- What a reply names ----

  lemma ReplyLists(s: Store, h: Handle)
    requires h in s.chunkMap && NoRepeats(s.chunkMap[h])
    ensures var at, c := ReplyFor(s, h).at, s.chunkMap[h];
      && Distinct(Contacts(at)) && at.handle == h && at.primary == (if c.primary.Some? then c.primary.value else "")
      && (forall a :: a in Contacts(at) <==> a in Healthy(c) || a == at.primary)
      && (forall a :: a in Healthy(c) <==> a in c.replicas && a !in c.stale)
  {
    var at, c := ReplyFor(s, h).at, s.chunkMap[h];
    FilterMembers(c.replicas, c.stale);
    FilterMembers(Healthy(c), [at.primary]);
    PrependDistinct(at.primary, Filter(Healthy(c), [at.primary]));
  }

  /** Renewing a lease either changes nothing or makes a healthy replica the primary. */
  lemma RenewedPrimary(m: Master, h: Handle, now: Time)
    requires h in m.store.chunkMap
    ensures var n := EnsureLease(m, h, now); var c := n.store.chunkMap[h];
      && (n == m
           || (|n.log| == |m.log| + 1 && n.log[|m.log|].GrantLeaseRecord? && c.primary.Some?
               && c.primary.value in Healthy(c)))
      && (m.store.chunkMap[h].primary.Some? ==> c.primary.Some?)
  {
  }

  /** At any point of any run, a location reply lists each healthy replica and the
      primary exactly once and nobody else; if the request granted the lease, the
      primary is itself healthy. */
  lemma ReplyCoversHealthy(w: World, es: seq<Event>, e: Event)
    requires Fresh(w) && Legal(w, es) && CanStep(Exec(w, es), e) && e.op.Locate?
    ensures var m := Exec(w, es).master;
      var (m', r) := GetChunkLocations(m, e.op.path, e.op.index, e.op.create, Drawn(m, e), e.now);
      r.Located? ==>
        && r.at.handle in m'.store.chunkMap
        && Distinct(Contacts(r.at))
        && var c := m'.store.chunkMap[r.at.handle];
        && c.primary.Some?
        && (forall a :: a in Contacts(r.at) <==> a in Healthy(c) || a == c.primary.value)
        && (forall a :: a in Healthy(c) <==> a in c.replicas && a !in c.stale)
        && (|m'.log| > |m.log| && m'.log[|m'.log| - 1].GrantLeaseRecord? ==> r.at.primary in Healthy(c))
  {
    var m := Exec(w, es).master;
    ListsStayDistinct(w, es);
    StepDistinct(m, e);
    var m1, h := LocateSteps(m, e.op.path, e.op.index, e.op.create, Drawn(m, e), e.now);
    if h.Some? {
      RenewedPrimary(m1, h.value, e.now);
      ReplyLists(EnsureLease(m1, h.value, e.now).store, h.value);
    }
  }
}
