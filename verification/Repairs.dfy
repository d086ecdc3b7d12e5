/** Who is told to copy a chunk to whom: the orders the two repair workers give, over every
    run of a new master, and what becomes of the target. */
module Repairs {
  import opened Locations
  import opened Seqs
  import opened MasterState
  import opened MasterRuns
  import opened FanOut
  import opened Leases
  import opened LeaseRenewal
  import opened Locating
  import opened Replication
  import opened Versions
  import RecordAppend

  /** A server that is a replica and not stale. */
  predicate IsHealthy(c: ChunkMeta, a: Addr) {
    a in c.replicas && a !in c.stale
  }

  /** A stale repair is ordered exactly while some replica is healthy. The order goes to a
      healthy replica, to the primary if that is healthy and else to the first one, so never
      to a server that is stale itself; it carries the number of leases granted. */
  lemma {:induction false} RepairOrdered(w: World, es: seq<Event>, e: Event, x: Cluster.Msg)
    requires Fresh(w) && Legal(w, es) && CanStep(Exec(w, es), e) && e.op.DoRepair?
    ensures var m := Exec(w, es).master; var r := m.repairs[0];
      && (Cluster.MasterSends(m, e) != {} <==>
           && r.handle in m.store.chunkMap
           && SomeHealthy(m.store.chunkMap[r.handle].replicas, m.store.chunkMap[r.handle].stale))
      && (x in Cluster.MasterSends(m, e) ==>
           && x.CopyMsg? && x.handle == r.handle && x.target == r.server && x.handle in m.store.chunkMap
           && x.version == |Grants(m.log, x.handle)|
           && var c := m.store.chunkMap[x.handle];
           && IsHealthy(c, x.to) && (x.target in c.stale ==> x.to != x.target)
           && (if c.primary.Some? && IsHealthy(c, c.primary.value) then x.to == c.primary.value
                else FirstHealthy(c.replicas, c.stale, x.to)))
  {
    var m := Exec(w, es).master;
    var r := m.repairs[0];
    if r.handle in m.store.chunkMap {
      var c := m.store.chunkMap[r.handle];
      LogInOrder(w, es, r.handle);
      HealthyMeans(c);
      FilterMembers(c.replicas, c.stale);
    }
  }

  lemma TargetsExist(m: Master, h: Handle)
    requires h in m.store.chunkMap
    ensures Targets(m, h) != {} <==> exists a :: a in m.lastSeen && a !in m.store.chunkMap[h].replicas
  {
    if a :| a in m.lastSeen && a !in m.store.chunkMap[h].replicas { assert a in Targets(m, h); }
  }

  /** A re-replication is ordered exactly while the chunk exists with one or two replicas of
      which the first has a name, and some live server is none. The order goes to the first
      replica. */
  lemma {:induction false} JobOrdered(w: World, es: seq<Event>, e: Event, x: Cluster.Msg)
    requires Fresh(w) && Legal(w, es) && CanStep(Exec(w, es), e) && e.op.DoJob?
    ensures var m, h := Exec(w, es).master, e.op.job.handle;
      && (Cluster.MasterSends(m, e) != {} <==>
           && h in m.store.chunkMap && 0 < |m.store.chunkMap[h].replicas| < 3 && m.store.chunkMap[h].replicas[0] != ""
           && exists a :: a in m.lastSeen && a !in m.store.chunkMap[h].replicas)
      && (x in Cluster.MasterSends(m, e) ==>
           && x.CopyMsg? && x.handle == h && x.target == e.op.target && h in m.store.chunkMap
           && x.version == |Grants(m.log, h)|
           && m.store.chunkMap[h].replicas != [] && x.to == m.store.chunkMap[h].replicas[0]
           && x.target in m.lastSeen && x.target !in m.store.chunkMap[h].replicas)
  {
    var m, h := Exec(w, es).master, e.op.job.handle;
    if h in m.store.chunkMap {
      LogInOrder(w, es, h);
      TargetsExist(m, h);
    }
  }

  /** In a run of appends through one primary, which the master has as a healthy primary: a
      repair it orders of a stale server, if it succeeds, leaves that server with the
      primary's bytes and the number of leases granted as its version, and its next report
      makes it a healthy replica. */
  lemma {:induction false} RepairMakesCurrent(w: World, es: seq<Event>, e: Event, x: Cluster.Msg,
                                              g: RecordAppend.Setting, net: CS.Net, rs: seq<RecordAppend.Event>,
                                              push: CS.Outcome, commit: CS.Outcome, handles: seq<Handle>,
                                              versions: seq<int>, now: Time)
    requires Fresh(w) && Legal(w, es) && CanStep(Exec(w, es), e) && e.op.DoRepair?
    requires var m := Exec(w, es).master;
      && x in Cluster.MasterSends(m, e)
      && m.repairs[0].handle == g.handle && g.handle in m.store.chunkMap
      && m.repairs[0].server in m.store.chunkMap[g.handle].stale
      && m.store.chunkMap[g.handle].primary.Some? && m.store.chunkMap[g.handle].primary.value == g.primary
      && IsHealthy(m.store.chunkMap[g.handle], g.primary)
    requires g.primary in net && RecordAppend.AllowedAll(g, rs) && RecordAppend.Blank(net, g.handle)
    requires x.CopyMsg? && x.to in net && x.target in net
    requires var (n, ok) := CS.Clone(RecordAppend.Run(g, net, rs), x.to, x.target, x.handle, x.version, push, commit);
      ok && x.target in n && ReportLists(n[x.target], handles, versions)
    ensures var n := CS.Clone(RecordAppend.Run(g, net, rs), x.to, x.target, x.handle, x.version, push, commit).0;
      && RecordAppend.File(n, x.target, g.handle) == RecordAppend.File(n, g.primary, g.handle)
      && Cluster.VersionAt(n[x.target], g.handle) == |Grants(Exec(w, es).master.log, g.handle)|
      && Counts(Heartbeat(Exec(w, es).master, x.target, Zip(handles, versions), now), g.handle, x.target)
  {
    RepairOrdered(w, es, e, x);
    assert x.to == g.primary && x.target != g.primary;
    RecordAppend.CloneCatchesUp(g, net, rs, x.target, x.version, push, commit);
    CloneLeaves(RecordAppend.Run(g, net, rs), x.to, x.target, x.handle, x.version, push, commit);
    CloneStaysHealthy(w, es, RecordAppend.Run(g, net, rs), x.to, x.target, x.handle, x.version, push, commit, handles,
        versions, now);
  }

  // ---- The order of the replica list ----

  /** Those that stay keep their order, and newcomers stand behind them. */
  ghost predicate InOrderOfArrival(before: seq<Addr>, after: seq<Addr>) {
    exists k :: 0 <= k <= |after| && SameOrder(after[..k], before) &&
      (forall a :: a in after[..k] ==> a in before) && (forall a :: a in after[k..] ==> a !in before)
  }

  lemma SameList(s: seq<Addr>)
    requires Distinct(s)
    ensures InOrderOfArrival(s, s)
  {
    assert s[..|s|] == s && s[|s|..] == [];
    assert SameOrder(s[..|s|], s);
  }

  lemma OneBehind(s: seq<Addr>, a: Addr)
    requires Distinct(s) && a !in s
    ensures InOrderOfArrival(s, s + [a])
  {
    assert (s + [a])[..|s|] == s && (s + [a])[|s|..] == [a];
    assert SameOrder((s + [a])[..|s|], s);
  }

  lemma TailInOrder(s: seq<Addr>)
    requires s != [] && Distinct(s)
    ensures SameOrder(s[1..], s)
  {
    DistinctTail(s);
    assert SameOrder(s[1..], s[1..]);
    BehindFirst(s[1..], s);
  }

  lemma {:induction false} RemoveFirstOrder(s: seq<Addr>, a: Addr)
    requires Distinct(s)
    ensures SameOrder(RemoveFirst(s, a), s)
    decreases |s|
  {
    if s != [] {
      DistinctTail(s);
      RemoveFirstOrder(s[1..], a);
      RemoveFirstMembers(s[1..], a);
      BehindFirst(RemoveFirst(s[1..], a), s);
      TailInOrder(s);
    }
  }

  lemma {:induction false} OneOut(s: seq<Addr>, a: Addr)
    requires Distinct(s)
    ensures InOrderOfArrival(s, RemoveFirst(s, a))
    decreases |s|
  {
    var r := RemoveFirst(s, a);
    RemoveFirstMembers(s, a);
    RemoveFirstOrder(s, a);
    assert r[..|r|] == r && r[|r|..] == [];
  }

  /** One report moves its sender only, and to the end of the replica list. */
  lemma ReportKeepsOrder(m: Master, cs: Addr, r: Report, h: Handle)
    requires h in m.store.chunkMap && NoRepeats(m.store.chunkMap[h])
    ensures h in BeatOne(m, cs, r).store.chunkMap
    ensures InOrderOfArrival(m.store.chunkMap[h].replicas, BeatOne(m, cs, r).store.chunkMap[h].replicas)
  {
    var s := m.store.chunkMap[h].replicas;
    SameList(s);
    OneOut(s, cs);
    if cs !in s { OneBehind(s, cs); }
  }

  lemma LocateKeepsList(m: Master, e: Event, h: Handle)
    requires Enabled(m, e) && e.op.Locate? && h in m.store.chunkMap && h < m.store.nextHandle
    ensures h in Apply(m, e).store.chunkMap && Apply(m, e).store.chunkMap[h].replicas == m.store.chunkMap[h].replicas
  {
    var m1, g := LocateApplied(m, e);
  }

  lemma JobExtendsList(m: Master, e: Event, h: Handle)
    requires Enabled(m, e) && e.op.DoJob? && h in m.store.chunkMap
    ensures h in Apply(m, e).store.chunkMap
    ensures var s, t := m.store.chunkMap[h].replicas, Apply(m, e).store.chunkMap[h].replicas;
      t == s || (e.op.target !in s && t == s + [e.op.target])
  {
  }

  lemma RepairExtendsList(m: Master, e: Event, h: Handle)
    requires Enabled(m, e) && e.op.DoRepair? && h in m.store.chunkMap
    ensures h in Apply(m, e).store.chunkMap
    ensures var s, t := m.store.chunkMap[h].replicas, Apply(m, e).store.chunkMap[h].replicas;
      t == s || (m.repairs[0].server !in s && t == s + [m.repairs[0].server])
  {
  }

  /** No other step of any run changes the order either: replicas leave, or new ones come
      behind. So the first replica, from which copies are made and which is granted the
      lease while healthy, stays the first until it leaves. */
  lemma {:induction false} StepKeepsOrder(w: World, es: seq<Event>, e: Event, h: Handle)
    requires Fresh(w) && Legal(w, es) && CanStep(Exec(w, es), e) && !e.op.Beat?
    requires h in Exec(w, es).master.store.chunkMap && h in Apply(Exec(w, es).master, e).store.chunkMap
    ensures InOrderOfArrival(Exec(w, es).master.store.chunkMap[h].replicas,
        Apply(Exec(w, es).master, e).store.chunkMap[h].replicas)
  {
    var m := Exec(w, es).master;
    var s := m.store.chunkMap[h].replicas;
    FreshConserved(w);
    HandlesConserved(w, es);
    ListsStayDistinct(w, es);
    assert h in Listed(m.store);
    SameList(s);
    match e.op
    case Locate(_, _, _, _) => LocateKeepsList(m, e, h);
    case Die(server) => OneOut(s, server);
    case DoJob(_, target, _) =>
      JobExtendsList(m, e, h);
      if target !in s { OneBehind(s, target); }
    case DoRepair(_) =>
      RepairExtendsList(m, e, h);
      if m.repairs[0].server !in s { OneBehind(s, m.repairs[0].server); }
    case _ =>
  }

  // ---- Whose turn it is ----

  /** A step that does not finish the work on `h`. */
  ghost predicate Leaves(m: Master, e: Event, h: Handle) {
    Enabled(m, e) && !(e.op.DoJob? && e.op.job.handle == h && GoodPass(m, e))
  }

  lemma StepLeaves(m: Master, e: Event, h: Handle, k: Handle)
    requires Leaves(m, e, h) && HighOnly(m) && Job(0, h) in m.jobs && h < k
    ensures var n := Apply(m, e); Job(0, h) in n.jobs && n.jobs[Job(0, k)] >= m.jobs[Job(0, k)]
  {
    match e.op
    case Beat(server, reports) => BeatAllKeepsJobs(m.(lastSeen := m.lastSeen[server := e.now]), server, reports);
    case Locate(_, _, _, _) => var m1, g := LocateApplied(m, e);
    case DoJob(job, _, _) => assert job.handle <= h;
    case _ =>
  }

  ghost predicate NeverFinished(w: World, es: seq<Event>, h: Handle)
    requires Legal(w, es)
    decreases |es|
  {
    es == [] || (NeverFinished(w, Init(es), h) && Leaves(Exec(w, Init(es)).master, Last(es), h))
  }

  /** The queue hands out the least handle first and a failed request goes back into it: as
      long as one chunk cannot be copied, no request for a chunk with a greater handle is
      taken, however the run goes on. */
  lemma {:induction false} LeastHandleBlocks(w: World, es: seq<Event>, h: Handle, k: Handle)
    requires Legal(w, es) && HighOnly(w.master) && NeverFinished(w, es, h) && Job(0, h) in w.master.jobs && h < k
    ensures var n := Exec(w, es).master;
      HighOnly(n) && Job(0, h) in n.jobs && n.jobs[Job(0, k)] >= w.master.jobs[Job(0, k)]
    decreases |es|
  {
    if es != [] {
      LeastHandleBlocks(w, Init(es), h, k);
      StepPrioritiesHigh(Exec(w, Init(es)).master, Last(es));
      StepLeaves(Exec(w, Init(es)).master, Last(es), h, k);
    }
  }

  lemma {:induction false} BeatAllAppends(m: Master, cs: Addr, reports: seq<Report>)
    ensures m.repairs <= BeatAll(m, cs, reports).repairs
    decreases |reports|
  {
    if reports != [] { BeatAllAppends(m, cs, reports[..|reports| - 1]); }
  }

  /** The repair stands at this place of the queue. */
  predicate StandsAt(repairs: seq<Repair>, j: int, r: Repair) {
    0 <= j < |repairs| && repairs[j] == r
  }

  lemma StepRotates(m: Master, e: Event, j: nat, r: Repair)
    requires Enabled(m, e) && StandsAt(m.repairs, j, r) && (e.op.DoRepair? ==> j > 0)
    ensures StandsAt(Apply(m, e).repairs, if e.op.DoRepair? then j - 1 else j, r)
  {
    match e.op
    case Beat(server, reports) => BeatAllAppends(m.(lastSeen := m.lastSeen[server := e.now]), server, reports);
    case Locate(_, _, _, _) => var m1, g := LocateApplied(m, e);
    case DoRepair(_) => assert m.repairs[1..][j - 1] == m.repairs[j];
    case _ =>
  }

  /** How many repairs were taken up. */
  function TakenUp(es: seq<Event>): nat
    decreases |es|
  {
    if es == [] then 0 else TakenUp(Init(es)) + if Last(es).op.DoRepair? then 1 else 0
  }

  /** Stale repairs take turns: a failed one goes behind all others, so the one with `k`
      before it is next after `k` passes, whether these succeed or fail. */
  lemma {:induction false} RepairsTakeTurns(w: World, es: seq<Event>, k: nat)
    requires Legal(w, es) && k < |w.master.repairs| && TakenUp(es) <= k
    ensures StandsAt(Exec(w, es).master.repairs, k - TakenUp(es), w.master.repairs[k])
    decreases |es|
  {
    if es != [] {
      RepairsTakeTurns(w, Init(es), k);
      StepRotates(Exec(w, Init(es)).master, Last(es), k - TakenUp(Init(es)), w.master.repairs[k]);
    }
  }
}
