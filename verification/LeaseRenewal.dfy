/** What renewing a lease does to the replicas of a chunk. Any location request, also a
    reader's, renews an expired lease and raises the version; the replicas learn the new
    version only from writes. */
module LeaseRenewal {
  import opened Locations
  import opened Seqs
  import opened Wrappers
  import opened MasterState
  import opened MasterRuns
  import opened FanOut
  import opened Replication
  import CS = ChunkState
  import Cluster

  // ---- What one report decides ----

  predicate Mentions(reports: seq<Report>, h: Handle) {
    exists i :: 0 <= i < |reports| && reports[i].handle == h
  }

  /** The report names `h`, always with the version `v`. */
  predicate ReportsAs(reports: seq<Report>, h: Handle, v: int) {
    && Mentions(reports, h)
    && (forall i :: 0 <= i < |reports| && reports[i].handle == h ==> reports[i].version == v)
  }

  /** The server counts as a replica that is not stale. */
  predicate Counts(m: Master, h: Handle, a: Addr) {
    h in m.store.chunkMap && a in m.store.chunkMap[h].replicas && a !in m.store.chunkMap[h].stale
  }

  lemma MentionsMore(reports: seq<Report>, h: Handle)
    requires reports != []
    ensures var before, r := reports[..|reports| - 1], reports[|reports| - 1];
      Mentions(reports, h) <==> Mentions(before, h) || r.handle == h
  {
    var before := reports[..|reports| - 1];
    if Mentions(before, h) {
      var i :| 0 <= i < |before| && before[i].handle == h;
      assert reports[i].handle == h;
    }
    assert forall i :: 0 <= i < |before| ==> before[i] == reports[i];
  }

  lemma BeatOneDecides(m: Master, cs: Addr, r: Report, h: Handle, a: Addr)
    requires h in m.store.chunkMap && NoRepeats(m.store.chunkMap[h])
    ensures var n := BeatOne(m, cs, r); var current := r.version == VersionOf(m.store, h);
      && h in n.store.chunkMap && NoRepeats(n.store.chunkMap[h]) && n.store.chunkVersions == m.store.chunkVersions
      && (Counts(n, h, a) <==> if cs == a && r.handle == h then current else Counts(m, h, a))
      && (!(cs == a && r.handle == h) || current ==> (Repair(h, a) in n.repairs <==> Repair(h, a) in m.repairs))
  {
    RemoveFirstMembers(m.store.chunkMap[h].replicas, cs);
    RemoveFirstMembers(m.store.chunkMap[h].stale, cs);
    if r.handle == h { ReportedDistinct(m.store.chunkMap[h], cs, r.version == VersionOf(m.store, h)); }
  }

  /** A heartbeat from `cs` whose reports of the chunk are all of version `v`: it leaves
      `cs` a replica exactly when `v` is the master's version, or `cs` was one and does not
      report the chunk; it changes nothing for other servers, and if `v` is the master's
      version it queues no repair. */
  lemma {:induction false} BeatDecides(m: Master, cs: Addr, reports: seq<Report>, h: Handle, v: int, a: Addr)
    requires h in m.store.chunkMap && NoRepeats(m.store.chunkMap[h])
    requires forall i :: 0 <= i < |reports| && reports[i].handle == h ==> reports[i].version == v
    ensures var n := BeatAll(m, cs, reports); var current := v == VersionOf(m.store, h);
      && h in n.store.chunkMap && NoRepeats(n.store.chunkMap[h]) && n.store.chunkVersions == m.store.chunkVersions
      && (Counts(n, h, a) <==> if cs == a && ReportsAs(reports, h, v) then current else Counts(m, h, a))
      && (cs != a || current ==> (Repair(h, a) in n.repairs <==> Repair(h, a) in m.repairs))
    decreases |reports|
  {
    if reports != [] {
      var before, r := reports[..|reports| - 1], reports[|reports| - 1];
      BeatDecides(m, cs, before, h, v, a);
      BeatOneDecides(BeatAll(m, cs, before), cs, r, h, a);
      MentionsMore(reports, h);
    }
  }

  // ---- What a server remembers ----

  /** The version of `h` a message makes a server remember. */
  function Brings(s: CS.Server, m: Cluster.Msg, h: Handle): Option<int> {
    match m
    case PushMsg(_, w, _, _) => if w.handle == h then Some(w.version) else None
    case CommitMsg(_, w, _) => if w.handle == h && CS.KeyOf(w) in s.buffer then Some(w.version) else None
    case AppendMsg(_, k, data, v, _) => if k == h && CS.AppendLocal(s, k, data, v).1.Appended? then Some(v) else None
    case DeleteMsg(_, hs) => if h in hs then Some(0) else None
    case _ => None
  }

  ghost function Learns(c: Cluster.State, act: Cluster.Act, a: Addr, h: Handle): Option<int>
    requires Cluster.Can(c, act)
  {
    match act
    case Delivers(m) => if m.to == a then Brings(c.servers[a], m, h) else None
    case Restarts(server) => if server == a then Some(0) else None
    case _ => None
  }

  lemma BringsMeans(s: CS.Server, m: Cluster.Msg, h: Handle)
    ensures Cluster.VersionAt(Cluster.Handled(s, m), h) ==
      if Brings(s, m, h).Some? then Brings(s, m, h).value else Cluster.VersionAt(s, h)
  {
  }

  lemma LearnsMeans(c: Cluster.State, act: Cluster.Act, a: Addr, h: Handle)
    requires Cluster.Can(c, act) && a in c.servers
    ensures var d := Cluster.Do(c, act);
      && d.servers.Keys == c.servers.Keys
      && Cluster.VersionAt(d.servers[a], h) ==
           (if Learns(c, act, a, h).Some? then Learns(c, act, a, h).value else Cluster.VersionAt(c.servers[a], h))
  {
    if act.Delivers? && act.m.to == a { BringsMeans(c.servers[a], act.m, h); }
  }

  /** Something brought `a` the version `v` of `h`, and nothing brought another one since. */
  ghost predicate LastBrought(c: Cluster.State, acts: seq<Cluster.Act>, a: Addr, h: Handle, v: int)
    requires Cluster.Possible(c, acts)
    decreases |acts|
  {
    && acts != []
    && var learnt := Learns(Cluster.After(c, Init(acts)), Last(acts), a, h);
    if learnt.Some? then learnt.value == v else LastBrought(c, Init(acts), a, h, v)
  }

  lemma {:induction false} RemembersIff(c: Cluster.State, acts: seq<Cluster.Act>, a: Addr, h: Handle, v: int)
    requires Cluster.Possible(c, acts) && a in c.servers && Cluster.VersionAt(c.servers[a], h) != v
    ensures var d := Cluster.After(c, acts);
      a in d.servers && (Cluster.VersionAt(d.servers[a], h) == v <==> LastBrought(c, acts, a, h, v))
    decreases |acts|
  {
    if acts != [] {
      RemembersIff(c, Init(acts), a, h, v);
      LearnsMeans(Cluster.After(c, Init(acts)), Last(acts), a, h);
    }
  }

  lemma {:induction false} ListsDistinct(c: Cluster.State, acts: seq<Cluster.Act>)
    requires Cluster.Possible(c, acts) && AllDistinct(c.world.master.store)
    ensures AllDistinct(Cluster.After(c, acts).world.master.store)
    decreases |acts|
  {
    if acts != [] {
      ListsDistinct(c, Init(acts));
      var d := Cluster.After(c, Init(acts));
      if Last(acts).MasterActs? { StepDistinct(d.world.master, Last(acts).e); }
    }
  }

  /** A reachable cluster in which the master's next step `e` raises the version of `h`,
      and what happens then, without a further renewal. */
  ghost predicate Renewed(c0: Cluster.State, acts0: seq<Cluster.Act>, e: Event, acts: seq<Cluster.Act>, h: Handle) {
    && Cluster.Started(c0) && Cluster.Possible(c0, acts0)
    && var c := Cluster.After(c0, acts0);
    && Cluster.Can(c, Cluster.MasterActs(e))
    && var c1 := Cluster.Do(c, Cluster.MasterActs(e));
    && Cluster.Possible(c1, acts)
    && var s, s1, t := c.world.master.store, c1.world.master.store, Cluster.After(c1, acts).world.master.store;
    && h in s.chunkMap && h in t.chunkMap
    && VersionOf(s, h) < VersionOf(s1, h) == VersionOf(t, h)
  }

  lemma {:induction false} NobodyHasIt(c0: Cluster.State, acts0: seq<Cluster.Act>, e: Event, acts: seq<Cluster.Act>,
                                       h: Handle, a: Addr)
    requires Renewed(c0, acts0, e, acts, h) && a in Cluster.After(c0, acts0).servers
    ensures var c1 := Cluster.Do(Cluster.After(c0, acts0), Cluster.MasterActs(e));
      a in c1.servers && Cluster.VersionAt(c1.servers[a], h) < VersionOf(c1.world.master.store, h)
  {
    Cluster.NobodyIsAheadOfTheMaster(c0, acts0);
    var c := Cluster.After(c0, acts0);
    assert h in Listed(c.world.master.store);
    assert Cluster.Behind(c.world.master.store, h, Cluster.VersionAt(c.servers[a], h));
  }

  /** After a renewal, under any loss, repetition and reordering of messages and any
      restarts: a server that reports the chunk counts as a healthy replica after its report
      if and only if some push, commit or append that carries the new version has reached
      it, and nothing has overwritten that since. */
  lemma {:induction false} SurvivesReportIff(c0: Cluster.State, acts0: seq<Cluster.Act>, e: Event,
                                             acts: seq<Cluster.Act>, h: Handle, a: Addr, reports: seq<Report>,
                                             now: Time)
    requires Renewed(c0, acts0, e, acts, h) && a in Cluster.After(c0, acts0).servers
    ensures var c1 := Cluster.Do(Cluster.After(c0, acts0), Cluster.MasterActs(e)); var d := Cluster.After(c1, acts);
      && a in d.servers
      && (Cluster.IsReport(d.servers[a], reports) && Mentions(reports, h) ==>
           (Counts(Heartbeat(d.world.master, a, reports, now), h, a) <==>
               LastBrought(c1, acts, a, h, VersionOf(d.world.master.store, h))))
  {
    var c1 := Cluster.Do(Cluster.After(c0, acts0), Cluster.MasterActs(e));
    var d := Cluster.After(c1, acts);
    var m := d.world.master;
    NobodyHasIt(c0, acts0, e, acts, h, a);
    RemembersIff(c1, acts, a, h, VersionOf(m.store, h));
    ListsDistinct(c0, acts0);
    StepDistinct(Cluster.After(c0, acts0).world.master, e);
    ListsDistinct(c1, acts);
    if Cluster.IsReport(d.servers[a], reports) {
      BeatDecides(m.(lastSeen := m.lastSeen[a := now]), a, reports, h, Cluster.VersionAt(d.servers[a], h), a);
    }
  }

  // ---- Forgotten servers ----

  /** Stale, no replica, and nothing is queued to change that. */
  ghost predicate Forgotten(m: Master, h: Handle, a: Addr) {
    && h in m.store.chunkMap && NoRepeats(m.store.chunkMap[h])
    && a in m.store.chunkMap[h].stale && a !in m.store.chunkMap[h].replicas && Repair(h, a) !in m.repairs
  }

  predicate SomeCurrent(m: Master, reports: seq<Report>, h: Handle) {
    exists i :: 0 <= i < |reports| && reports[i] == Report(h, VersionOf(m.store, h))
  }

  /** The server reports the current version itself, or a re-replication happens to choose
      it as its target and succeeds. */
  predicate BringsBack(m: Master, e: Event, h: Handle, a: Addr) {
    match e.op
    case Beat(server, reports) => server == a && SomeCurrent(m, reports, h)
    case DoJob(job, target, ok) => job.handle == h && target == a && ok && JobPlan(m, h).Clone?
    case _ => false
  }

  lemma BeatOneForgets(m: Master, cs: Addr, r: Report, h: Handle, a: Addr)
    requires h in m.store.chunkMap && NoRepeats(m.store.chunkMap[h])
    ensures var n := BeatOne(m, cs, r);
      && h in n.store.chunkMap && NoRepeats(n.store.chunkMap[h]) && n.store.chunkVersions == m.store.chunkVersions
      && (Forgotten(m, h, a) ==> if cs == a && r == Report(h, VersionOf(m.store, h)) then Counts(n, h, a)
           else Forgotten(n, h, a))
      && (Counts(m, h, a) || Repair(h, a) in m.repairs ==> Counts(n, h, a) || Repair(h, a) in n.repairs)
  {
    BeatOneDecides(m, cs, r, h, a);
    RemoveFirstMembers(m.store.chunkMap[h].replicas, cs);
    RemoveFirstMembers(m.store.chunkMap[h].stale, cs);
  }

  lemma {:induction false} ReportsForget(m: Master, cs: Addr, reports: seq<Report>, h: Handle, a: Addr)
    requires Forgotten(m, h, a)
    ensures var n := BeatAll(m, cs, reports);
      && h in n.store.chunkMap && NoRepeats(n.store.chunkMap[h]) && n.store.chunkVersions == m.store.chunkVersions
      && if cs == a && SomeCurrent(m, reports, h) then Counts(n, h, a) || Repair(h, a) in n.repairs
           else Forgotten(n, h, a)
    decreases |reports|
  {
    if reports != [] {
      var before, r := reports[..|reports| - 1], reports[|reports| - 1];
      ReportsForget(m, cs, before, h, a);
      BeatOneForgets(BeatAll(m, cs, before), cs, r, h, a);
      assert forall i :: 0 <= i < |before| ==> before[i] == reports[i];
      if SomeCurrent(m, before, h) {
        var i :| 0 <= i < |before| && before[i] == Report(h, VersionOf(m.store, h));
        assert reports[i] == before[i];
      }
    }
  }

  lemma RepairForgets(m: Master, ok: bool, h: Handle, a: Addr)
    requires Forgotten(m, h, a) && m.repairs != []
    ensures Forgotten(RunRepair(m, ok), h, a)
  {
    var r := m.repairs[0];
    assert r in m.repairs && r != Repair(h, a);
    assert m.repairs == [r] + m.repairs[1..];
    if r.handle == h {
      RemoveFirstMembers(m.store.chunkMap[h].stale, r.server);
      if r.server !in m.store.chunkMap[h].replicas { AppendDistinct(m.store.chunkMap[h].replicas, r.server); }
    }
  }

  lemma JobForgets(m: Master, e: Event, h: Handle, a: Addr)
    requires Forgotten(m, h, a) && Enabled(m, e) && e.op.DoJob?
    ensures Forgotten(Apply(m, e), h, a) <==> !BringsBack(m, e, h, a)
  {
    if e.op.job.handle == h && JobPlan(m, h).Clone? && e.op.ok {
      AppendDistinct(m.store.chunkMap[h].replicas, e.op.target);
    }
  }

  lemma LocateForgets(m: Master, e: Event, h: Handle, a: Addr)
    requires Forgotten(m, h, a) && Enabled(m, e) && e.op.Locate? && h < m.store.nextHandle
    ensures Forgotten(Apply(m, e), h, a)
  {
    var m1, g := LocateApplied(m, e);
    assert Forgotten(m1, h, a);
  }

  /** One step takes a server out of that state exactly when it is one of the two. */
  lemma ForgottenIff(m: Master, e: Event, h: Handle, a: Addr)
    requires Enabled(m, e) && Forgotten(m, h, a) && h < m.store.nextHandle && h in Apply(m, e).store.chunkMap
    ensures Forgotten(Apply(m, e), h, a) <==> !BringsBack(m, e, h, a)
  {
    match e.op
    case Locate(_, _, _, _) => LocateForgets(m, e, h, a);
    case Beat(server, reports) => ReportsForget(m.(lastSeen := m.lastSeen[server := e.now]), server, reports, h, a);
    case Die(server) => RemoveFirstMembers(m.store.chunkMap[h].replicas, server);
    case DoJob(_, _, _) => JobForgets(m, e, h, a);
    case DoRepair(ok) => RepairForgets(m, ok, h, a);
    case _ =>
  }

  ghost predicate NeverBroughtBack(w: World, es: seq<Event>, h: Handle, a: Addr)
    requires Legal(w, es)
    decreases |es|
  {
    es == [] || (NeverBroughtBack(w, Init(es), h, a) && !BringsBack(Exec(w, Init(es)).master, Last(es), h, a))
  }

  lemma GoneForGood(m: Master, e: Event, h: Handle)
    requires Enabled(m, e) && h !in m.store.chunkMap && h < m.store.nextHandle
    ensures h !in Apply(m, e).store.chunkMap
  {
    if h in Apply(m, e).store.chunkMap {
      OnlyLocateAdds(m, e, h);
      var m1, g := LocateApplied(m, e);
    }
  }

  /** Over every run a forgotten server stays forgotten, for as long as the chunk exists,
      until it reports the current version or a re-replication picks it. */
  lemma {:induction false} StaysForgotten(w: World, es: seq<Event>, h: Handle, a: Addr)
    requires Legal(w, es) && Conserved(w.master.store) && Forgotten(w.master, h, a) && NeverBroughtBack(w, es, h, a)
    ensures var m := Exec(w, es).master;
      h < m.store.nextHandle && (h in m.store.chunkMap ==> Forgotten(m, h, a))
    decreases |es|
  {
    if es == [] {
      assert h in Listed(w.master.store);
    } else {
      var m := Exec(w, Init(es)).master;
      StaysForgotten(w, Init(es), h, a);
      HandlesConserved(w, Init(es));
      StepKeepsPending(m, Last(es));
      if h in m.store.chunkMap {
        if h in Apply(m, Last(es)).store.chunkMap { ForgottenIff(m, Last(es), h, a); }
      } else {
        GoneForGood(m, Last(es), h);
      }
    }
  }

  // ---- A read that loses a chunk ----

  /** A reader asks a minute after the lease was granted. */
  const READ := Event(61, Locate("/f", 0, false, []))

  /** What is left of the file, and of what the master knew, while the reports come in. */
  function Reread(a: Addr, b: Addr, c: Addr, replicas: seq<Addr>, stale: seq<Addr>, seen: map<Addr, Time>,
                  repairs: seq<Repair>): Master
  {
    var m := Placed(a, b, c);
    m.(store := m.store.(chunkMap := map[1 := ChunkMeta(1, replicas, stale, Some(a), 121)],
                         chunkVersions := map[1 := 2]),
       log := m.log + [GrantLeaseRecord(61, 1, 2)], lastSeen := seen, repairs := repairs)
  }

  lemma ReadRenews(a: Addr, b: Addr, c: Addr)
    ensures var m := Placed(a, b, c);
      Enabled(m, READ) && Apply(m, READ) == Reread(a, b, c, [a, b, c], [], m.lastSeen, [])
  {
    LeaseGranted(Placed(a, b, c), a, b, c, 61, 1, 61);
  }

  lemma OldReportFound(m: Master, cs: Addr)
    requires 1 in m.store.chunkMap && VersionOf(m.store, 1) == 2 && cs !in m.store.chunkMap[1].stale
    ensures var c := m.store.chunkMap[1];
      Heartbeat(m, cs, [Report(1, 1)], 61) == m.(
        store := m.store.(chunkMap := m.store.chunkMap[
          1 := c.(replicas := RemoveFirst(c.replicas, cs), stale := c.stale + [cs])]),
        lastSeen := m.lastSeen[cs := 61], repairs := m.repairs + [Repair(1, cs)])
  {
    var m0 := m.(lastSeen := m.lastSeen[cs := 61]);
    assert [Report(1, 1)][..0] == [];
    assert BeatAll(m0, cs, []) == m0;
  }

  /** A server whose copy is of version 1 reports. */
  lemma {:induction false} OldReport(w: World, es: seq<Event>, a: Addr, b: Addr, c: Addr, cs: Addr, rest: seq<Addr>,
                                     stale: seq<Addr>, seen: map<Addr, Time>,
                                     repairs: seq<Repair>) returns (es': seq<Event>)
    requires Legal(w, es) && Exec(w, es) == World(Reread(a, b, c, [cs] + rest, stale, seen, repairs), 61)
    requires cs !in stale
    ensures Legal(w, es') && PlacedOn(w, es', 1) == PlacedOn(w, es, 1) && es <= es'
    ensures Exec(w, es') == World(Reread(a, b, c, rest, stale + [cs], seen[cs := 61], repairs + [Repair(1, cs)]), 61)
  {
    var e := Event(61, Beat(cs, [Report(1, 1)]));
    OldReportFound(Exec(w, es).master, cs);
    assert ([cs] + rest)[1..] == rest;
    OneStepMore(w, es, e, 1);
    es' := es + [e];
  }

  /** The stale worker finds no healthy source. */
  lemma {:induction false} RepairDropped(w: World, es: seq<Event>) returns (es': seq<Event>)
    requires Legal(w, es)
    requires var m := Exec(w, es).master;
      m.repairs != [] && m.repairs[0].handle == 1 && 1 in m.store.chunkMap && m.store.chunkMap[1].replicas == []
    ensures Legal(w, es') && PlacedOn(w, es', 1) == PlacedOn(w, es, 1) && es <= es'
    ensures var v := Exec(w, es); Exec(w, es') == v.(master := v.master.(repairs := v.master.repairs[1..]))
  {
    var e := Event(Exec(w, es).clock, DoRepair(true));
    OneStepMore(w, es, e, 1);
    es' := es + [e];
  }

  /** All three report before the stale worker runs. */
  lemma {:induction false} AllReport(w: World, es: seq<Event>, a: Addr, b: Addr, c: Addr, seen: map<Addr, Time>)
    returns (es': seq<Event>)
    requires a != b && b != c && a != c && Legal(w, es)
    requires Exec(w, es) == World(Reread(a, b, c, [a, b, c], [], seen, []), 61)
    ensures Legal(w, es') && PlacedOn(w, es', 1) == PlacedOn(w, es, 1) && es <= es'
    ensures Exec(w, es') ==
      World(Reread(a, b, c, [], [a, b, c], seen[a := 61][b := 61][c := 61],
                   [Repair(1, a), Repair(1, b), Repair(1, c)]), 61)
  {
    assert [a] + [b, c] == [a, b, c] && [] + [a] == [a];
    es' := OldReport(w, es, a, b, c, a, [b, c], [], seen, []);
    assert [b] + [c] == [b, c] && [a] + [b] == [a, b]
      && [Repair(1, a)] + [Repair(1, b)] == [Repair(1, a), Repair(1, b)];
    es' := OldReport(w, es', a, b, c, b, [c], [a], seen[a := 61], [Repair(1, a)]);
    assert [c] + [] == [c] && [a, b] + [c] == [a, b, c];
    es' := OldReport(w, es', a, b, c, c, [], [a, b], seen[a := 61][b := 61], [Repair(1, a), Repair(1, b)]);
  }

  lemma {:induction false} AllDropped(w: World, es: seq<Event>, a: Addr, b: Addr, c: Addr) returns (es': seq<Event>)
    requires Legal(w, es)
    requires var m := Exec(w, es).master;
      m.repairs == [Repair(1, a), Repair(1, b), Repair(1, c)] && 1 in m.store.chunkMap
        && m.store.chunkMap[1].replicas == []
    ensures Legal(w, es') && PlacedOn(w, es', 1) == PlacedOn(w, es, 1) && es <= es'
    ensures var v := Exec(w, es); Exec(w, es') == v.(master := v.master.(repairs := []))
  {
    es' := RepairDropped(w, es);
    es' := RepairDropped(w, es');
    es' := RepairDropped(w, es');
  }

  lemma Reads(w: World, es: seq<Event>, a: Addr, b: Addr, c: Addr)
    requires Legal(w, es) && Exec(w, es) == World(Placed(a, b, c), 1)
    ensures Legal(w, es + [READ]) && PlacedOn(w, es + [READ], 1) == PlacedOn(w, es, 1)
    ensures Exec(w, es + [READ]) == World(Reread(a, b, c, [a, b, c], [], Placed(a, b, c).lastSeen, []), 61)
  {
    ReadRenews(a, b, c);
    OneStepMore(w, es, READ, 1);
  }

  lemma AllForgotten(m: Master, a: Addr, b: Addr, c: Addr, seen: map<Addr, Time>)
    requires a != b && b != c && a != c && m == Reread(a, b, c, [], [a, b, c], seen, [])
    ensures Forgotten(m, 1, a) && Forgotten(m, 1, b) && Forgotten(m, 1, c)
  {
  }

  /** From a new master: a chunk on three servers, a minute later one read, then three
      heartbeats that report the chunk as it was. That leaves it without any replica and
      with nothing queued, and all three servers, which are up and have it, forgotten. */
  lemma {:induction false} ReadLosesChunk(a: Addr, b: Addr, c: Addr) returns (before: seq<Event>, es: seq<Event>)
    requires a != b && b != c && a != c
    ensures var w := World(NEW_MASTER, 0);
      && Legal(w, before) && Exec(w, before).master == Placed(a, b, c)
      && before + [READ] <= es && Legal(w, es)
      && var m := Exec(w, es).master;
      && PlacedOn(w, es, 1) == 3
      && m.store.chunkMap.Keys == {1} && m.store.chunkMap[1].replicas == [] && m.jobs == multiset{} && m.repairs == []
      && {a, b, c} <= m.lastSeen.Keys
      && Forgotten(m, 1, a) && Forgotten(m, 1, b) && Forgotten(m, 1, c)
  {
    var w := World(NEW_MASTER, 0);
    before := ThreeServers(w, a, b, c);
    before := FilePlaced(w, before, a, b, c);
    Reads(w, before, a, b, c);
    var seen := Placed(a, b, c).lastSeen;
    es := AllReport(w, before + [READ], a, b, c, seen);
    es := AllDropped(w, es, a, b, c);
    AllForgotten(Exec(w, es).master, a, b, c, seen[a := 61][b := 61][c := 61]);
  }
}
