/** Repair work is never forgotten: how many servers hold, or are queued to hold, each
    chunk, over all runs, and exactly which steps lose one. */
module Replication {
  import opened Locations
  import opened Seqs
  import opened Wrappers
  import opened MasterState
  import opened MasterRuns
  import opened FanOut

  function Members(s: seq<Addr>): set<Addr> {
    set a | a in s
  }

  function Queued(repairs: seq<Repair>, h: Handle): set<Addr> {
    set r | r in repairs && r.handle == h :: r.server
  }

  /** The servers that hold `h`, or are queued to get it back. */
  function Holders(m: Master, h: Handle): set<Addr>
    requires h in m.store.chunkMap
  {
    Members(m.store.chunkMap[h].replicas) + Queued(m.repairs, h)
  }

  /** Pending re-replication requests for `h`; the code knows two priorities. */
  function JobCount(jobs: multiset<Job>, h: Handle): nat {
    jobs[Job(0, h)] + jobs[Job(1, h)]
  }

  /** The copies of `h` there are or will be once the queues are worked off. */
  function Cover(m: Master, h: Handle): nat
    requires h in m.store.chunkMap
  {
    |Holders(m, h)| + JobCount(m.jobs, h)
  }

  /** The servers outside the replica list with a repair pending. */
  function Awaiting(m: Master, h: Handle): set<Addr>
    requires h in m.store.chunkMap
  {
    Queued(m.repairs, h) - Members(m.store.chunkMap[h].replicas)
  }

  /** A chunk's lists are free of repetition and of each other, and every stale server
      has a repair pending. */
  ghost predicate Tracked(m: Master, h: Handle) {
    h in m.store.chunkMap ==>
      var c := m.store.chunkMap[h];
      && NoRepeats(c)
      && (forall a :: a in c.stale ==> a !in c.replicas && Repair(h, a) in m.repairs)
  }

  /** Every request in the queue came from a failure. */
  ghost predicate HighOnly(m: Master) {
    forall j :: j in m.jobs ==> j.priority == 0
  }

  // ---- Sizes ----

  lemma {:induction false} MembersSize(s: seq<Addr>)
    ensures |Members(s)| <= |s|
    ensures Distinct(s) ==> |Members(s)| == |s|
    decreases |s|
  {
    if s != [] {
      assert s == [s[0]] + s[1..];
      assert Members(s) == {s[0]} + Members(s[1..]);
      MembersSize(s[1..]);
      if Distinct(s) {
        assert Distinct(s[1..]);
        assert s[0] !in Members(s[1..]) by {
          forall i | 1 <= i < |s| ensures s[i] != s[0] { }
        }
      }
    }
  }

  lemma SubsetSize<T>(a: set<T>, b: set<T>)
    requires a <= b
    ensures |a| <= |b|
  {
    assert b == a + (b - a);
  }

  /** The missing copies are covered exactly when the total is large enough. */
  lemma CoverMeaning(m: Master, h: Handle, want: int)
    requires h in m.store.chunkMap && Distinct(m.store.chunkMap[h].replicas)
    ensures Cover(m, h) >= want <==>
      want - |m.store.chunkMap[h].replicas| <= JobCount(m.jobs, h) + |Awaiting(m, h)|
  {
    var held := Members(m.store.chunkMap[h].replicas);
    MembersSize(m.store.chunkMap[h].replicas);
    assert Holders(m, h) == held + Awaiting(m, h);
    assert held !! Awaiting(m, h);
  }

  // ---- Lapses ----

  /** The steps that drop a copy of `h` from the plan: a clone whose target is already
      queued to be repaired, a re-replication that gives up for want of a source or a
      target, and a stale repair that gives up for want of a healthy source. */
  ghost predicate Lapse(m: Master, e: Event, h: Handle)
    requires Enabled(m, e)
  {
    match e.op
    case DoJob(job, target, ok) =>
      && job.handle == h
      && (match JobPlan(m, h)
          case NothingToDo => false
          case Clone(_) => ok && Repair(h, target) in m.repairs
          case _ => true)
    case DoRepair(_) =>
      && m.repairs[0].handle == h
      && RepairPlan(m, m.repairs[0]).NoSource?
      && m.repairs[0] !in m.repairs[1..]
    case _ => false
  }

  // ---- Each kind of step ----

  lemma QueuedAppend(repairs: seq<Repair>, r: Repair, h: Handle)
    ensures Queued(repairs + [r], h) == Queued(repairs, h) + if r.handle == h then {r.server} else {}
  {
  }

  lemma QueuedSplit(repairs: seq<Repair>, h: Handle)
    requires repairs != []
    ensures Queued(repairs, h) == Queued(repairs[1..], h) + if repairs[0].handle == h then {repairs[0].server} else {}
  {
    assert repairs == [repairs[0]] + repairs[1..];
  }

  /** `h` lost no holder and no pending job between `m` and `n`. */
  ghost predicate Keeps(m: Master, n: Master, h: Handle) {
    && Tracked(n, h)
    && (h in n.store.chunkMap ==> h in m.store.chunkMap && Holders(m, h) <= Holders(n, h))
    && JobCount(m.jobs, h) <= JobCount(n.jobs, h)
  }

  lemma BeatOneKeeps(m: Master, cs: Addr, r: Report, h: Handle)
    requires Tracked(m, h)
    ensures Keeps(m, BeatOne(m, cs, r), h)
  {
    QueuedAppend(m.repairs, Repair(r.handle, cs), h);
    if r.handle == h && h in m.store.chunkMap {
      var c := m.store.chunkMap[h];
      RemoveFirstMembers(c.replicas, cs);
      RemoveFirstMembers(c.stale, cs);
      ReportedDistinct(c, cs, r.version == VersionOf(m.store, h));
    }
  }

  lemma {:induction false} BeatAllKeeps(m: Master, cs: Addr, reports: seq<Report>, h: Handle)
    requires Tracked(m, h)
    ensures Keeps(m, BeatAll(m, cs, reports), h)
    ensures BeatAll(m, cs, reports).jobs == m.jobs
    decreases |reports|
  {
    if reports != [] {
      BeatAllKeeps(m, cs, reports[..|reports| - 1], h);
      BeatOneKeeps(BeatAll(m, cs, reports[..|reports| - 1]), cs, reports[|reports| - 1], h);
    }
  }

  lemma NewJobs(jobs: multiset<Job>, hs: set<Handle>, h: Handle)
    ensures JobCount(jobs + multiset(JobsFor(hs)), h) == JobCount(jobs, h) + if h in hs then 1 else 0
  {
    assert Job(0, h) in JobsFor(hs) <==> h in hs;
    assert Job(1, h) !in JobsFor(hs);
  }

  /** A failed server costs one holder at most, and then either a job makes up for it or
      enough replicas are left. */
  lemma ServerFailedCovers(m: Master, cs: Addr, h: Handle)
    requires h in m.store.chunkMap && Tracked(m, h)
    ensures var n := ServerFailed(m, cs);
      Tracked(n, h) && (Cover(n, h) >= Cover(m, h) || |n.store.chunkMap[h].replicas| >= REPLICATION_FACTOR)
  {
    var n, c := ServerFailed(m, cs), m.store.chunkMap[h];
    RemoveFirstMembers(c.replicas, cs);
    NewJobs(m.jobs, UnderReplicated(n.store.chunkMap), h);
    assert Holders(m, h) - {cs} <= Holders(n, h);
    SubsetSize(Holders(m, h) - {cs}, Holders(n, h));
  }

  lemma JobTaken(jobs: multiset<Job>, job: Job, h: Handle)
    requires job in jobs && job.priority == 0
    ensures JobCount(jobs - multiset{job}, h) == JobCount(jobs, h) - if job.handle == h then 1 else 0
  {
  }

  lemma SameCover(m: Master, n: Master, h: Handle)
    requires h in m.store.chunkMap && h in n.store.chunkMap
    requires m.store.chunkMap[h] == n.store.chunkMap[h] && m.repairs == n.repairs
    requires Tracked(m, h)
    ensures Tracked(n, h) && Holders(n, h) == Holders(m, h)
  {
  }

  lemma CloneCovers(m: Master, n: Master, h: Handle, target: Addr)
    requires h in m.store.chunkMap && n == AddReplica(m, h, target)
    requires Tracked(m, h) && target !in m.store.chunkMap[h].replicas
    ensures Holders(n, h) == Holders(m, h) + {target}
    ensures Repair(h, target) !in m.repairs ==> Tracked(n, h) && target !in Holders(m, h)
    ensures Repair(h, target) in m.repairs ==> target in Holders(m, h)
  {
    var c := m.store.chunkMap[h];
    assert Members(c.replicas + [target]) == Members(c.replicas) + {target};
    AppendDistinct(c.replicas, target);
    if target in Queued(m.repairs, h) {
      var r :| r in m.repairs && r.handle == h && r.server == target;
      assert r == Repair(h, target);
    }
    if Repair(h, target) in m.repairs { assert target in Queued(m.repairs, h); }
  }

  lemma JobElsewhere(m: Master, job: Job, target: Addr, ok: bool, h: Handle)
    requires job in m.jobs && job.priority == 0 && job.handle != h && h in m.store.chunkMap && Tracked(m, h)
    ensures var n := RunJob(m, job, target, ok);
      h in n.store.chunkMap && Tracked(n, h) && Holders(n, h) == Holders(m, h)
        && JobCount(n.jobs, h) == JobCount(m.jobs, h)
  {
    JobTaken(m.jobs, job, h);
    SameCover(m, RunJob(m, job, target, ok), h);
  }

  /** A clone for `h` that succeeded. */
  lemma JobClones(m: Master, job: Job, target: Addr)
    requires job in m.jobs && job.priority == 0 && job.handle in m.store.chunkMap && Tracked(m, job.handle)
    requires JobPlan(m, job.handle).Clone? && target in Targets(m, job.handle)
    ensures var n, h := RunJob(m, job, target, true), job.handle;
      if Repair(h, target) in m.repairs then Cover(n, h) == Cover(m, h) - 1
        else Tracked(n, h) && Cover(n, h) == Cover(m, h)
  {
    var h, m1 := job.handle, m.(jobs := m.jobs - multiset{job});
    JobTaken(m.jobs, job, h);
    SameCover(m, m1, h);
    CloneCovers(m1, AddReplica(m1, h, target), h, target);
    if Repair(h, target) in m.repairs { assert Holders(m1, h) + {target} == Holders(m1, h); }
  }

  /** A job for `h` that makes no clone. */
  lemma JobSkips(m: Master, job: Job, target: Addr, ok: bool)
    requires job in m.jobs && job.priority == 0 && job.handle in m.store.chunkMap && Tracked(m, job.handle)
    requires !JobPlan(m, job.handle).Clone?
    ensures var n, h := RunJob(m, job, target, ok), job.handle;
      Tracked(n, h) && n.store == m.store && Cover(n, h) == Cover(m, h) - 1
  {
    JobTaken(m.jobs, job, job.handle);
    SameCover(m, m.(jobs := m.jobs - multiset{job}), job.handle);
  }

  /** A job either finds enough replicas, is retried, brings a new holder, or lapses. */
  lemma RunJobCovers(m: Master, e: Event, h: Handle)
    requires Enabled(m, e) && e.op.DoJob? && h in m.store.chunkMap && Tracked(m, h)
    requires e.op.job.priority == 0
    ensures var n := Apply(m, e);
      && h in n.store.chunkMap
      && if Lapse(m, e, h) then Cover(n, h) == Cover(m, h) - 1
         else Tracked(n, h) && (Cover(n, h) >= Cover(m, h) || |n.store.chunkMap[h].replicas| >= REPLICATION_FACTOR)
  {
    var job, target, ok := e.op.job, e.op.target, e.op.ok;
    if job.handle != h {
      JobElsewhere(m, job, target, ok, h);
    } else if !JobPlan(m, h).Clone? {
      JobSkips(m, job, target, ok);
    } else if ok {
      JobClones(m, job, target);
    }
  }

  lemma RepairGivesUp(m: Master, h: Handle)
    requires h in m.store.chunkMap && Tracked(m, h) && m.repairs != []
    requires m.repairs[0].handle == h && Healthy(m.store.chunkMap[h]) == []
    ensures var n := m.(repairs := m.repairs[1..]);
      if m.repairs[0] in m.repairs[1..] then Tracked(n, h) && Holders(n, h) == Holders(m, h)
      else m.repairs[0].server in Holders(m, h) && Holders(n, h) == Holders(m, h) - {m.repairs[0].server}
  {
    var r, c, rest := m.repairs[0], m.store.chunkMap[h], m.repairs[1..];
    QueuedSplit(m.repairs, h);
    assert m.repairs == [r] + rest;
    FilterMembers(c.replicas, c.stale);
    assert Members(c.replicas) == {} by {
      forall a ensures a !in c.replicas { assert a !in Healthy(c); }
    }
    if r.server in Queued(rest, h) {
      var q :| q in rest && q.handle == h && q.server == r.server;
      assert q == r;
    }
    if r in rest { assert r.server in Queued(rest, h); }
  }

  lemma RepairPutsBack(m: Master, h: Handle)
    requires h in m.store.chunkMap && Tracked(m, h) && m.repairs != []
    requires m.repairs[0].handle == h
    ensures var n := m.(repairs := m.repairs[1..],
                        store := m.store.(chunkMap := m.store.chunkMap[
                          h := Repaired(m.store.chunkMap[h], m.repairs[0].server)]));
      Tracked(n, h) && Holders(n, h) == Holders(m, h)
  {
    var r, c, rest := m.repairs[0], m.store.chunkMap[h], m.repairs[1..];
    QueuedSplit(m.repairs, h);
    assert m.repairs == [r] + rest;
    RemoveFirstMembers(c.stale, r.server);
    assert Members(c.replicas + [r.server]) == Members(c.replicas) + {r.server};
    if r.server !in c.replicas { AppendDistinct(c.replicas, r.server); }
  }

  lemma Requeued(m: Master, h: Handle)
    requires h in m.store.chunkMap && Tracked(m, h) && m.repairs != []
    ensures var n := m.(repairs := m.repairs[1..] + [m.repairs[0]]);
      Tracked(n, h) && Holders(n, h) == Holders(m, h)
  {
    QueuedSplit(m.repairs, h);
    QueuedAppend(m.repairs[1..], m.repairs[0], h);
    assert m.repairs == [m.repairs[0]] + m.repairs[1..];
  }

  lemma RepairElsewhere(m: Master, h: Handle)
    requires h in m.store.chunkMap && Tracked(m, h) && m.repairs != []
    requires m.repairs[0].handle != h
    ensures var n := m.(repairs := m.repairs[1..]);
      Tracked(n, h) && Holders(n, h) == Holders(m, h)
  {
    QueuedSplit(m.repairs, h);
    assert m.repairs == [m.repairs[0]] + m.repairs[1..];
  }

  /** A stale repair either is retried, puts its server back, or lapses. */
  lemma RunRepairCovers(m: Master, e: Event, h: Handle)
    requires Enabled(m, e) && e.op.DoRepair? && h in m.store.chunkMap && Tracked(m, h)
    ensures var n := Apply(m, e);
      && h in n.store.chunkMap
      && if Lapse(m, e, h) then Cover(n, h) == Cover(m, h) - 1
         else Tracked(n, h) && Holders(n, h) == Holders(m, h) && n.jobs == m.jobs
  {
    var n, r := Apply(m, e), m.repairs[0];
    var m1 := m.(repairs := m.repairs[1..]);
    Requeued(m, h);
    if r.handle == h {
      if RepairPlan(m, r).NoSource? { RepairGivesUp(m, h); } else { RepairPutsBack(m, h); }
    } else {
      RepairElsewhere(m, h);
      if n != m.(repairs := m.repairs[1..] + [r]) { SameCover(m1, n, h); }
    }
  }

  // ---- Coverage over steps and runs ----

  lemma {:induction false} BeatAllKeepsJobs(m: Master, cs: Addr, reports: seq<Report>)
    ensures BeatAll(m, cs, reports).jobs == m.jobs
    decreases |reports|
  {
    if reports != [] { BeatAllKeepsJobs(m, cs, reports[..|reports| - 1]); }
  }

  lemma StepPrioritiesHigh(m: Master, e: Event)
    requires Enabled(m, e) && HighOnly(m)
    ensures HighOnly(Apply(m, e))
  {
    match e.op
    case Beat(server, reports) =>
      BeatAllKeepsJobs(m.(lastSeen := m.lastSeen[server := e.now]), server, reports);
    case Locate(path, index, create, _) =>
      var m1, h := LocateSteps(m, path, index, create, Drawn(m, e), e.now);
    case _ =>
  }

  lemma ScanKeeps(m: Master, now: Time, h: Handle)
    requires Tracked(m, h)
    ensures Keeps(m, Scan(m, now), h)
  {
  }

  lemma LeaseKeeps(m: Master, g: Handle, now: Time, h: Handle)
    requires Tracked(m, h) && g in m.store.chunkMap
    ensures Keeps(m, EnsureLease(m, g, now), h)
  {
  }

  lemma AllocateKeeps(m: Master, path: Path, chosen: seq<Addr>, now: Time, h: Handle)
    requires Conserved(m.store) && chosen != [] && h in m.store.chunkMap && Tracked(m, h)
    ensures Keeps(m, Allocate(m, path, chosen, now), h)
    ensures h in Allocate(m, path, chosen, now).store.chunkMap
  {
    assert h in Listed(m.store);
    SameCover(m, Allocate(m, path, chosen, now), h);
  }

  lemma AllocateCovers(m: Master, path: Path, chosen: seq<Addr>, now: Time)
    requires chosen != [] && Distinct(chosen)
    ensures var n, h := Allocate(m, path, chosen, now), m.store.nextHandle;
      Tracked(n, h) && |chosen| <= |Holders(n, h)|
  {
    MembersSize(chosen);
    SubsetSize(Members(chosen), Holders(Allocate(m, path, chosen, now), m.store.nextHandle));
  }

  lemma KeepsOn(m: Master, m1: Master, n: Master, h: Handle)
    requires Keeps(m, m1, h) && Keeps(m1, n, h)
    ensures Keeps(m, n, h)
  {
  }

  /** What a location request does before the lease is renewed. */
  lemma PlaceCovers(m: Master, e: Event, m1: Master, h: Handle)
    requires Enabled(m, e) && e.op.Locate? && Conserved(m.store) && h in m1.store.chunkMap
    requires h in m.store.chunkMap ==> Tracked(m, h)
    requires m1 == if Allocates(m, e.op.path, e.op.index, e.op.create) then Allocate(m, e.op.path, Drawn(m, e), e.now)
      else m
    ensures Tracked(m1, h)
    ensures if h in m.store.chunkMap then Keeps(m, m1, h)
      else |Drawn(m, e)| <= |Holders(m1, h)| && |Drawn(m, e)| <= REPLICATION_FACTOR
  {
    if h !in m.store.chunkMap {
      AllocateCovers(m, e.op.path, Drawn(m, e), e.now);
    } else if m1 != m {
      AllocateKeeps(m, e.op.path, Drawn(m, e), e.now, h);
    }
  }

  lemma RenewalCovers(m: Master, e: Event, m1: Master, g: Option<Handle>, n: Master, h: Handle)
    requires Enabled(m, e) && e.op.Locate? && Conserved(m.store) && h in m1.store.chunkMap
    requires h in m.store.chunkMap ==> Tracked(m, h)
    requires m1 == if Allocates(m, e.op.path, e.op.index, e.op.create) then Allocate(m, e.op.path, Drawn(m, e), e.now)
      else m
    requires g.Some? ==> g.value in m1.store.chunkMap
    requires n == if g.Some? then EnsureLease(m1, g.value, e.now) else m1
    ensures Tracked(n, h) && h in n.store.chunkMap
    ensures if h in m.store.chunkMap then Keeps(m, n, h)
      else |Drawn(m, e)| <= |Holders(n, h)| && |Drawn(m, e)| <= REPLICATION_FACTOR
  {
    PlaceCovers(m, e, m1, h);
    if g.Some? {
      LeaseKeeps(m1, g.value, e.now, h);
      if h in m.store.chunkMap { KeepsOn(m, m1, n, h); } else { SubsetSize(Holders(m1, h), Holders(n, h)); }
    }
  }

  /** A location request keeps every chunk and covers a new one by its sample. */
  lemma LocateCovers(m: Master, e: Event, h: Handle)
    requires Enabled(m, e) && e.op.Locate? && Conserved(m.store)
    requires h in m.store.chunkMap ==> Tracked(m, h)
    requires h in Apply(m, e).store.chunkMap
    ensures var n := Apply(m, e);
      if h in m.store.chunkMap then Keeps(m, n, h)
      else Tracked(n, h) && |Drawn(m, e)| <= Cover(n, h) && |Drawn(m, e)| <= REPLICATION_FACTOR
  {
    var m1, g := LocateApplied(m, e);
    RenewalCovers(m, e, m1, g, Apply(m, e), h);
  }

  /** One step keeps a chunk tracked and covered, or it is a lapse and costs exactly one. */
  lemma StepCovers(m: Master, e: Event, h: Handle)
    requires Enabled(m, e) && Conserved(m.store) && HighOnly(m) && Tracked(m, h) && h in m.store.chunkMap
    ensures var n := Apply(m, e);
      h in n.store.chunkMap ==>
        if Lapse(m, e, h) then Cover(n, h) == Cover(m, h) - 1
        else Tracked(n, h) && (Cover(n, h) >= Cover(m, h) || |n.store.chunkMap[h].replicas| >= REPLICATION_FACTOR)
  {
    var n := Apply(m, e);
    match e.op
    case Locate(_, _, _, _) =>
      if h in n.store.chunkMap {
        LocateCovers(m, e, h);
        SubsetSize(Holders(m, h), Holders(n, h));
      }
    case ScanTrash =>
      ScanKeeps(m, e.now, h);
      if h in n.store.chunkMap { SubsetSize(Holders(m, h), Holders(n, h)); }
    case Beat(server, reports) =>
      var m0 := m.(lastSeen := m.lastSeen[server := e.now]);
      SameCover(m, m0, h);
      BeatAllKeeps(m0, server, reports, h);
      if h in n.store.chunkMap { SubsetSize(Holders(m, h), Holders(n, h)); }
    case Die(server) => ServerFailedCovers(m, server, h);
    case DoJob(_, _, _) => RunJobCovers(m, e, h);
    case DoRepair(_) => RunRepairCovers(m, e, h);
    case _ => SameCover(m, n, h);
  }

  lemma EnoughReplicas(m: Master, h: Handle)
    requires h in m.store.chunkMap && NoRepeats(m.store.chunkMap[h])
    ensures Cover(m, h) >= |m.store.chunkMap[h].replicas|
  {
    MembersSize(m.store.chunkMap[h].replicas);
    SubsetSize(Members(m.store.chunkMap[h].replicas), Holders(m, h));
  }

  /** Coverage survives a step unless the step lapses while nothing is to spare. */
  lemma CoverageKeptIff(m: Master, e: Event, h: Handle, want: nat)
    requires Enabled(m, e) && Conserved(m.store) && HighOnly(m) && Tracked(m, h)
    requires h in m.store.chunkMap && h in Apply(m, e).store.chunkMap
    requires want <= REPLICATION_FACTOR && want <= Cover(m, h)
    ensures want <= Cover(Apply(m, e), h) <==> !(Lapse(m, e, h) && Cover(m, h) == want)
  {
    StepCovers(m, e, h);
    var n := Apply(m, e);
    if !Lapse(m, e, h) && |n.store.chunkMap[h].replicas| >= REPLICATION_FACTOR { EnoughReplicas(n, h); }
  }

  /** A run in which no step lapses for `h`, whatever happens to other chunks. */
  ghost predicate NoLapses(w: World, es: seq<Event>, h: Handle)
    requires Legal(w, es)
    decreases |es|
  {
    es == []
      || (NoLapses(w, Init(es), h)
          && (h in Exec(w, Init(es)).master.store.chunkMap ==> !Lapse(Exec(w, Init(es)).master, Last(es), h)))
  }

  /** How many servers a chunk was first placed on. */
  ghost function PlacedOn(w: World, es: seq<Event>, h: Handle): nat
    requires Legal(w, es)
    decreases |es|
  {
    if es == [] then 0
    else
      var v, e := Exec(w, Init(es)), Last(es);
      if h in v.master.store.chunkMap then PlacedOn(w, Init(es), h)
      else if e.op.Locate? then |Drawn(v.master, e)|
      else 0
  }

  lemma RepairAddsNone(m: Master, e: Event)
    requires Enabled(m, e) && (e.op.DoJob? || e.op.DoRepair? || e.op.Die?)
    ensures Apply(m, e).store.chunkMap.Keys == m.store.chunkMap.Keys
  {
    match e.op
    case DoJob(job, target, ok) => JobSameHandles(m, job, target, ok);
    case DoRepair(ok) => RepairSameHandles(m, ok);
    case Die(server) =>
  }

  lemma OnlyLocateAdds(m: Master, e: Event, h: Handle)
    requires Enabled(m, e) && h !in m.store.chunkMap && h in Apply(m, e).store.chunkMap
    ensures e.op.Locate?
  {
    match e.op
    case Beat(server, reports) =>
      BeatSameHandles(m.(lastSeen := m.lastSeen[server := e.now]), server, reports);
    case DoJob(_, _, _) => RepairAddsNone(m, e);
    case DoRepair(_) => RepairAddsNone(m, e);
    case _ =>
  }

  lemma StepTracks(m: Master, e: Event, h: Handle)
    requires Enabled(m, e) && Conserved(m.store) && HighOnly(m) && Tracked(m, h)
    requires h in m.store.chunkMap ==> !Lapse(m, e, h)
    ensures Tracked(Apply(m, e), h)
  {
    if h in Apply(m, e).store.chunkMap {
      if h in m.store.chunkMap {
        StepCovers(m, e, h);
      } else {
        OnlyLocateAdds(m, e, h);
        LocateCovers(m, e, h);
      }
    }
  }

  lemma {:induction false} RunTracks(w: World, es: seq<Event>, h: Handle)
    requires Fresh(w) && Legal(w, es) && NoLapses(w, es, h)
    ensures Conserved(Exec(w, es).master.store) && HighOnly(Exec(w, es).master) && Tracked(Exec(w, es).master, h)
    decreases |es|
  {
    FreshConserved(w);
    HandlesConserved(w, es);
    if es != [] {
      RunTracks(w, Init(es), h);
      StepPrioritiesHigh(Exec(w, Init(es)).master, Last(es));
      StepTracks(Exec(w, Init(es)).master, Last(es), h);
    }
  }

  lemma {:induction false} RunCovers(w: World, es: seq<Event>, h: Handle)
    requires Fresh(w) && Legal(w, es) && NoLapses(w, es, h)
    requires h in Exec(w, es).master.store.chunkMap
    ensures PlacedOn(w, es, h) <= REPLICATION_FACTOR
    ensures PlacedOn(w, es, h) <= Cover(Exec(w, es).master, h)
    decreases |es|
  {
    if es != [] {
      var m, e := Exec(w, Init(es)).master, Last(es);
      RunTracks(w, Init(es), h);
      if h in m.store.chunkMap {
        RunCovers(w, Init(es), h);
        CoverageKeptIff(m, e, h, PlacedOn(w, es, h));
      } else {
        OnlyLocateAdds(m, e, h);
        LocateCovers(m, e, h);
      }
    }
  }

  /** Over every run without a lapse for this chunk, the copies it lacks are all accounted
      for by queued work, and with no work queued it has every copy it was placed with. */
  lemma {:induction false} RepairNeverForgotten(w: World, es: seq<Event>, h: Handle)
    requires Fresh(w) && Legal(w, es) && NoLapses(w, es, h)
    requires h in Exec(w, es).master.store.chunkMap
    ensures var m := Exec(w, es).master; var have := |m.store.chunkMap[h].replicas|;
      && PlacedOn(w, es, h) - have <= JobCount(m.jobs, h) + |Awaiting(m, h)|
      && (JobCount(m.jobs, h) == 0 && Queued(m.repairs, h) == {} ==> have >= PlacedOn(w, es, h))
  {
    RunTracks(w, es, h);
    RunCovers(w, es, h);
    CoverMeaning(Exec(w, es).master, h, PlacedOn(w, es, h));
  }

  // ---- The queues run dry ----

  /** The requests in both queues. */
  function Work(m: Master): nat {
    |m.jobs| + |m.repairs|
  }

  /** A worker's pass that does not end with a failed clone. */
  ghost predicate GoodPass(m: Master, e: Event)
    requires Enabled(m, e)
  {
    match e.op
    case DoJob(job, _, ok) => ok || !JobPlan(m, job.handle).Clone?
    case DoRepair(ok) => ok || !RepairPlan(m, m.repairs[0]).Clone?
    case _ => false
  }

  /** A step in which no server fails and no report finds anything newly stale. */
  ghost predicate Quiet(m: Master, e: Event) {
    Enabled(m, e) && !e.op.Die? && (e.op.Beat? ==> Apply(m, e).repairs == m.repairs)
  }

  lemma QuietJob(m: Master, job: Job, target: Addr, ok: bool)
    requires job in m.jobs
    ensures Work(RunJob(m, job, target, ok)) == Work(m) - if ok || !JobPlan(m, job.handle).Clone? then 1 else 0
  {
    assert |m.jobs - multiset{job}| == |m.jobs| - 1;
  }

  lemma QuietRepair(m: Master, ok: bool)
    requires m.repairs != []
    ensures Work(RunRepair(m, ok)) == Work(m) - if ok || !RepairPlan(m, m.repairs[0]).Clone? then 1 else 0
  {
  }

  /** A good pass takes one request off the queues, and nothing else touches them. */
  lemma QuietStep(m: Master, e: Event)
    requires Quiet(m, e)
    ensures Work(Apply(m, e)) == Work(m) - if GoodPass(m, e) then 1 else 0
  {
    match e.op
    case DoJob(job, target, ok) => QuietJob(m, job, target, ok);
    case DoRepair(ok) => QuietRepair(m, ok);
    case Beat(server, reports) => BeatAllKeepsJobs(m.(lastSeen := m.lastSeen[server := e.now]), server, reports);
    case Locate(_, _, _, _) => var m1, h := LocateApplied(m, e);
    case _ =>
  }

  ghost predicate QuietRun(w: World, es: seq<Event>)
    requires Legal(w, es)
    decreases |es|
  {
    es == [] || (QuietRun(w, Init(es)) && Quiet(Exec(w, Init(es)).master, Last(es)))
  }

  ghost function GoodPasses(w: World, es: seq<Event>): nat
    requires Legal(w, es)
    decreases |es|
  {
    if es == [] then 0 else GoodPasses(w, Init(es)) + if GoodPass(Exec(w, Init(es)).master, Last(es)) then 1 else 0
  }

  lemma {:induction false} PassesDrain(w: World, es: seq<Event>)
    requires Legal(w, es) && QuietRun(w, es)
    ensures Work(Exec(w, es).master) == Work(w.master) - GoodPasses(w, es)
    decreases |es|
  {
    if es != [] {
      PassesDrain(w, Init(es));
      QuietStep(Exec(w, Init(es)).master, Last(es));
    }
  }

  lemma NoWorkLeft(m: Master, h: Handle)
    requires Work(m) == 0
    ensures JobCount(m.jobs, h) == 0 && Queued(m.repairs, h) == {}
  {
    assert m.jobs == multiset{} && m.repairs == [];
  }

  /** Repair finishes: once no more servers fail and nothing is newly found stale, after as
      many good passes as there were requests, whatever else happens in between, the queues
      are empty, and a chunk that never lapsed has every copy it was placed with. There
      cannot be more such passes. */
  lemma {:induction false} RepairFinishes(w: World, es1: seq<Event>, es2: seq<Event>, h: Handle)
    requires Fresh(w) && Legal(w, es1) && Legal(Exec(w, es1), es2) && QuietRun(Exec(w, es1), es2)
    ensures Legal(w, es1 + es2)
    ensures var u, m := Exec(w, es1).master, Exec(w, es1 + es2).master;
      && GoodPasses(Exec(w, es1), es2) <= Work(u)
      && (Work(m) == 0 <==> GoodPasses(Exec(w, es1), es2) == Work(u))
      && (Work(m) == 0 && NoLapses(w, es1 + es2, h) && h in m.store.chunkMap ==>
           |m.store.chunkMap[h].replicas| >= PlacedOn(w, es1 + es2, h))
  {
    ExecSplit(w, es1, es2);
    PassesDrain(Exec(w, es1), es2);
    var m := Exec(w, es1 + es2).master;
    if Work(m) == 0 && NoLapses(w, es1 + es2, h) && h in m.store.chunkMap {
      RepairNeverForgotten(w, es1 + es2, h);
      NoWorkLeft(m, h);
    }
  }

  // ---- A lapse loses work ----

  lemma OneStepMore(w: World, es: seq<Event>, e: Event, h: Handle)
    requires Legal(w, es) && CanStep(Exec(w, es), e)
    ensures Legal(w, es + [e]) && Exec(w, es + [e]) == Step(Exec(w, es), e)
    ensures h in Exec(w, es).master.store.chunkMap ==> PlacedOn(w, es + [e], h) == PlacedOn(w, es, h)
    ensures h !in Exec(w, es).master.store.chunkMap && e.op.Locate? ==>
      PlacedOn(w, es + [e], h) == |Drawn(Exec(w, es).master, e)|
  {
    OneMore(w, es, e);
    assert Init(es + [e]) == es && Last(es + [e]) == e;
  }

  /** A server that has no chunk reports. */
  lemma {:induction false} Reports(w: World, es: seq<Event>, server: Addr, now: Time, h: Handle)
    returns (es': seq<Event>)
    requires Legal(w, es) && Exec(w, es).clock <= now
    ensures Legal(w, es') && var v := Exec(w, es);
      && Exec(w, es') == World(v.master.(lastSeen := v.master.lastSeen[server := now]), now)
      && (h in v.master.store.chunkMap ==> PlacedOn(w, es', h) == PlacedOn(w, es, h))
  {
    var e := Event(now, Beat(server, []));
    OneStepMore(w, es, e, h);
    es' := es + [e];
  }

  /** Three servers are up, `c` seen last a second before the others. */
  lemma {:induction false} ThreeServers(w: World, a: Addr, b: Addr, c: Addr) returns (es: seq<Event>)
    requires w == World(NEW_MASTER, 0) && a != b && b != c && a != c
    ensures Legal(w, es) && Exec(w, es) == World(NEW_MASTER.(lastSeen := map[a := 1, b := 1, c := 0]), 1)
  {
    es := Reports(w, [], c, 0, 1);
    es := Reports(w, es, a, 1, 1);
    es := Reports(w, es, b, 1, 1);
  }

  /** The first chunk of a new file, placed on all three. */
  function Placed(a: Addr, b: Addr, c: Addr): Master {
    Master(
      Store(map["/f" := NewFile("/f", 1)], map["/f" := [1]], map[1 := ChunkMeta(1, [a, b, c], [], Some(a), 61)],
            map[1 := 1], 2, {}),
      [CreateFileRecord(1, "/f"), AllocateChunkRecord(1, "/f", 1), GrantLeaseRecord(1, 1, 1)],
      map[a := 1, b := 1, c := 0], multiset{}, [])
  }

  lemma ThreeSampled(m: Master, a: Addr, b: Addr, c: Addr)
    requires a != b && b != c && a != c && m.lastSeen == map[a := 1, b := 1, c := 0]
    ensures IsSample([a, b, c], m.lastSeen)
  {
    assert m.lastSeen.Keys == {a, b, c};
    assert |m.lastSeen| == |m.lastSeen.Keys| == 3;
  }

  lemma FirstAllocated(m: Master, a: Addr, b: Addr, c: Addr)
    requires m == CreateFile(NEW_MASTER.(lastSeen := map[a := 1, b := 1, c := 0]), "/f", 1)
    ensures Allocate(m, "/f", [a, b, c], 1) == Placed(a, b, c).(
      store := Placed(a, b, c).store.(chunkMap := map[1 := ChunkMeta(1, [a, b, c], [], Some(a), 0)],
          chunkVersions := map[1 := 0]),
      log := [CreateFileRecord(1, "/f"), AllocateChunkRecord(1, "/f", 1)])
  {
    var n := Allocate(m, "/f", [a, b, c], 1);
    assert n.store.namespace == map["/f" := NewFile("/f", 1)];
    assert ChunksOf(m.store, "/f") + [1] == [1];
    assert n.store.fileChunks == map["/f" := [1]];
    assert n.store.chunkMap == map[1 := ChunkMeta(1, [a, b, c], [], Some(a), 0)];
    assert n.store.chunkVersions == map[1 := 0];
    assert n.log == [CreateFileRecord(1, "/f"), AllocateChunkRecord(1, "/f", 1)];
  }

  lemma LeaseGranted(m: Master, a: Addr, b: Addr, c: Addr, expiry: Time, version: int, now: Time)
    requires m.store.chunkMap == map[1 := ChunkMeta(1, [a, b, c], [], Some(a), expiry)]
    requires m.store.chunkVersions == map[1 := version]
    requires expiry <= now
    ensures EnsureLease(m, 1, now) == m.(
      store := m.store.(chunkMap := map[1 := ChunkMeta(1, [a, b, c], [], Some(a), now + 60)],
          chunkVersions := map[1 := version + 1]),
      log := m.log + [GrantLeaseRecord(now, 1, version + 1)])
  {
    assert Filter([a, b, c], []) == [a, b, c] by {
      assert Filter([c], []) == [c] && Filter([b, c], []) == [b, c];
    }
  }

  lemma FirstChunk(m: Master, a: Addr, b: Addr, c: Addr)
    requires a != b && b != c && a != c
    requires m == CreateFile(NEW_MASTER.(lastSeen := map[a := 1, b := 1, c := 0]), "/f", 1)
    ensures Allocates(m, "/f", 0, true) && IsSample([a, b, c], m.lastSeen)
    ensures GetChunkLocations(m, "/f", 0, true, [a, b, c], 1).0 == Placed(a, b, c)
  {
    ThreeSampled(m, a, b, c);
    FirstAllocated(m, a, b, c);
    LeaseGranted(Allocate(m, "/f", [a, b, c], 1), a, b, c, 0, 0, 1);
  }

  lemma {:induction false} FilePlaced(w: World, es: seq<Event>, a: Addr, b: Addr, c: Addr) returns (es': seq<Event>)
    requires a != b && b != c && a != c
    requires Legal(w, es) && Exec(w, es) == World(NEW_MASTER.(lastSeen := map[a := 1, b := 1, c := 0]), 1)
    ensures Legal(w, es') && Exec(w, es') == World(Placed(a, b, c), 1) && PlacedOn(w, es', 1) == 3
  {
    var create, locate := Event(1, Create("/f")), Event(1, Locate("/f", 0, true, [a, b, c]));
    OneStepMore(w, es, create, 1);
    es' := es + [create];
    FirstChunk(Exec(w, es').master, a, b, c);
    OneStepMore(w, es', locate, 1);
    es' := es' + [locate];
  }

  /** What `c` failing leaves. */
  function Survived(a: Addr, b: Addr, c: Addr): Master {
    var m := Placed(a, b, c);
    m.(store := m.store.(chunkMap := map[1 := ChunkMeta(1, [a, b], [], Some(a), 61)]),
       lastSeen := map[a := 1, b := 1], jobs := multiset{Job(0, 1)})
  }

  lemma OneFails(m: Master, a: Addr, b: Addr, c: Addr)
    requires a != b && b != c && a != c && m == Placed(a, b, c)
    ensures ServerFailed(m, c) == Survived(a, b, c)
  {
    var chunks := WithoutReplica(m.store.chunkMap, c);
    assert RemoveFirst([a, b, c], c) == [a, b] by { assert RemoveFirst([b, c], c) == [b]; }
    assert chunks == Survived(a, b, c).store.chunkMap;
    assert UnderReplicated(chunks) == {1} && JobsFor({1}) == {Job(0, 1)};
    assert m.lastSeen - {c} == map[a := 1, b := 1];
  }

  lemma NobodyToCopyTo(m: Master, a: Addr, b: Addr, c: Addr)
    requires a != "" && m == Survived(a, b, c)
    ensures !JobPlan(m, 1).Clone? && IsLeast(Job(0, 1), m.jobs) && 1 in m.store.chunkMap
    ensures RunJob(m, Job(0, 1), "", true) == m.(jobs := multiset{})
    ensures Holders(m, 1) == {a, b}
  {
    assert Targets(m, 1) == {};
    assert m.jobs - multiset{Job(0, 1)} == multiset{};
  }

  /** The worker's step for a request it drops. */
  lemma {:induction false} DropStep(w: World, es: seq<Event>, now: Time, h: Handle) returns (es': seq<Event>)
    requires Legal(w, es) && Exec(w, es).clock <= now
    requires var m := Exec(w, es).master; h in m.store.chunkMap && IsLeast(Job(0, h), m.jobs) && !JobPlan(m, h).Clone?
    ensures Legal(w, es') && PlacedOn(w, es', h) == PlacedOn(w, es, h)
    ensures Exec(w, es').master == RunJob(Exec(w, es).master, Job(0, h), "", true)
  {
    var e := Event(now, DoJob(Job(0, h), "", true));
    OneStepMore(w, es, e, h);
    es' := es + [e];
  }

  lemma {:induction false} Dies(w: World, es: seq<Event>, a: Addr, b: Addr, c: Addr) returns (es': seq<Event>)
    requires a != b && b != c && a != c
    requires Legal(w, es) && Exec(w, es) == World(Placed(a, b, c), 1)
    ensures Legal(w, es') && Exec(w, es') == World(Survived(a, b, c), 16) && PlacedOn(w, es', 1) == PlacedOn(w, es, 1)
  {
    OneFails(Exec(w, es).master, a, b, c);
    OneStepMore(w, es, Event(16, Die(c)), 1);
    es' := es + [Event(16, Die(c))];
  }

  /** One of three servers fails and with nobody to copy to the worker drops the request:
      a chunk that was placed on three servers has two copies and nothing queued. */
  lemma {:induction false} GivingUpForgets(a: Addr, b: Addr, c: Addr) returns (es: seq<Event>)
    requires a != b && b != c && a != c && a != ""
    ensures var w := World(NEW_MASTER, 0);
      && Legal(w, es)
      && var m := Exec(w, es).master;
      && 1 in m.store.chunkMap && PlacedOn(w, es, 1) == 3
      && m.jobs == multiset{} && m.repairs == []
      && m.store.chunkMap[1].replicas == [a, b] && Cover(m, 1) == 2
  {
    var w := World(NEW_MASTER, 0);
    es := ThreeServers(w, a, b, c);
    es := FilePlaced(w, es, a, b, c);
    es := Dies(w, es, a, b, c);
    var m := Exec(w, es).master;
    NobodyToCopyTo(m, a, b, c);
    es := DropStep(w, es, 16, 1);
    assert Holders(m.(jobs := multiset{}), 1) == Holders(m, 1);
  }
}
