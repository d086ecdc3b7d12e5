/** Leases over all runs: the log's grants for a chunk are numbered 1, 2, 3, ... and lie
    at least one lease apart, so a version counts leases and leases never overlap. */
module Leases {
  import opened Locations
  import opened Seqs
  import opened MasterState
  import opened MasterRuns

  predicate IsGrant(r: Record, h: Handle) {
    r.GrantLeaseRecord? && r.handle == h
  }

  /** The grants of one chunk, oldest first. */
  function Grants(log: seq<Record>, h: Handle): (g: seq<Record>)
    ensures forall i :: 0 <= i < |g| ==> IsGrant(g[i], h)
    decreases |log|
  {
    if log == [] then []
    else
      var r := log[|log| - 1];
      Grants(log[..|log| - 1], h) + if IsGrant(r, h) then [r] else []
  }

  lemma GrantsAppend(log: seq<Record>, r: Record, h: Handle)
    ensures Grants(log + [r], h) == Grants(log, h) + if IsGrant(r, h) then [r] else []
  {
    assert (log + [r])[..|log|] == log;
  }

  predicate IsGrants(g: seq<Record>) {
    forall i :: 0 <= i < |g| ==> g[i].GrantLeaseRecord?
  }

  predicate Numbered(g: seq<Record>)
    requires IsGrants(g)
  {
    forall i :: 0 <= i < |g| ==> g[i].version == i + 1
  }

  predicate Spaced(g: seq<Record>) {
    forall i :: 0 < i < |g| ==> g[i].ts >= g[i - 1].ts + LEASE_DURATION
  }

  predicate InOrder(g: seq<Record>, clock: Time) {
    IsGrants(g) && Numbered(g) && Spaced(g) && (g != [] ==> g[|g| - 1].ts <= clock)
  }

  /** The chunk's version counts its grants and its lease is the last one granted. */
  predicate Matches(c: ChunkMeta, version: int, g: seq<Record>) {
    && c.primary.Some? && version == |g|
    && c.leaseExpiry == if g == [] then 0 else g[|g| - 1].ts + LEASE_DURATION
  }

  ghost predicate LeaseHistory(m: Master, clock: Time, h: Handle) {
    var g := Grants(m.log, h);
    && InOrder(g, clock)
    && (g != [] ==> h < m.store.nextHandle)
    && (h in m.store.chunkMap ==> Matches(m.store.chunkMap[h], VersionOf(m.store, h), g))
  }

  ghost predicate LeasesInOrder(w: World) {
    Conserved(w.master.store) && forall h :: LeaseHistory(w.master, w.clock, h)
  }

  /** Nothing that concerns the leases of `h` changed. */
  ghost predicate SameLease(m: Master, n: Master, h: Handle) {
    && Grants(n.log, h) == Grants(m.log, h)
    && m.store.nextHandle <= n.store.nextHandle
    && (h in n.store.chunkMap ==>
          && h in m.store.chunkMap
          && n.store.chunkMap[h].primary == m.store.chunkMap[h].primary
          && n.store.chunkMap[h].leaseExpiry == m.store.chunkMap[h].leaseExpiry
          && VersionOf(n.store, h) == VersionOf(m.store, h))
  }

  ghost predicate SameLeases(m: Master, n: Master) {
    forall h :: SameLease(m, n, h)
  }

  lemma SameLeaseHistory(m: Master, n: Master, clock: Time, now: Time, h: Handle)
    requires SameLease(m, n, h) && clock <= now && LeaseHistory(m, clock, h)
    ensures LeaseHistory(n, now, h)
  {
  }

  lemma SameLeasesInOrder(m: Master, n: Master, clock: Time, now: Time)
    requires SameLeases(m, n) && clock <= now
    requires forall h :: LeaseHistory(m, clock, h)
    ensures forall h :: LeaseHistory(n, now, h)
  {
    forall h ensures LeaseHistory(n, now, h) {
      SameLeaseHistory(m, n, clock, now, h);
    }
  }

  lemma BeatOneLeases(m: Master, cs: Addr, r: Report)
    ensures SameLeases(m, BeatOne(m, cs, r))
  {
  }

  lemma {:induction false} BeatAllLeases(m: Master, cs: Addr, reports: seq<Report>)
    ensures SameLeases(m, BeatAll(m, cs, reports))
    decreases |reports|
  {
    if reports != [] {
      var n := BeatAll(m, cs, reports[..|reports| - 1]);
      BeatAllLeases(m, cs, reports[..|reports| - 1]);
      BeatOneLeases(n, cs, reports[|reports| - 1]);
      forall h ensures SameLease(m, BeatAll(m, cs, reports), h) {
        assert SameLease(m, n, h) && SameLease(n, BeatAll(m, cs, reports), h);
      }
    }
  }

  lemma HeartbeatLeases(m: Master, cs: Addr, reports: seq<Report>, now: Time)
    ensures SameLeases(m, Heartbeat(m, cs, reports, now))
  {
    var m0 := m.(lastSeen := m.lastSeen[cs := now]);
    BeatAllLeases(m0, cs, reports);
    forall h ensures SameLease(m, Heartbeat(m, cs, reports, now), h) {
      assert SameLease(m0, BeatAll(m0, cs, reports), h);
    }
  }

  lemma ScanLeases(m: Master, now: Time)
    requires Conserved(m.store)
    ensures SameLeases(m, Scan(m, now))
  {
  }

  lemma AppendGrant(g: seq<Record>, r: Record, clock: Time)
    requires InOrder(g, clock)
    requires r.GrantLeaseRecord? && r.version == |g| + 1 && clock <= r.ts
    requires g != [] ==> r.ts >= g[|g| - 1].ts + LEASE_DURATION
    ensures InOrder(g + [r], r.ts)
  {
    var longer := g + [r];
    forall i | 0 <= i < |longer| ensures longer[i].GrantLeaseRecord? && longer[i].version == i + 1 {
      assert i < |g| ==> longer[i] == g[i];
    }
    forall i | 0 < i < |longer| ensures longer[i].ts >= longer[i - 1].ts + LEASE_DURATION {
      assert longer[i - 1] == g[i - 1] && (i < |g| ==> longer[i] == g[i]);
    }
  }

  lemma GrantHistory(m: Master, h: Handle, now: Time, clock: Time)
    requires h in m.store.chunkMap && clock <= now && h < m.store.nextHandle
    requires LeaseHistory(m, clock, h)
    requires Healthy(m.store.chunkMap[h]) != [] && !HasValidLease(m.store, h, now)
    ensures LeaseHistory(GrantLease(m, h, now), now, h)
  {
    var g, c, r := Grants(m.log, h), m.store.chunkMap[h], GrantLeaseRecord(now, h, VersionOf(m.store, h) + 1);
    assert Matches(c, VersionOf(m.store, h), g);
    assert now >= c.leaseExpiry;
    AppendGrant(g, r, clock);
    GrantsAppend(m.log, r, h);
    var n := GrantLease(m, h, now);
    assert n.log == m.log + [r] && Grants(n.log, h) == g + [r];
    assert VersionOf(n.store, h) == |g| + 1 && n.store.chunkMap[h].leaseExpiry == now + LEASE_DURATION;
  }

  lemma GrantElsewhere(m: Master, h: Handle, now: Time, clock: Time, k: Handle)
    requires h in m.store.chunkMap && clock <= now && k != h
    requires LeaseHistory(m, clock, k)
    ensures LeaseHistory(GrantLease(m, h, now), now, k)
  {
    GrantsAppend(m.log, GrantLeaseRecord(now, h, VersionOf(m.store, h) + 1), k);
    SameLeaseHistory(m, GrantLease(m, h, now), clock, now, k);
  }

  lemma GrantInOrder(m: Master, h: Handle, now: Time, clock: Time)
    requires h in m.store.chunkMap && clock <= now && h < m.store.nextHandle
    requires forall k :: LeaseHistory(m, clock, k)
    ensures forall k :: LeaseHistory(EnsureLease(m, h, now), now, k)
  {
    forall k ensures LeaseHistory(EnsureLease(m, h, now), now, k) {
      assert LeaseHistory(m, clock, k);
      if k != h {
        GrantElsewhere(m, h, now, clock, k);
      } else if EnsureLease(m, h, now) != m {
        GrantHistory(m, h, now, clock);
      }
    }
  }

  lemma AllocateHistory(m: Master, path: Path, chosen: seq<Addr>, now: Time, clock: Time, k: Handle)
    requires chosen != [] && clock <= now && LeaseHistory(m, clock, k)
    ensures LeaseHistory(Allocate(m, path, chosen, now), now, k)
  {
    var n, h := Allocate(m, path, chosen, now), m.store.nextHandle;
    GrantsAppend(m.log, AllocateChunkRecord(now, path, h), k);
    assert Grants(n.log, k) == Grants(m.log, k);
    if k == h {
      assert Grants(n.log, k) == [];
      assert VersionOf(n.store, k) == 0 && n.store.chunkMap[k].primary.Some?;
    } else {
      SameLeaseHistory(m, n, clock, now, k);
    }
  }

  lemma AllocateInOrder(m: Master, path: Path, chosen: seq<Addr>, now: Time, clock: Time)
    requires chosen != [] && clock <= now
    requires forall k :: LeaseHistory(m, clock, k)
    ensures forall k :: LeaseHistory(Allocate(m, path, chosen, now), now, k)
  {
    forall k ensures LeaseHistory(Allocate(m, path, chosen, now), now, k) {
      AllocateHistory(m, path, chosen, now, clock, k);
    }
  }

  lemma LogOther(m: Master, n: Master, r: Record)
    requires !r.GrantLeaseRecord? && n.log == m.log + [r]
    ensures forall h :: Grants(n.log, h) == Grants(m.log, h)
  {
    forall h ensures Grants(n.log, h) == Grants(m.log, h) {
      GrantsAppend(m.log, r, h);
    }
  }

  lemma LocateInOrder(m: Master, e: Event, clock: Time)
    requires Enabled(m, e) && e.op.Locate? && clock <= e.now
    requires Conserved(m.store) && forall k :: LeaseHistory(m, clock, k)
    ensures forall k :: LeaseHistory(Apply(m, e), e.now, k)
  {
    var chosen := Drawn(m, e);
    var m1, h := LocateSteps(m, e.op.path, e.op.index, e.op.create, chosen, e.now);
    if m1 != m {
      AllocateConserves(m, e.op.path, chosen, e.now);
      AllocateInOrder(m, e.op.path, chosen, e.now, clock);
    } else {
      SameLeasesInOrder(m, m, clock, e.now);
    }
    if h.Some? {
      assert h.value in Listed(m1.store);
      GrantInOrder(m1, h.value, e.now, e.now);
    }
  }

  lemma NamespaceLeases(m: Master, e: Event)
    requires e.op.Create? || e.op.Delete?
    ensures SameLeases(m, Apply(m, e))
  {
    var n := Apply(m, e);
    if n != m { LogOther(m, n, n.log[|m.log|]); }
  }

  lemma RepairLeases(m: Master, e: Event)
    requires Enabled(m, e) && (e.op.Die? || e.op.DoJob? || e.op.DoRepair?)
    ensures SameLeases(m, Apply(m, e))
  {
  }

  lemma {:induction false} StepInOrder(w: World, e: Event)
    requires CanStep(w, e) && LeasesInOrder(w)
    ensures LeasesInOrder(Step(w, e))
  {
    var m := w.master;
    StepConserves(m, e);
    if e.op.Locate? {
      LocateInOrder(m, e, w.clock);
    } else {
      match e.op {
        case Create(_) => NamespaceLeases(m, e);
        case Delete(_) => NamespaceLeases(m, e);
        case Beat(server, reports) => HeartbeatLeases(m, server, reports, e.now);
        case ScanTrash => ScanLeases(m, e.now);
        case _ => RepairLeases(m, e);
      }
      SameLeasesInOrder(m, Apply(m, e), w.clock, e.now);
    }
  }

  lemma {:induction false} RunInOrder(w: World, es: seq<Event>)
    requires Legal(w, es) && LeasesInOrder(w)
    ensures LeasesInOrder(Exec(w, es))
    decreases |es|
  {
    if es != [] {
      RunInOrder(w, Init(es));
      StepInOrder(Exec(w, Init(es)), Last(es));
    }
  }

  lemma {:induction false} SpacedApart(g: seq<Record>, i: nat, j: nat)
    requires Spaced(g) && i <= j < |g|
    ensures g[j].ts >= g[i].ts + LEASE_DURATION * (j - i)
    decreases j
  {
    if i < j { SpacedApart(g, i, j - 1); }
  }

  /** Over any run from an empty master, for every chunk: the grants in the log carry
      1, 2, 3, ..., no two leases overlap, and a live chunk's version is the number of
      its grants, at most one for each lease duration that has passed. */
  lemma {:induction false} LeasesNeverOverlap(w: World, es: seq<Event>, h: Handle)
    requires Fresh(w) && Legal(w, es)
    ensures var v := Exec(w, es); var g := Grants(v.master.log, h);
      && (forall i :: 0 <= i < |g| ==> g[i].version == i + 1)
      && (forall i, j :: 0 <= i < j < |g| ==> g[i].ts + LEASE_DURATION <= g[j].ts)
      && (h in v.master.store.chunkMap ==> VersionOf(v.master.store, h) == |g|)
      && (h in v.master.store.chunkMap && g != [] ==>
            VersionOf(v.master.store, h) <= 1 + (v.clock - g[0].ts) / LEASE_DURATION)
  {
    FreshConserved(w);
    RunInOrder(w, es);
    var v := Exec(w, es);
    var g := Grants(v.master.log, h);
    assert LeaseHistory(v.master, v.clock, h);
    forall i, j | 0 <= i < j < |g| ensures g[i].ts + LEASE_DURATION <= g[j].ts {
      SpacedApart(g, i, j);
    }
    if g != [] { SpacedApart(g, 0, |g| - 1); }
  }
}
