/** What a location request is answered, over every run of a new master: which kind of
    answer, which chunk, which servers in which order, which version, and when a lease is
    granted. */
module Locating {
  import opened Locations
  import opened Seqs
  import opened Wrappers
  import opened MasterState
  import opened MasterRuns
  import opened FanOut
  import opened Leases
  import opened EndToEnd

  /** The master before the request and after it. */
  ghost function Before(w: World, es: seq<Event>): Master
    requires Legal(w, es)
  {
    Exec(w, es).master
  }

  ghost function Afterwards(w: World, es: seq<Event>, e: Event): Master
    requires Legal(w, es) && CanStep(Exec(w, es), e)
  {
    Apply(Exec(w, es).master, e)
  }

  ghost function ReplyTo(w: World, es: seq<Event>, e: Event): LocReply
    requires Legal(w, es) && CanStep(Exec(w, es), e) && e.op.Locate?
  {
    var m := Exec(w, es).master;
    GetChunkLocations(m, e.op.path, e.op.index, e.op.create, Drawn(m, e), e.now).1
  }

  // ---- Which answer, and which chunk ----

  /** The request asks for a chunk behind the last one. */
  predicate AsksPastEnd(list: seq<Handle>, index: int) {
    if index == -1 then list == [] else index >= |list|
  }

  /** The chunk at an index, where -1 is the last one and other negative ones count from
      the end. */
  function At(list: seq<Handle>, index: int): Handle
    requires -|list| <= index < |list|
  {
    list[if index < 0 then |list| + index else index]
  }

  /** Each kind of answer has its exact cause; a location names the chunk asked for, or the
      one allocated for the request. */
  lemma {:induction false} AnswerKinds(w: World, es: seq<Event>, e: Event)
    requires Fresh(w) && Legal(w, es) && CanStep(Exec(w, es), e) && e.op.Locate?
    ensures var m, r := Before(w, es), ReplyTo(w, es, e);
      var list, past := ChunksOf(m.store, e.op.path), AsksPastEnd(ChunksOf(m.store, e.op.path), e.op.index);
      if e.op.path !in m.store.namespace then r == FileNotFound
      else if past && !e.op.create then r == ChunkNotFound
      else if past && m.lastSeen == map[] then r == NoActiveServers
      else if past then r.Located? && r.at.handle == m.store.nextHandle
      else if e.op.index < -|list| then r == InternalError
      else r.Located? && r.at.handle == At(list, e.op.index)
  {
    InternalErrorIff(w, es, e);
    FreshConserved(w);
    HandlesConserved(w, es);
    ChunksKnown(Before(w, es), e.op.path);
  }

  /** A request past the end, with leave to create and servers up, puts a new chunk at the
      end of the list, on three different live servers or on all when there are fewer. */
  lemma {:induction false} NewChunkPlaced(w: World, es: seq<Event>, e: Event)
    requires Fresh(w) && Legal(w, es) && CanStep(Exec(w, es), e) && e.op.Locate?
    requires var m := Before(w, es);
      && e.op.path in m.store.namespace && AsksPastEnd(ChunksOf(m.store, e.op.path), e.op.index)
      && e.op.create && m.lastSeen != map[]
    ensures var m, n := Before(w, es), Afterwards(w, es, e); var h := m.store.nextHandle;
      && ChunksOf(n.store, e.op.path) == ChunksOf(m.store, e.op.path) + [h]
      && h !in m.store.chunkMap && h in n.store.chunkMap && n.store.nextHandle == h + 1
      && var c := n.store.chunkMap[h];
      && |c.replicas| == (if |m.lastSeen| < 3 then |m.lastSeen| else 3)
      && Distinct(c.replicas) && (forall a :: a in c.replicas ==> a in m.lastSeen) && c.stale == []
  {
    FreshConserved(w);
    HandlesConserved(w, es);
    var m := Before(w, es);
    assert Allocates(m, e.op.path, e.op.index, e.op.create);
    assert m.store.nextHandle !in Listed(m.store);
    var m1, h := LocateApplied(m, e);
  }

  // ---- The version, and when a lease is granted ----

  lemma {:induction false} LogInOrder(w: World, es: seq<Event>, h: Handle)
    requires Fresh(w) && Legal(w, es)
    ensures LeaseHistory(Exec(w, es).master, Exec(w, es).clock, h)
  {
    FreshConserved(w);
    RunInOrder(w, es);
  }

  /** A location carries the number of leases granted for its chunk so far, this request
      included. */
  lemma {:induction false} LocatedVersion(w: World, es: seq<Event>, e: Event, at: Location)
    requires HandedOut(w, es, e, at)
    ensures var n := Afterwards(w, es, e);
      at.handle in n.store.chunkMap && at.version == |Grants(n.log, at.handle)|
  {
    OneMore(w, es, e);
    LogInOrder(w, es + [e], at.handle);
    var m := Before(w, es);
    var m1, h := LocateSteps(m, e.op.path, e.op.index, e.op.create, Drawn(m, e), e.now);
  }

  /** Some replica is not stale. */
  predicate SomeHealthy(replicas: seq<Addr>, stale: seq<Addr>) {
    exists a :: a in replicas && a !in stale
  }

  /** The first replica that is not stale. */
  predicate FirstHealthy(replicas: seq<Addr>, stale: seq<Addr>, a: Addr) {
    exists i :: 0 <= i < |replicas| && replicas[i] == a && a !in stale
      && forall j :: 0 <= j < i ==> replicas[j] in stale
  }

  lemma {:induction false} FilterFirst(s: seq<Addr>, without: seq<Addr>) returns (i: nat)
    requires Filter(s, without) != []
    ensures i < |s| && s[i] == Filter(s, without)[0] && s[i] !in without && forall j :: 0 <= j < i ==> s[j] in without
    decreases |s|
  {
    if s[0] !in without { return 0; }
    i := FilterFirst(s[1..], without);
    i := i + 1;
  }

  lemma HealthyMeans(c: ChunkMeta)
    ensures Healthy(c) != [] <==> SomeHealthy(c.replicas, c.stale)
    ensures Healthy(c) != [] ==> FirstHealthy(c.replicas, c.stale, Healthy(c)[0])
  {
    FilterMembers(c.replicas, c.stale);
    if Healthy(c) != [] {
      assert Healthy(c)[0] in Healthy(c);
      var i := FilterFirst(c.replicas, c.stale);
    }
  }

  /** The last of these grants is younger than a lease. */
  predicate Running(g: seq<Record>, now: Time) {
    g != [] && now < g[|g| - 1].ts + LEASE_DURATION
  }

  lemma ValidIff(m: Master, h: Handle, now: Time, clock: Time)
    requires h in m.store.chunkMap && LeaseHistory(m, clock, h) && 0 <= now
    ensures HasValidLease(m.store, h, now) <==> Running(Grants(m.log, h), now)
  {
    assert Matches(m.store.chunkMap[h], VersionOf(m.store, h), Grants(m.log, h));
  }

  /** Renewing a lease is what the log shows: nothing while the last grant is younger than
      a lease, or when no replica is healthy; else one more grant, to the first healthy
      replica. */
  lemma RenewalLogged(m: Master, h: Handle, now: Time, clock: Time)
    requires h in m.store.chunkMap && LeaseHistory(m, clock, h) && 0 <= now
    ensures var g, c, n := Grants(m.log, h), m.store.chunkMap[h], EnsureLease(m, h, now);
      var renews := !Running(g, now) && SomeHealthy(c.replicas, c.stale);
      && Grants(n.log, h) == g + (if renews then [GrantLeaseRecord(now, h, |g| + 1)] else [])
      && h in n.store.chunkMap && n.store.chunkMap[h].replicas == c.replicas && n.store.chunkMap[h].stale == c.stale
      && n.store.chunkMap[h].primary.Some?
      && if renews then FirstHealthy(c.replicas, c.stale, n.store.chunkMap[h].primary.value)
         else n.store.chunkMap[h].primary == c.primary
  {
    assert Matches(m.store.chunkMap[h], VersionOf(m.store, h), Grants(m.log, h));
    ValidIff(m, h, now, clock);
    HealthyMeans(m.store.chunkMap[h]);
    GrantsAppend(m.log, GrantLeaseRecord(now, h, VersionOf(m.store, h) + 1), h);
  }

  lemma RenewalElsewhere(m: Master, h: Handle, now: Time, k: Handle)
    requires h in m.store.chunkMap && k != h
    ensures Grants(EnsureLease(m, h, now).log, k) == Grants(m.log, k)
  {
    GrantsAppend(m.log, GrantLeaseRecord(now, h, VersionOf(m.store, h) + 1), k);
  }

  /** What the first half of the request leaves of the lease history. */
  lemma {:induction false} Placing(w: World, es: seq<Event>, e: Event, m1: Master, h: Handle)
    requires Fresh(w) && Legal(w, es) && CanStep(Exec(w, es), e) && e.op.Locate?
    requires var m := Before(w, es);
      m1 == if Allocates(m, e.op.path, e.op.index, e.op.create) then Allocate(m, e.op.path, Drawn(m, e), e.now) else m
    ensures LeaseHistory(m1, e.now, h)
    ensures h in Before(w, es).store.chunkMap && m1 != Before(w, es) ==>
      h in m1.store.chunkMap && m1.store.chunkMap[h] == Before(w, es).store.chunkMap[h]
  {
    var m := Before(w, es);
    FreshConserved(w);
    RunInOrder(w, es);
    if m1 != m {
      assert m.store.nextHandle !in Listed(m.store);
      AllocateInOrder(m, e.op.path, Drawn(m, e), e.now, Exec(w, es).clock);
    } else {
      SameLeasesInOrder(m, m, Exec(w, es).clock, e.now);
    }
  }

  /** The second half of the request renews the lease of the chunk named. */
  lemma {:induction false} Renewed(w: World, es: seq<Event>, e: Event, at: Location) returns (m1: Master)
    requires HandedOut(w, es, e, at)
    ensures var m := Before(w, es);
      m1 == if Allocates(m, e.op.path, e.op.index, e.op.create) then Allocate(m, e.op.path, Drawn(m, e), e.now) else m
    ensures at.handle in m1.store.chunkMap && Afterwards(w, es, e) == EnsureLease(m1, at.handle, e.now)
    ensures var n := Afterwards(w, es, e);
      && at.handle in n.store.chunkMap
      && (n.store.chunkMap[at.handle].primary.Some? ==> n.store.chunkMap[at.handle].primary.value == at.primary)
    ensures LeaseHistory(m1, e.now, at.handle)
    ensures forall k :: Grants(m1.log, k) == Grants(Before(w, es).log, k)
  {
    var m := Before(w, es);
    var h;
    m1, h := LocateSteps(m, e.op.path, e.op.index, e.op.create, Drawn(m, e), e.now);
    Placing(w, es, e, m1, at.handle);
    if m1 != m { LogOther(m, m1, AllocateChunkRecord(e.now, e.op.path, m.store.nextHandle)); }
  }

  /** The chunk's entry is the one found or made in the first half of the request. */
  lemma {:induction false} EntryKept(w: World, es: seq<Event>, e: Event, at: Location) returns (m1: Master)
    requires HandedOut(w, es, e, at)
    ensures at.handle in m1.store.chunkMap && LeaseHistory(m1, e.now, at.handle)
    ensures Afterwards(w, es, e) == EnsureLease(m1, at.handle, e.now)
    ensures var n := Afterwards(w, es, e);
      && at.handle in n.store.chunkMap
      && (n.store.chunkMap[at.handle].primary.Some? ==> n.store.chunkMap[at.handle].primary.value == at.primary)
    ensures at.handle in Before(w, es).store.chunkMap ==>
      m1.store.chunkMap[at.handle] == Before(w, es).store.chunkMap[at.handle]
    ensures forall k :: Grants(m1.log, k) == Grants(Before(w, es).log, k)
  {
    m1 := Renewed(w, es, e, at);
    Placing(w, es, e, m1, at.handle);
  }

  /** What a request at `now` that was answered with `primary` for `h` did to the leases. A
      lease is granted exactly when the chunk has never had one, or had its last a lease
      duration ago or longer, and some replica is healthy. The new primary is the first
      healthy replica; otherwise it stays. */
  ghost predicate LeasedSo(m: Master, n: Master, h: Handle, now: Time, primary: Addr) {
    h in n.store.chunkMap &&
    var g, c := Grants(m.log, h), n.store.chunkMap[h];
    var renews := !Running(g, now) && SomeHealthy(c.replicas, c.stale);
    && Grants(n.log, h) == g + (if renews then [GrantLeaseRecord(now, h, |g| + 1)] else [])
    && c.primary == Some(primary)
    && (renews ==> FirstHealthy(c.replicas, c.stale, primary))
    && (!renews && h in m.store.chunkMap ==> m.store.chunkMap[h].primary == Some(primary))
  }

  /** The second half of the request, seen from the master before the first half. */
  lemma RenewalTold(m: Master, m1: Master, h: Handle, now: Time, primary: Addr)
    requires h in m1.store.chunkMap && LeaseHistory(m1, now, h) && 0 <= now
    requires Grants(m1.log, h) == Grants(m.log, h)
    requires h in m.store.chunkMap ==> m1.store.chunkMap[h] == m.store.chunkMap[h]
    requires var n := EnsureLease(m1, h, now);
      && h in n.store.chunkMap
      && (n.store.chunkMap[h].primary.Some? ==> n.store.chunkMap[h].primary.value == primary)
    ensures LeasedSo(m, EnsureLease(m1, h, now), h, now, primary)
  {
    RenewalLogged(m1, h, now, now);
  }

  /** A location request grants a lease for its chunk exactly when one is due, and none for
      any other chunk. */
  lemma {:induction false} LeaseGrantedIff(w: World, es: seq<Event>, e: Event, at: Location, k: Handle)
    requires HandedOut(w, es, e, at) && 0 <= e.now
    ensures LeasedSo(Before(w, es), Afterwards(w, es, e), at.handle, e.now, at.primary)
    ensures k != at.handle ==> Grants(Afterwards(w, es, e).log, k) == Grants(Before(w, es).log, k)
  {
    var m1 := EntryKept(w, es, e, at);
    RenewalTold(Before(w, es), m1, at.handle, e.now, at.primary);
    if k != at.handle { RenewalElsewhere(m1, at.handle, e.now, k); }
  }

  // ---- The order of the secondaries ----

  /** What stands earlier in `f` stands earlier in `s`. */
  ghost predicate SameOrder(f: seq<Addr>, s: seq<Addr>) {
    forall i, j, p, q :: 0 <= i < j < |f| && 0 <= p < |s| && 0 <= q < |s| && s[p] == f[i] && s[q] == f[j] ==> p < q
  }

  lemma BehindFirst(f: seq<Addr>, s: seq<Addr>)
    requires s != [] && Distinct(s) && SameOrder(f, s[1..]) && forall a :: a in f ==> a in s[1..]
    ensures SameOrder(f, s) && SameOrder([s[0]] + f, s)
  {
    var g := [s[0]] + f;
    DistinctTail(s);
    assert forall i :: 0 <= i < |s| - 1 ==> s[1..][i] == s[i + 1];
    forall i, j, p, q | 0 <= i < j < |g| && 0 <= p < |s| && 0 <= q < |s| && s[p] == g[i] && s[q] == g[j] ensures p < q {
      assert g[j] == f[j - 1] && f[j - 1] in s[1..];
      assert q > 0 && s[1..][q - 1] == f[j - 1];
      if i > 0 {
        assert g[i] == f[i - 1] && f[i - 1] in s[1..];
        assert p > 0 && s[1..][p - 1] == f[i - 1];
      }
    }
    forall i, j, p, q | 0 <= i < j < |f| && 0 <= p < |s| && 0 <= q < |s| && s[p] == f[i] && s[q] == f[j] ensures p < q {
      assert g[i + 1] == f[i] && g[j + 1] == f[j];
    }
  }

  lemma {:induction false} FilterKeepsOrder(s: seq<Addr>, without: seq<Addr>)
    requires Distinct(s)
    ensures SameOrder(Filter(s, without), s)
    decreases |s|
  {
    if s != [] {
      DistinctTail(s);
      FilterKeepsOrder(s[1..], without);
      FilterMembers(s[1..], without);
      BehindFirst(Filter(s[1..], without), s);
    }
  }

  lemma OrderThrough(f: seq<Addr>, g: seq<Addr>, s: seq<Addr>)
    requires SameOrder(f, g) && SameOrder(g, s) && Distinct(g) && (forall a :: a in f ==> a in g) && Distinct(s)
    ensures SameOrder(f, s)
  {
    forall i, j, p, q | 0 <= i < j < |f| && 0 <= p < |s| && 0 <= q < |s| && s[p] == f[i] && s[q] == f[j] ensures p < q {
      assert f[i] in g && f[j] in g;
      var x :| 0 <= x < |g| && g[x] == f[i];
      var y :| 0 <= y < |g| && g[y] == f[j];
      assert x < y;
    }
  }

  /** The secondaries, along which a write is passed on, stand in the order of the master's
      replica list. */
  lemma {:induction false} SecondariesInOrder(w: World, es: seq<Event>, e: Event, at: Location)
    requires HandedOut(w, es, e, at)
    ensures var n := Afterwards(w, es, e);
      at.handle in n.store.chunkMap && SameOrder(at.secondaries, n.store.chunkMap[at.handle].replicas)
  {
    var m := Before(w, es);
    ListsStayDistinct(w, es);
    StepDistinct(m, e);
    var m1, h := LocateSteps(m, e.op.path, e.op.index, e.op.create, Drawn(m, e), e.now);
    var c := Afterwards(w, es, e).store.chunkMap[at.handle];
    assert NoRepeats(c);
    FilterMembers(c.replicas, c.stale);
    FilterMembers(Healthy(c), [at.primary]);
    FilterKeepsOrder(c.replicas, c.stale);
    FilterKeepsOrder(Healthy(c), [at.primary]);
    OrderThrough(at.secondaries, Healthy(c), c.replicas);
  }
}
