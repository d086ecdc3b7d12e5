/** The whole cluster exchanging messages that may be lost, repeated and reordered: the
    master's runs, any number of chunkservers and clients, and chunkserver restarts. A
    message once sent can be delivered at any later time, any number of times. */
module Cluster {
  import opened Locations
  import opened Seqs
  import opened Wrappers
  import opened MasterState
  import opened MasterRuns
  import CS = ChunkState

  datatype Msg =
    | LocationMsg(at: Location)
    | PushMsg(to: Addr, head: CS.WriteHead, data: CS.Bytes, forward: seq<Addr>)
    | CommitMsg(to: Addr, head: CS.WriteHead, forward: seq<Addr>)
    | AppendMsg(to: Addr, handle: Handle, data: CS.Bytes, version: int, forward: seq<Addr>)
    | CopyMsg(to: Addr, handle: Handle, target: Addr, version: int)
    | BeatMsg(from: Addr, reports: seq<Report>)
    | DeleteMsg(to: Addr, handles: set<Handle>)

  datatype State = State(world: World, servers: CS.Net, sent: set<Msg>)

  datatype Act =
    | MasterActs(e: Event)
    | ClientPushes(loc: Msg, serial: int, offset: nat, data: CS.Bytes)
    | ClientCommits(loc: Msg, serial: int, offset: nat)
    | ClientAppends(loc: Msg, data: CS.Bytes)
    | Delivers(m: Msg)
    | Beats(server: Addr, reports: seq<Report>)
    | Restarts(server: Addr)

  function VersionAt(s: CS.Server, h: Handle): int {
    if h in s.versions then s.versions[h] else 0
  }

  /** A heartbeat reports chunks on disk with the versions the server remembers. */
  ghost predicate IsReport(s: CS.Server, reports: seq<Report>) {
    forall i :: 0 <= i < |reports| ==>
      reports[i].handle in s.files && reports[i].version == VersionAt(s, reports[i].handle)
  }

  ghost predicate Can(c: State, act: Act) {
    match act
    case MasterActs(e) =>
      CanStep(c.world, e) && (e.op.Beat? ==> BeatMsg(e.op.server, e.op.reports) in c.sent)
    case ClientPushes(loc, _, _, _) => loc in c.sent && loc.LocationMsg?
    case ClientCommits(loc, _, _) => loc in c.sent && loc.LocationMsg?
    case ClientAppends(loc, _) => loc in c.sent && loc.LocationMsg?
    case Delivers(m) => m in c.sent && !m.LocationMsg? && !m.BeatMsg? && m.to in c.servers
    case Beats(server, reports) => server in c.servers && IsReport(c.servers[server], reports)
    case Restarts(server) => server in c.servers
  }

  function Copies(order: Option<CopyOrder>): set<Msg> {
    match order
    case None => {}
    case Some(o) => {CopyMsg(o.source, o.handle, o.target, o.version)}
  }

  /** What the master sends in a step. */
  ghost function MasterSends(m: Master, e: Event): set<Msg>
    requires Enabled(m, e)
  {
    match e.op
    case Locate(path, index, create, _) =>
      var r := GetChunkLocations(m, path, index, create, Drawn(m, e), e.now).1;
      if r.Located? then {LocationMsg(r.at)} else {}
    case Beat(server, _) => {DeleteMsg(server, Apply(m, e).store.gcPending)}
    case DoJob(job, target, _) =>
      Copies(JobOrder(m, job.handle, target))
    case DoRepair(_) =>
      Copies(RepairOrder(m, m.repairs[0]))
    case _ => {}
  }

  function Handled(s: CS.Server, m: Msg): CS.Server {
    match m
    case PushMsg(_, w, data, _) => CS.PushLocal(s, w, data)
    case CommitMsg(_, w, _) => CS.CommitLocal(s, w).0
    case AppendMsg(_, h, data, v, _) => CS.AppendLocal(s, h, data, v).0
    case DeleteMsg(_, hs) => CS.Erased(s, hs)
    case _ => s
  }

  /** What a server sends on while it handles a message. */
  function Answered(s: CS.Server, m: Msg): set<Msg> {
    match m
    case PushMsg(_, w, data, forward) =>
      if forward == [] then {} else {PushMsg(forward[0], w, data, forward[1..])}
    case CommitMsg(_, w, forward) =>
      if CS.CommitLocal(s, w).1 then set a | a in forward :: CommitMsg(a, w, []) else {}
    case AppendMsg(_, h, data, v, forward) =>
      var reply := CS.AppendLocal(s, h, data, v).1;
      var block := CS.Block(CS.FileOf(s.files, h), data);
      if reply.AppendError? then {}
      else set a | a in forward :: AppendMsg(a, h, block, if reply.Appended? then v else 0, [])
    case CopyMsg(_, h, target, v) =>
      var data := CS.FileOf(s.files, h);
      if data == [] then {}
      else {PushMsg(target, CS.CloneHead(h, v), data, []), CommitMsg(target, CS.CloneHead(h, v), [])}
    case _ => {}
  }

  ghost function Do(c: State, act: Act): State
    requires Can(c, act)
  {
    match act
    case MasterActs(e) =>
      c.(world := Step(c.world, e), sent := c.sent + MasterSends(c.world.master, e))
    case ClientPushes(loc, serial, offset, data) =>
      var head := CS.WriteHead(loc.at.handle, offset, serial, loc.at.version);
      c.(sent := c.sent + {PushMsg(loc.at.primary, head, data, loc.at.secondaries)})
    case ClientCommits(loc, serial, offset) =>
      var head := CS.WriteHead(loc.at.handle, offset, serial, loc.at.version);
      c.(sent := c.sent + {CommitMsg(loc.at.primary, head, loc.at.secondaries)})
    case ClientAppends(loc, data) =>
      c.(sent := c.sent + {AppendMsg(loc.at.primary, loc.at.handle, data, loc.at.version, loc.at.secondaries)})
    case Delivers(m) =>
      c.(servers := c.servers[m.to := Handled(c.servers[m.to], m)], sent := c.sent + Answered(c.servers[m.to], m))
    case Beats(server, reports) => c.(sent := c.sent + {BeatMsg(server, reports)})
    case Restarts(server) =>
      c.(servers := c.servers[server := c.servers[server].(versions := map[], buffer := map[])])
  }

  ghost predicate Possible(c: State, acts: seq<Act>)
    decreases |acts|, 0
  {
    acts == [] || (Possible(c, Init(acts)) && Can(After(c, Init(acts)), Last(acts)))
  }

  ghost function After(c: State, acts: seq<Act>): State
    requires Possible(c, acts)
    decreases |acts|, 1
  {
    if acts == [] then c else Do(After(c, Init(acts)), Last(acts))
  }

  /** A new master, no message in flight, no chunk version remembered anywhere; old chunk
      files may be lying about. */
  ghost predicate Started(c: State) {
    && Fresh(c.world) && c.sent == {}
    && forall a :: a in c.servers ==> c.servers[a].versions == map[] && c.servers[a].buffer == map[]
  }

  // ---- Nobody is ahead ----

  /** A version of `h` the master has passed or reached. */
  predicate Behind(s: Store, h: Handle, v: int) {
    (h in s.chunkVersions ==> v <= s.chunkVersions[h]) && (h >= s.nextHandle ==> v <= 0)
  }

  ghost predicate MsgBehind(s: Store, m: Msg) {
    match m
    case LocationMsg(at) => Behind(s, at.handle, at.version)
    case PushMsg(_, w, _, _) => Behind(s, w.handle, w.version)
    case CommitMsg(_, w, _) => Behind(s, w.handle, w.version)
    case AppendMsg(_, h, _, v, _) => Behind(s, h, v)
    case CopyMsg(_, h, _, v) => Behind(s, h, v)
    case BeatMsg(_, reports) => forall i :: 0 <= i < |reports| ==> Behind(s, reports[i].handle, reports[i].version)
    case DeleteMsg(_, hs) => hs <= s.gcPending
  }

  ghost predicate ServerBehind(s: Store, server: CS.Server) {
    forall h :: Behind(s, h, VersionAt(server, h))
  }

  ghost predicate VersionsNatural(s: Store) {
    forall h :: h in s.chunkVersions ==> s.chunkVersions[h] >= 0
  }

  ghost predicate NobodyAhead(c: State) {
    var s := c.world.master.store;
    && Conserved(s) && VersionsNatural(s)
    && (forall a :: a in c.servers ==> ServerBehind(s, c.servers[a]))
    && (forall m :: m in c.sent ==> MsgBehind(s, m))
  }

  /** Whatever was behind stays behind. */
  ghost predicate Advances(s: Store, t: Store) {
    && VersionsNatural(t) && s.gcPending <= t.gcPending
    && (forall h, v :: Behind(s, h, v) ==> Behind(t, h, v))
  }

  lemma SameVersionsAdvance(s: Store, t: Store)
    requires VersionsNatural(s) && t.chunkVersions == s.chunkVersions && t.nextHandle == s.nextHandle
    requires s.gcPending <= t.gcPending
    ensures Advances(s, t)
  {
  }

  lemma {:induction false} BeatAllVersions(m: Master, cs: Addr, reports: seq<Report>)
    ensures BeatAll(m, cs, reports).store.chunkVersions == m.store.chunkVersions
    decreases |reports|
  {
    if reports != [] { BeatAllVersions(m, cs, reports[..|reports| - 1]); }
  }

  lemma LeaseAdvances(m: Master, h: Handle, now: Time)
    requires h in m.store.chunkMap && h in m.store.chunkVersions && VersionsNatural(m.store)
    ensures Advances(m.store, EnsureLease(m, h, now).store)
  {
    var n := EnsureLease(m, h, now);
    assert n.store.nextHandle == m.store.nextHandle && n.store.gcPending == m.store.gcPending;
    assert n == m || n.store.chunkVersions == m.store.chunkVersions[h := VersionOf(m.store, h) + 1];
  }

  lemma LocateAdvances(m: Master, e: Event)
    requires Enabled(m, e) && e.op.Locate? && Conserved(m.store) && VersionsNatural(m.store)
    ensures Advances(m.store, Apply(m, e).store)
  {
    var m1, h := LocateSteps(m, e.op.path, e.op.index, e.op.create, Drawn(m, e), e.now);
    assert m.store.nextHandle !in m.store.chunkVersions by {
      assert m.store.nextHandle !in Listed(m.store);
    }
    assert Advances(m.store, m1.store);
    assert m1.store.chunkMap.Keys == m1.store.chunkVersions.Keys;
    if h.Some? { LeaseAdvances(m1, h.value, e.now); }
  }

  lemma StepAdvances(m: Master, e: Event)
    requires Enabled(m, e) && Conserved(m.store) && VersionsNatural(m.store)
    ensures Advances(m.store, Apply(m, e).store)
  {
    match e.op
    case Locate(_, _, _, _) => LocateAdvances(m, e);
    case ScanTrash =>
    case Beat(server, reports) =>
      var m0 := m.(lastSeen := m.lastSeen[server := e.now]);
      BeatAllVersions(m0, server, reports);
      BeatSameHandles(m0, server, reports);
      SameVersionsAdvance(m.store, Apply(m, e).store);
    case _ => SameVersionsAdvance(m.store, Apply(m, e).store);
  }

  lemma CurrentIsBehind(s: Store, h: Handle)
    requires Conserved(s) && VersionsNatural(s)
    ensures Behind(s, h, VersionOf(s, h)) && Behind(s, h, 0)
  {
    if h in s.chunkVersions { assert h in Listed(s); }
  }

  lemma MasterSendsBehind(m: Master, e: Event)
    requires Enabled(m, e) && Conserved(m.store) && VersionsNatural(m.store)
    ensures forall x :: x in MasterSends(m, e) ==> MsgBehind(Apply(m, e).store, x)
  {
    var n := Apply(m, e);
    StepConserves(m, e);
    StepAdvances(m, e);
    match e.op
    case Locate(path, index, create, _) =>
      var m1, h := LocateSteps(m, path, index, create, Drawn(m, e), e.now);
      if h.Some? { CurrentIsBehind(n.store, h.value); }
    case DoJob(job, _, _) => CurrentIsBehind(m.store, job.handle);
    case DoRepair(_) => CurrentIsBehind(m.store, m.repairs[0].handle);
    case _ =>
  }

  lemma HandledBehind(s: Store, server: CS.Server, m: Msg)
    requires ServerBehind(s, server) && MsgBehind(s, m) && forall h :: Behind(s, h, 0)
    ensures ServerBehind(s, Handled(server, m))
  {
    forall h ensures Behind(s, h, VersionAt(Handled(server, m), h)) {
      assert Behind(s, h, VersionAt(server, h)) && Behind(s, h, 0);
    }
  }

  lemma AnsweredBehind(s: Store, server: CS.Server, m: Msg)
    requires MsgBehind(s, m) && forall h :: Behind(s, h, 0)
    ensures forall x :: x in Answered(server, m) ==> MsgBehind(s, x)
  {
  }

  lemma AdvancedMessages(s: Store, t: Store, sent: set<Msg>)
    requires Advances(s, t) && forall m :: m in sent ==> MsgBehind(s, m)
    ensures forall m :: m in sent ==> MsgBehind(t, m)
  {
  }

  lemma DoStaysBehind(c: State, act: Act)
    requires Can(c, act) && NobodyAhead(c)
    ensures NobodyAhead(Do(c, act))
  {
    var s := c.world.master.store;
    forall h ensures Behind(s, h, 0) { CurrentIsBehind(s, h); }
    match act
    case MasterActs(e) =>
      var t := Apply(c.world.master, e).store;
      StepConserves(c.world.master, e);
      StepAdvances(c.world.master, e);
      MasterSendsBehind(c.world.master, e);
      AdvancedMessages(s, t, c.sent);
      forall a | a in c.servers ensures ServerBehind(t, c.servers[a]) {
        forall h ensures Behind(t, h, VersionAt(c.servers[a], h)) {
          assert Behind(s, h, VersionAt(c.servers[a], h));
        }
      }
    case Delivers(m) =>
      HandledBehind(s, c.servers[m.to], m);
      AnsweredBehind(s, c.servers[m.to], m);
    case Beats(server, reports) =>
      assert ServerBehind(s, c.servers[server]);
    case Restarts(server) =>
    case ClientPushes(loc, _, _, _) => assert MsgBehind(s, loc);
    case ClientCommits(loc, _, _) => assert MsgBehind(s, loc);
    case ClientAppends(loc, _) => assert MsgBehind(s, loc);
  }

  lemma {:induction false} StaysBehind(c: State, acts: seq<Act>)
    requires Possible(c, acts) && NobodyAhead(c)
    ensures NobodyAhead(After(c, acts))
    decreases |acts|
  {
    if acts != [] {
      StaysBehind(c, Init(acts));
      DoStaysBehind(After(c, Init(acts)), Last(acts));
    }
  }

  lemma StartedBehind(c: State)
    requires Started(c)
    ensures NobodyAhead(c)
  {
  }

  /** Under any loss, repetition and reordering of messages and any chunkserver restarts,
      no chunkserver and no message carries a version of a live chunk that the master has
      not reached. */
  lemma {:induction false} NobodyIsAheadOfTheMaster(c: State, acts: seq<Act>)
    requires Started(c) && Possible(c, acts)
    ensures NobodyAhead(After(c, acts))
  {
    StartedBehind(c);
    StaysBehind(c, acts);
  }

  /** So a heartbeat that disagrees with the master always comes from a server that has
      missed something, never from one that knows more. */
  lemma {:induction false} MismatchMeansBehind(c: State, acts: seq<Act>, from: Addr, reports: seq<Report>, i: nat)
    requires Started(c) && Possible(c, acts)
    requires BeatMsg(from, reports) in After(c, acts).sent && i < |reports|
    ensures var s := After(c, acts).world.master.store; var r := reports[i];
      r.handle in s.chunkMap && r.version != VersionOf(s, r.handle) ==> r.version < VersionOf(s, r.handle)
  {
    NobodyIsAheadOfTheMaster(c, acts);
    var s := After(c, acts).world.master.store;
    assert MsgBehind(s, BeatMsg(from, reports));
    assert Behind(s, reports[i].handle, reports[i].version);
    if reports[i].handle in s.chunkMap { assert reports[i].handle in Listed(s); }
  }

  /** And no delete order ever in flight names a chunk that a file lists, so delivering
      it, however late, destroys no file's data. */
  lemma DeleteOrdersAreSafe(c: State, acts: seq<Act>, to: Addr, hs: set<Handle>, p: Path, h: Handle)
    requires Started(c) && Possible(c, acts)
    requires DeleteMsg(to, hs) in After(c, acts).sent && h in hs
    ensures !Lists(After(c, acts).world.master.store, p, h)
  {
    NobodyIsAheadOfTheMaster(c, acts);
    var s := After(c, acts).world.master.store;
    assert MsgBehind(s, DeleteMsg(to, hs));
    assert Lists(s, p, h) ==> h in Listed(s);
  }
}
