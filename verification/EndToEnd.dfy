/** Results that need the master's runs and the data plane together: what a location the
    master hands out is good for, and what becomes of a file whose last chunk is full. */
module EndToEnd {
  import opened Locations
  import opened Seqs
  import opened Wrappers
  import opened MasterState
  import opened MasterRuns
  import opened ChunkLists
  import CS = ChunkState
  import ClientCalls
  import FanOut
  import RecordAppend
  import Replication
  import WriteChain

  // ---- Locations ----

  /** A location the master hands out in some run. */
  ghost predicate HandedOut(w: World, es: seq<Event>, e: Event, at: Location) {
    && Fresh(w) && Legal(w, es) && CanStep(Exec(w, es), e) && e.op.Locate?
    && var m := Exec(w, es).master;
    GetChunkLocations(m, e.op.path, e.op.index, e.op.create, Drawn(m, e), e.now).1 == LocReply.Located(at)
  }

  /** Nobody is named twice, so such a location is a chain to write along and a primary
      with secondaries to append through. */
  lemma LocationIsChain(w: World, es: seq<Event>, e: Event, at: Location, data: CS.Bytes, outs: seq<CS.Outcome>)
    requires HandedOut(w, es, e, at) && |outs| == |at.secondaries| && |data| <= RecordAppend.MAX_RECORD
    ensures Distinct(Contacts(at))
    ensures RecordAppend.Allowed(RecordAppend.Setting(at.primary, at.handle),
        RecordAppend.Record(at.secondaries, data, at.version, outs))
  {
    FanOut.ReplyCoversHealthy(w, es, e);
    DistinctTail(Contacts(at));
    assert Contacts(at)[1..] == at.secondaries;
  }

  /** A write acknowledged along such a location is on every replica that was healthy when
      the master answered, and on the primary. */
  lemma {:induction false} AcknowledgedOnHealthy(w: World, es: seq<Event>, e: Event, at: Location, net: CS.Net,
                                                 head: CS.WriteHead, data: CS.Bytes, push: seq<CS.Outcome>,
                                                 commit: seq<CS.Outcome>, a: Addr)
    requires HandedOut(w, es, e, at) && head.handle == at.handle && |push| == |commit| == |Contacts(at)|
    requires forall b :: b in net ==> CS.KeyOf(head) !in net[b].buffer
    requires CS.ClientWrite(net, Contacts(at), head, data, push, commit).1.Written?
    requires var chunks := Apply(Exec(w, es).master, e).store.chunkMap;
      at.handle in chunks && var c := chunks[at.handle]; (a in c.replicas && a !in c.stale) || c.primary == Some(a)
    ensures var n := CS.ClientWrite(net, Contacts(at), head, data, push, commit).0;
      && a in net && a in n
      && n[a].files == net[a].files[head.handle := CS.Overlay(CS.FileOf(net[a].files, head.handle), head.offset, data)]
  {
    FanOut.ReplyCoversHealthy(w, es, e);
    WriteChain.AcknowledgedEverywhere(net, Contacts(at), head, data, push, commit, a);
  }

  // ---- A full last chunk ----

  /** The master goes from `w` through `es` and then answers an append's question with `at`. */
  ghost predicate AskedAgain(w: World, es: seq<Event>, e: Event, path: Path, at: Location) {
    && Legal(w, es) && CanStep(Exec(w, es), e)
    && Conserved(w.master.store) && ChunksOf(w.master.store, path) != []
    && e.op.Locate? && e.op.path == path && e.op.index == -1
    && GetChunkLocations(Exec(w, es).master, path, -1, e.op.create, Drawn(Exec(w, es).master, e), e.now).1 ==
         LocReply.Located(at)
  }

  /** What index -1 names when leave to create is given. */
  lemma LastNamed(m: Master, path: Path, create: bool, chosen: seq<Addr>, now: Time)
    requires Allocates(m, path, -1, create) ==> chosen != []
    requires GetChunkLocations(m, path, -1, create, chosen, now).1.Located?
    ensures GetChunkLocations(m, path, -1, create, chosen, now).1.at.handle ==
      if ChunksOf(m.store, path) == [] then m.store.nextHandle else Last(ChunksOf(m.store, path))
  {
  }

  /** The next append goes to the same chunk exactly when nobody meanwhile asked past the
      end of the file with leave to create, and no scan erased its list; else it goes to a
      chunk that was not there. */
  lemma SameChunkIff(w: World, es: seq<Event>, e: Event, path: Path, at: Location)
    requires AskedAgain(w, es, e, path, at)
    ensures at.handle == Last(ChunksOf(w.master.store, path)) <==> Untouched(w, es, path)
    ensures !Untouched(w, es, path) ==> at.handle >= w.master.store.nextHandle
  {
    LastChunkIff(w, es, path);
    LastNamed(Exec(w, es).master, path, e.op.create, Drawn(Exec(w, es).master, e), e.now);
  }

  /** A record is accepted exactly when it is no larger than a record may be, there is a
      primary, the call to it goes through, and the primary's copy has room for it. */
  lemma AcceptedIff(n: CS.Net, at: Location, data: CS.Bytes, call: CS.Outcome, outs: seq<CS.Outcome>)
    requires |outs| == |at.secondaries|
    ensures ClientCalls.ClientAppend(n, at, data, call, outs).1.AppendedAt? <==>
      && |data| <= RecordAppend.MAX_RECORD && at.primary != "" && CS.Answers(n, at.primary, call)
      && CS.Int32(|RecordAppend.File(n, at.primary, at.handle)| + |data|) <= CS.CHUNK_SIZE
  {
    RecordAppend.Int32Sum(|RecordAppend.File(n, at.primary, at.handle)|, |data|);
  }

  lemma RoomIff(n: CS.Net, at: Location, data: CS.Bytes, call: CS.Outcome, outs: seq<CS.Outcome>)
    requires |outs| == |at.secondaries| && |data| <= RecordAppend.MAX_RECORD
    requires |RecordAppend.File(n, at.primary, at.handle)| <= CS.CHUNK_SIZE
    ensures ClientCalls.ClientAppend(n, at, data, call, outs).1.AppendedAt? <==>
      at.primary != "" && CS.Answers(n, at.primary, call)
        && |RecordAppend.File(n, at.primary, at.handle)| + |data| <= CS.CHUNK_SIZE
  {
    AcceptedIff(n, at, data, call, outs);
    RecordAppend.Int32Small(|RecordAppend.File(n, at.primary, at.handle)| + |data|);
  }

  /** A run of appends and clones that leaves the primary's copy with its maximal size. */
  ghost predicate IsFull(g: RecordAppend.Setting, net: CS.Net, rs: seq<RecordAppend.Event>) {
    && g.primary in net && RecordAppend.AllowedAll(g, rs) && RecordAppend.Blank(net, g.handle)
    && |RecordAppend.File(RecordAppend.Run(g, net, rs), g.primary, g.handle)| == CS.CHUNK_SIZE
  }

  lemma {:induction false} FullAfter(g: RecordAppend.Setting, net: CS.Net, rs: seq<RecordAppend.Event>, i: nat)
    requires g.primary in net && RecordAppend.AllowedAll(g, rs) && RecordAppend.Blank(net, g.handle)
    requires i < |rs| && rs[i].Record? && RecordAppend.ReplyTo(g, net, rs, i).RetryOnNextChunk?
    ensures |RecordAppend.File(RecordAppend.Run(g, net, rs[..i + 1]), g.primary, g.handle)| == CS.CHUNK_SIZE
  {
    RecordAppend.ReplyTold(g, net, rs, i);
  }

  /** So does every run in which some append was answered that the chunk is full. */
  lemma {:induction false} FullByReply(g: RecordAppend.Setting, net: CS.Net, rs: seq<RecordAppend.Event>, i: nat)
    requires g.primary in net && RecordAppend.AllowedAll(g, rs) && RecordAppend.Blank(net, g.handle)
    requires i < |rs| && rs[i].Record? && RecordAppend.ReplyTo(g, net, rs, i).RetryOnNextChunk?
    ensures IsFull(g, net, rs)
  {
    FullAfter(g, net, rs, i);
    RecordAppend.LaterKeeps(g, net, rs, i + 1);
  }

  /** Then nobody's copy is larger, and one that is smaller has missed some block. */
  lemma {:induction false} NobodyLarger(g: RecordAppend.Setting, net: CS.Net, rs: seq<RecordAppend.Event>, a: Addr)
    requires IsFull(g, net, rs)
    ensures var n := RecordAppend.Run(g, net, rs);
      var mine, full := RecordAppend.File(n, a, g.handle), RecordAppend.File(n, g.primary, g.handle);
      |mine| <= CS.CHUNK_SIZE && (|mine| == CS.CHUNK_SIZE <==> mine == full)
  {
    if a in net && a != g.primary { RecordAppend.SecondariesHoldSubsequence(g, net, rs, a); }
  }

  /** The part of the next result that is about the chunkservers. */
  lemma RoomAfterFull(g: RecordAppend.Setting, net: CS.Net, rs: seq<RecordAppend.Event>, at: Location, data: CS.Bytes,
                      call: CS.Outcome, outs: seq<CS.Outcome>)
    requires IsFull(g, net, rs) && |outs| == |at.secondaries| && 0 < |data| <= RecordAppend.MAX_RECORD
    ensures var n := RecordAppend.Run(g, net, rs);
      var mine, full := RecordAppend.File(n, at.primary, at.handle), RecordAppend.File(n, g.primary, g.handle);
      var accepted := ClientCalls.ClientAppend(n, at, data, call, outs).1.AppendedAt?;
      && (|mine| <= CS.CHUNK_SIZE ==>
           (accepted <==> at.primary != "" && CS.Answers(n, at.primary, call) && |mine| + |data| <= CS.CHUNK_SIZE))
      && (at.handle == g.handle ==> |mine| <= CS.CHUNK_SIZE && (accepted ==> at.primary != g.primary && mine != full))
  {
    var n := RecordAppend.Run(g, net, rs);
    NobodyLarger(g, net, rs, at.primary);
    if |RecordAppend.File(n, at.primary, at.handle)| <= CS.CHUNK_SIZE { RoomIff(n, at, data, call, outs); }
  }

  /** What becomes of the promised retry on the next chunk. When the last chunk is full,
      however the master goes on: if the file's list is untouched, the next append is sent to
      the same chunk, and it is accepted exactly when it reaches a primary whose copy is short
      of blocks and has room for it - so never by the old primary, nor by any replica that
      missed nothing. If not, the append goes to a new chunk, and when its primary has nothing
      of it yet the record is accepted as soon as it gets through. */
  lemma {:induction false} RetryAcceptedIff(w: World, es: seq<Event>, e: Event, at: Location, path: Path,
                                            g: RecordAppend.Setting, net: CS.Net, rs: seq<RecordAppend.Event>,
                                            data: CS.Bytes, call: CS.Outcome, outs: seq<CS.Outcome>)
    requires AskedAgain(w, es, e, path, at) && Last(ChunksOf(w.master.store, path)) == g.handle && IsFull(g, net, rs)
    requires |outs| == |at.secondaries| && 0 < |data| <= RecordAppend.MAX_RECORD
    ensures var n := RecordAppend.Run(g, net, rs);
      var mine, full := RecordAppend.File(n, at.primary, at.handle), RecordAppend.File(n, g.primary, g.handle);
      var reached := at.primary != "" && CS.Answers(n, at.primary, call);
      var accepted := ClientCalls.ClientAppend(n, at, data, call, outs).1.AppendedAt?;
      && (at.handle == g.handle <==> Untouched(w, es, path))
      && (|mine| <= CS.CHUNK_SIZE ==> (accepted <==> reached && |mine| + |data| <= CS.CHUNK_SIZE))
      && (Untouched(w, es, path) ==> |mine| <= CS.CHUNK_SIZE && (accepted ==> at.primary != g.primary && mine != full))
      && (!Untouched(w, es, path) && mine == [] ==> (accepted <==> reached))
  {
    SameChunkIff(w, es, e, path, at);
    RoomAfterFull(g, net, rs, at, data, call, outs);
  }

  /** So while the list is untouched its primary refuses every record for ever. */
  lemma AppendsRefusedForEver(w: World, es: seq<Event>, e: Event, at: Location, path: Path, g: RecordAppend.Setting,
                              net: CS.Net, rs: seq<RecordAppend.Event>, data: CS.Bytes, call: CS.Outcome,
                              outs: seq<CS.Outcome>)
    requires AskedAgain(w, es, e, path, at) && Last(ChunksOf(w.master.store, path)) == g.handle && IsFull(g, net, rs)
    requires |outs| == |at.secondaries| && data != [] && Untouched(w, es, path) && at.primary == g.primary
    ensures !ClientCalls.ClientAppend(RecordAppend.Run(g, net, rs), at, data, call, outs).1.AppendedAt?
  {
    if |data| <= RecordAppend.MAX_RECORD { RetryAcceptedIff(w, es, e, at, path, g, net, rs, data, call, outs); }
  }

  // ---- A file that gets stuck ----

  /** The same append `k` times. */
  function Times(e: RecordAppend.Event, k: nat): seq<RecordAppend.Event> {
    seq(k, _ => e)
  }

  /** A record that is not empty, sent to an empty chunk again and again. */
  ghost predicate Filling(g: RecordAppend.Setting, net: CS.Net, e: RecordAppend.Event) {
    && g.primary in net && RecordAppend.Blank(net, g.handle)
    && e.Record? && RecordAppend.Allowed(g, e) && e.data != []
  }

  lemma OneRecordMore(g: RecordAppend.Setting, n: CS.Net, e: RecordAppend.Event)
    requires g.primary in n && e.Record? && RecordAppend.Allowed(g, e)
    requires |RecordAppend.File(n, g.primary, g.handle)| + |e.data| <= CS.CHUNK_SIZE
    ensures |RecordAppend.File(RecordAppend.Apply(g, n, e), g.primary, g.handle)| ==
      |RecordAppend.File(n, g.primary, g.handle)| + |e.data|
  {
    RecordAppend.ReplyMeans(n, g.primary, g.handle, e);
    RecordAppend.PrimaryStep(g, n, e);
  }

  /** The size of the chunk after `k` of them. */
  ghost function Filled(g: RecordAppend.Setting, net: CS.Net, e: RecordAppend.Event, k: nat): nat
    requires Filling(g, net, e)
  {
    |RecordAppend.File(RecordAppend.Run(g, net, Times(e, k)), g.primary, g.handle)|
  }

  lemma FillOne(g: RecordAppend.Setting, net: CS.Net, e: RecordAppend.Event, k: nat)
    requires Filling(g, net, e) && k > 0 && Filled(g, net, e, k - 1) + |e.data| <= CS.CHUNK_SIZE
    ensures Filled(g, net, e, k) == Filled(g, net, e, k - 1) + |e.data|
  {
    assert Init(Times(e, k)) == Times(e, k - 1) && Last(Times(e, k)) == e;
    OneRecordMore(g, RecordAppend.Run(g, net, Times(e, k - 1)), e);
  }

  lemma NoneYet(g: RecordAppend.Setting, net: CS.Net, e: RecordAppend.Event)
    requires Filling(g, net, e)
    ensures Filled(g, net, e, 0) == 0
  {
    assert Times(e, 0) == [];
  }

  lemma OneFewer(k: nat, size: nat)
    requires k > 0
    ensures k * size == (k - 1) * size + size
  {
  }

  lemma {:induction false} RecordsFill(g: RecordAppend.Setting, net: CS.Net, e: RecordAppend.Event, k: nat)
    requires Filling(g, net, e) && k * |e.data| <= CS.CHUNK_SIZE
    ensures Filled(g, net, e, k) == k * |e.data|
    decreases k
  {
    if k == 0 {
      NoneYet(g, net, e);
    } else {
      OneFewer(k, |e.data|);
      RecordsFill(g, net, e, k - 1);
      FillOne(g, net, e, k);
    }
  }

  lemma ReplyByFill(g: RecordAppend.Setting, net: CS.Net, e: RecordAppend.Event, k: nat, i: nat)
    requires Filling(g, net, e) && i < k
    ensures var r, before := RecordAppend.ReplyTo(g, net, Times(e, k), i), Filled(g, net, e, i);
      if before + |e.data| <= CS.CHUNK_SIZE then r == CS.Appended(before) else r == CS.RetryOnNextChunk
  {
    assert Times(e, k)[..i] == Times(e, i);
    RecordAppend.PrimaryBound(g, net, Times(e, i));
    RecordAppend.ReplyMeans(RecordAppend.Run(g, net, Times(e, i)), g.primary, g.handle, e);
  }

  lemma FilledBefore(g: RecordAppend.Setting, net: CS.Net, e: RecordAppend.Event, k: nat, i: nat)
    requires Filling(g, net, e) && i < k && k * |e.data| <= CS.CHUNK_SIZE
    ensures Filled(g, net, e, i) == i * |e.data| && Filled(g, net, e, i) + |e.data| <= CS.CHUNK_SIZE
  {
    assert (i + 1) * |e.data| <= k * |e.data|;
    OneFewer(i + 1, |e.data|);
    RecordsFill(g, net, e, i);
  }

  lemma {:induction false} ReplyAt(g: RecordAppend.Setting, net: CS.Net, e: RecordAppend.Event, k: nat, i: nat, at: int)
    requires Filling(g, net, e) && i < k && Filled(g, net, e, i) == at && at + |e.data| <= CS.CHUNK_SIZE
    ensures RecordAppend.ReplyTo(g, net, Times(e, k), i) == CS.Appended(at)
  {
    ReplyByFill(g, net, e, k, i);
  }

  lemma {:induction false} RepliesToFitting(g: RecordAppend.Setting, net: CS.Net, e: RecordAppend.Event, k: nat)
    requires Filling(g, net, e) && k * |e.data| <= CS.CHUNK_SIZE
    ensures forall i :: 0 <= i < k ==> RecordAppend.ReplyTo(g, net, Times(e, k + 1), i) == CS.Appended(i * |e.data|)
  {
    forall i | 0 <= i < k ensures RecordAppend.ReplyTo(g, net, Times(e, k + 1), i) == CS.Appended(i * |e.data|) {
      FilledBefore(g, net, e, k, i);
      ReplyAt(g, net, e, k + 1, i, i * |e.data|);
    }
  }

  /** As many records as fit, `k`, are answered with one offset after the other, and the
      next one is told to retry. */
  lemma {:induction false} OneTooMany(g: RecordAppend.Setting, net: CS.Net, e: RecordAppend.Event, k: nat)
    requires Filling(g, net, e) && k * |e.data| <= CS.CHUNK_SIZE < k * |e.data| + |e.data|
    ensures var rs := Times(e, k + 1);
      && (forall i :: 0 <= i < k ==> RecordAppend.ReplyTo(g, net, rs, i) == CS.Appended(i * |e.data|))
      && RecordAppend.ReplyTo(g, net, rs, k) == CS.RetryOnNextChunk
      && IsFull(g, net, rs)
  {
    RepliesToFitting(g, net, e, k);
    RecordsFill(g, net, e, k);
    ReplyByFill(g, net, e, k + 1, k);
    FullByReply(g, net, Times(e, k + 1), k);
  }

  /** How many records of `size` bytes fit into a chunk. */
  function Room(size: int): (k: nat)
    requires 0 < size <= CS.CHUNK_SIZE
    ensures k * size <= CS.CHUNK_SIZE < k * size + size
  {
    CS.CHUNK_SIZE / size
  }

  /** The location of an append to the file of `Replication.FilePlaced`. */
  lemma {:induction false} AskedOfPlaced(w: World, es: seq<Event>, a: Addr, b: Addr, c: Addr)
    returns (e: Event, at: Location)
    requires Fresh(w) && Legal(w, es) && Exec(w, es) == World(Replication.Placed(a, b, c), 1)
    ensures AskedAgain(Exec(w, es), [], e, "/f", at) && HandedOut(w, es, e, at)
    ensures at.handle == 1 && at.primary == a && Last(ChunksOf(Exec(w, es).master.store, "/f")) == 1
    ensures Untouched(Exec(w, es), [], "/f")
  {
    FreshConserved(w);
    HandlesConserved(w, es);
    e := Event(1, Locate("/f", -1, true, []));
    at := GetChunkLocations(Exec(w, es).master, "/f", -1, true, [], 1).1.at;
  }

  /** From a new master: three servers, a file with one chunk on them, one record of any
      size appended once more often than it fits, and no record is accepted at the
      location the master gives for the next. */
  lemma {:induction false} StuckFile(a: Addr, b: Addr, c: Addr, net: CS.Net, data: CS.Bytes)
    returns (es: seq<Event>, e: Event, at: Location)
    requires a != b && b != c && a != c && a != "" && a in net && RecordAppend.Blank(net, 1)
    requires 0 < |data| <= RecordAppend.MAX_RECORD
    ensures var w, g := World(NEW_MASTER, 0), RecordAppend.Setting(a, 1);
      && Legal(w, es) && AskedAgain(Exec(w, es), [], e, "/f", at) && at.handle == 1 && at.primary == a
      && var outs := seq(|at.secondaries|, _ => CS.Delivered);
      var rs := Times(RecordAppend.Record(at.secondaries, data, at.version, outs), Room(|data|) + 1);
      && IsFull(g, net, rs)
      && (forall more, call | more != [] ::
           !ClientCalls.ClientAppend(RecordAppend.Run(g, net, rs), at, more, call, outs).1.AppendedAt?)
  {
    var w, g := World(NEW_MASTER, 0), RecordAppend.Setting(a, 1);
    es := Replication.ThreeServers(w, a, b, c);
    es := Replication.FilePlaced(w, es, a, b, c);
    e, at := AskedOfPlaced(w, es, a, b, c);
    var outs := seq(|at.secondaries|, _ => CS.Delivered);
    var r := RecordAppend.Record(at.secondaries, data, at.version, outs);
    var rs := Times(r, Room(|data|) + 1);
    LocationIsChain(w, es, e, at, data, outs);
    OneTooMany(g, net, r, Room(|data|));
    forall more: CS.Bytes, call | more != []
      ensures !ClientCalls.ClientAppend(RecordAppend.Run(g, net, rs), at, more, call, outs).1.AppendedAt?
    {
      AppendsRefusedForEver(Exec(w, es), [], e, at, "/f", g, net, rs, more, call, outs);
    }
  }

  // ---- Chunks that outgrew their size ----

  /** A commit that writes past the end of the chunk. */
  predicate Overgrows(s: CS.Server, m: WriteChain.Arrival, h: Handle) {
    m.CommitArrives? && m.head.handle == h && CS.KeyOf(m.head) in s.buffer &&
    var data := s.buffer[CS.KeyOf(m.head)].data;
    data != [] && m.head.offset + |data| > CS.CHUNK_SIZE
  }

  lemma OverlaySize(file: CS.Bytes, offset: nat, data: CS.Bytes)
    ensures |CS.Overlay(file, offset, data)| == if data != [] && offset + |data| > |file| then offset + |data|
      else |file|
  {
  }

  /** An append never shrinks a chunk and never makes it larger than it may be. */
  lemma AppendSize(s: CS.Server, h: Handle, data: CS.Bytes, version: int, k: Handle)
    requires |data| <= CS.CHUNK_SIZE
    ensures var before, after := |CS.FileOf(s.files, k)|, |CS.FileOf(CS.AppendLocal(s, h, data, version).0.files, k)|;
      before <= after && (before <= CS.CHUNK_SIZE ==> after <= CS.CHUNK_SIZE)
  {
    var file := CS.FileOf(s.files, h);
    if |file| <= CS.CHUNK_SIZE {
      RecordAppend.Fits(|file|, |data|);
      OverlaySize(file, |file|, CS.Block(file, data));
    }
  }

  lemma CommitSize(s: CS.Server, w: CS.WriteHead, h: Handle)
    ensures var before, after := |CS.FileOf(s.files, h)|, |CS.FileOf(CS.CommitLocal(s, w).0.files, h)|;
      before <= after
        && (before <= CS.CHUNK_SIZE ==> (after > CS.CHUNK_SIZE <==> Overgrows(s, WriteChain.CommitArrives(w), h)))
  {
    if CS.KeyOf(w) in s.buffer { OverlaySize(CS.FileOf(s.files, w.handle), w.offset, s.buffer[CS.KeyOf(w)].data); }
  }

  lemma ArrivalSize(s: CS.Server, m: WriteChain.Arrival, h: Handle)
    requires m.AppendArrives? ==> |m.data| <= CS.CHUNK_SIZE
    ensures var before, after := |CS.FileOf(s.files, h)|, |CS.FileOf(WriteChain.Arrive(s, m).files, h)|;
      if m.DeleteArrives? && h in m.handles then after == 0
      else before <= after && (before <= CS.CHUNK_SIZE ==> (after > CS.CHUNK_SIZE <==> Overgrows(s, m, h)))
  {
    match m
    case PushArrives(_, _) =>
    case CommitArrives(w) => CommitSize(s, w, h);
    case AppendArrives(k, data, version) => AppendSize(s, k, data, version, h);
    case DeleteArrives(_) =>
  }

  /** Some commit wrote past the end, and the chunk was not deleted since. */
  predicate SomeOvergrew(s: CS.Server, ms: seq<WriteChain.Arrival>, h: Handle)
    decreases |ms|
  {
    && ms != []
    && (Overgrows(WriteChain.ArriveAll(s, Init(ms)), Last(ms), h) ||
        (SomeOvergrew(s, Init(ms), h) && !(Last(ms).DeleteArrives? && h in Last(ms).handles)))
  }

  /** On one server, whatever arrives in whatever order, a chunk is larger than a chunk may
      be exactly when some commit wrote past its end and it was not deleted since; the
      client does not split writes. */
  lemma {:induction false} OvergrownIff(s: CS.Server, ms: seq<WriteChain.Arrival>, h: Handle)
    requires |CS.FileOf(s.files, h)| <= CS.CHUNK_SIZE
    requires forall i :: 0 <= i < |ms| && ms[i].AppendArrives? ==> |ms[i].data| <= CS.CHUNK_SIZE
    ensures |CS.FileOf(WriteChain.ArriveAll(s, ms).files, h)| > CS.CHUNK_SIZE <==> SomeOvergrew(s, ms, h)
    decreases |ms|
  {
    if ms != [] {
      OvergrownIff(s, Init(ms), h);
      ArrivalSize(WriteChain.ArriveAll(s, Init(ms)), Last(ms), h);
    }
  }

  lemma ThrowsIff(s: CS.Server, h: Handle, record: CS.Bytes, version: int)
    ensures var sum := |CS.FileOf(s.files, h)| + |record|;
      && (CS.AppendLocal(s, h, record, version).1.AppendError? <==>
           |CS.FileOf(s.files, h)| > CS.CHUNK_SIZE && CS.Int32(sum) > CS.CHUNK_SIZE)
      && (sum < 0x8000_0000 ==> CS.Int32(sum) == sum)
  {
    RecordAppend.Int32Sum(|CS.FileOf(s.files, h)|, |record|);
  }

  /** And exactly then the append handler throws instead of padding, unless the 32-bit sum
      of size and record wraps. */
  lemma AppendThrowsIff(s: CS.Server, ms: seq<WriteChain.Arrival>, h: Handle, record: CS.Bytes, version: int)
    requires |CS.FileOf(s.files, h)| <= CS.CHUNK_SIZE
    requires forall i :: 0 <= i < |ms| && ms[i].AppendArrives? ==> |ms[i].data| <= CS.CHUNK_SIZE
    ensures var t := WriteChain.ArriveAll(s, ms); var sum := |CS.FileOf(t.files, h)| + |record|;
      && (CS.AppendLocal(t, h, record, version).1.AppendError? <==>
           SomeOvergrew(s, ms, h) && CS.Int32(sum) > CS.CHUNK_SIZE)
      && (sum < 0x8000_0000 ==> CS.Int32(sum) == sum)
  {
    OvergrownIff(s, ms, h);
    ThrowsIff(WriteChain.ArriveAll(s, ms), h, record, version);
  }
}
