/** Record appends through one primary, with clones from it, under any pattern of lost
    messages: what each replica holds and what an acknowledged append is worth. */
module RecordAppend {
  import opened Locations
  import opened Seqs
  import opened ChunkState

  /** The largest record the client library sends. */
  const MAX_RECORD: int := 16 * 1024 * 1024

  // ---- Subsequences of blocks ----

  /** `xs` is `ys` with some blocks left out, the order kept. */
  predicate Subsequence(xs: seq<Bytes>, ys: seq<Bytes>)
    decreases |ys|
  {
    if ys == [] then xs == []
    else Subsequence(xs, Init(ys)) || (xs != [] && Last(xs) == Last(ys) && Subsequence(Init(xs), Init(ys)))
  }

  lemma SubsequenceGrows(xs: seq<Bytes>, ys: seq<Bytes>, b: Bytes)
    requires Subsequence(xs, ys)
    ensures Subsequence(xs, ys + [b])
    ensures Subsequence(xs + [b], ys + [b])
  {
    assert Init(ys + [b]) == ys && Init(xs + [b]) == xs;
  }

  lemma {:induction false} SubsequenceOfItself(xs: seq<Bytes>)
    ensures Subsequence(xs, xs)
    decreases |xs|
  {
    if xs != [] { SubsequenceOfItself(Init(xs)); }
  }

  /** Leaving blocks out makes the bytes fewer, unless only empty blocks are left out. */
  lemma {:induction false} SubsequenceSize(xs: seq<Bytes>, ys: seq<Bytes>)
    requires Subsequence(xs, ys)
    ensures |Concat(xs)| <= |Concat(ys)|
    ensures |Concat(xs)| == |Concat(ys)| ==> Concat(xs) == Concat(ys)
    decreases |ys|
  {
    if ys != [] {
      if Subsequence(xs, Init(ys)) {
        SubsequenceSize(xs, Init(ys));
      } else {
        SubsequenceSize(Init(xs), Init(ys));
      }
    }
  }

  lemma ConcatAppend(xs: seq<Bytes>, b: Bytes)
    ensures Concat(xs + [b]) == Concat(xs) + b
  {
    assert Init(xs + [b]) == xs;
  }

  // ---- Runs ----

  datatype Event =
    | Record(secondaries: seq<Addr>, data: Bytes, version: int, outs: seq<Outcome>)
    | CloneTo(target: Addr, version: int, push: Outcome, commit: Outcome)

  /** One chunk, and the server that is its primary throughout. */
  datatype Setting = Setting(primary: Addr, handle: Handle)

  /** The client library bounds records; a location reply names every secondary once
      and leaves the primary out. */
  ghost predicate Allowed(g: Setting, e: Event) {
    match e
    case Record(secondaries, data, _, outs) =>
      |outs| == |secondaries| && Distinct(secondaries) && g.primary !in secondaries && |data| <= MAX_RECORD
    case CloneTo(target, _, _, _) => target != g.primary
  }

  ghost predicate AllowedAll(g: Setting, es: seq<Event>) {
    forall i :: 0 <= i < |es| ==> Allowed(g, es[i])
  }

  function File(net: Net, a: Addr, h: Handle): Bytes {
    if a in net then FileOf(net[a].files, h) else []
  }

  ghost function Apply(g: Setting, net: Net, e: Event): Net
    requires g.primary in net && Allowed(g, e)
  {
    match e
    case Record(secondaries, data, version, outs) =>
      Append(net, g.primary, secondaries, g.handle, data, version, outs).0
    case CloneTo(target, version, push, commit) =>
      Clone(net, g.primary, target, g.handle, version, push, commit).0
  }

  lemma {:induction false} ForwardKeepsServers(net: Net, secondaries: seq<Addr>, h: Handle, block: Bytes, version: int,
                                               outs: seq<Outcome>)
    requires |outs| == |secondaries|
    ensures ForwardBlock(net, secondaries, h, block, version, outs).Keys == net.Keys
    decreases |secondaries|
  {
    if secondaries != [] {
      var a := secondaries[0];
      var net' := if Reaches(net, a, outs[0]) then net[a := AppendLocal(net[a], h, block, version).0] else net;
      ForwardKeepsServers(net', secondaries[1..], h, block, version, outs[1..]);
    }
  }

  lemma ApplyKeepsServers(g: Setting, net: Net, e: Event)
    requires g.primary in net && Allowed(g, e)
    ensures Apply(g, net, e).Keys == net.Keys
  {
    if e.Record? {
      var file := FileOf(net[g.primary].files, g.handle);
      var (s, reply) := AppendLocal(net[g.primary], g.handle, e.data, e.version);
      ForwardKeepsServers(net[g.primary := s], e.secondaries, g.handle, Block(file, e.data),
        if reply.Appended? then e.version else 0, e.outs);
    }
  }

  ghost function Run(g: Setting, net: Net, es: seq<Event>): (n: Net)
    requires g.primary in net && AllowedAll(g, es)
    ensures n.Keys == net.Keys
    decreases |es|
  {
    if es == [] then net
    else
      ApplyKeepsServers(g, Run(g, net, Init(es)), Last(es));
      Apply(g, Run(g, net, Init(es)), Last(es))
  }

  /** The blocks the primary committed: the records that fit, and the padding. */
  ghost function Blocks(g: Setting, net: Net, es: seq<Event>): seq<Bytes>
    requires g.primary in net && AllowedAll(g, es)
    decreases |es|
  {
    if es == [] then []
    else
      Blocks(g, net, Init(es)) +
        if Last(es).Record? then [Block(File(Run(g, net, Init(es)), g.primary, g.handle), Last(es).data)] else []
  }

  /** Did the block forwarded in this append reach `a`? */
  predicate Got(net: Net, secondaries: seq<Addr>, outs: seq<Outcome>, a: Addr)
    requires |outs| == |secondaries|
  {
    exists i :: 0 <= i < |secondaries| && secondaries[i] == a && Reaches(net, a, outs[i])
  }

  /** Did the clone reach the target's disk? */
  predicate CloneLands(net: Net, source: Addr, h: Handle, target: Addr, push: Outcome, commit: Outcome) {
    File(net, source, h) != [] && Answers(net, target, push) && Reaches(net, target, commit)
  }

  /** The blocks that reached `a`: one by one, or all at once with a clone. */
  ghost function Received(g: Setting, net: Net, es: seq<Event>, a: Addr): seq<Bytes>
    requires g.primary in net && AllowedAll(g, es)
    decreases |es|
  {
    if es == [] then []
    else
      var n, e, before := Run(g, net, Init(es)), Last(es), Received(g, net, Init(es), a);
      match e
      case Record(secondaries, data, _, outs) =>
        if Got(n, secondaries, outs, a) then before + [Block(File(n, g.primary, g.handle), data)] else before
      case CloneTo(target, _, push, commit) =>
        if a == target && CloneLands(n, g.primary, g.handle, target, push, commit) then Blocks(g, net, Init(es))
          else before
  }

  // ---- One step ----

  lemma Int32Small(x: int)
    requires -0x8000_0000 <= x < 0x8000_0000
    ensures Int32(x) == x
  {
  }

  lemma Int32Shift(x: int, k: int)
    ensures Int32(x + 0x1_0000_0000 * k) == Int32(x)
  {
  }

  /** Sums of 32-bit values may be cut down to 32 bits early or late. */
  lemma Int32Sum(a: int, b: int)
    ensures Int32(Int32(a) + Int32(b)) == Int32(a + b)
  {
    var i, j := (a + 0x8000_0000) / 0x1_0000_0000, (b + 0x8000_0000) / 0x1_0000_0000;
    assert Int32(a) == a - 0x1_0000_0000 * i && Int32(b) == b - 0x1_0000_0000 * j;
    Int32Shift(a + b - 0x1_0000_0000 * (i + j), i + j);
  }

  lemma Fits(size: int, record: int)
    requires 0 <= size <= CHUNK_SIZE && 0 <= record <= CHUNK_SIZE
    ensures Overflows(size, record) <==> size + record > CHUNK_SIZE
  {
    Int32Small(size);
    Int32Small(record);
    Int32Small(size + record);
  }

  lemma BlockFits(file: Bytes, data: Bytes)
    requires |file| <= CHUNK_SIZE && |data| <= CHUNK_SIZE
    ensures |file| + |Block(file, data)| <= CHUNK_SIZE
  {
    Fits(|file|, |data|);
  }

  lemma OverlayAtEnd(file: Bytes, data: Bytes)
    ensures Overlay(file, |file|, data) == file + data
  {
  }

  /** At the primary an append adds exactly its block, and at a server that has room for
      the block it adds the block as well. */
  lemma AppendAddsBlock(s: Server, h: Handle, data: Bytes, version: int)
    requires |FileOf(s.files, h)| <= CHUNK_SIZE && |data| <= CHUNK_SIZE
    ensures var file := FileOf(s.files, h); var (t, reply) := AppendLocal(s, h, data, version);
      && !reply.AppendError?
      && t.files == s.files[h := file + Block(file, data)]
      && (|file| + |data| <= CHUNK_SIZE ==> Block(file, data) == data && reply == Appended(|file|))
  {
    var file := FileOf(s.files, h);
    Fits(|file|, |data|);
    OverlayAtEnd(file, Block(file, data));
  }

  lemma {:induction false} NotForwarded(net: Net, secondaries: seq<Addr>, h: Handle, block: Bytes, version: int,
                                        outs: seq<Outcome>, a: Addr)
    requires |outs| == |secondaries| && a in net && a !in secondaries
    ensures var n := ForwardBlock(net, secondaries, h, block, version, outs);
      a in n && n[a] == net[a]
    decreases |secondaries|
  {
    if secondaries != [] {
      var b := secondaries[0];
      var net' := if Reaches(net, b, outs[0]) then net[b := AppendLocal(net[b], h, block, version).0] else net;
      NotForwarded(net', secondaries[1..], h, block, version, outs[1..], a);
    }
  }

  lemma {:induction false} ForwardReaches(net: Net, secondaries: seq<Addr>, h: Handle, block: Bytes, version: int,
                                          outs: seq<Outcome>, a: Addr)
    requires |outs| == |secondaries| && Distinct(secondaries)
    requires a in net && |FileOf(net[a].files, h)| + |block| <= CHUNK_SIZE
    ensures var n := ForwardBlock(net, secondaries, h, block, version, outs);
      a in n && FileOf(n[a].files, h) == FileOf(net[a].files, h) + if Got(net, secondaries, outs, a) then block else []
    decreases |secondaries|
  {
    if secondaries != [] {
      var b, rest := secondaries[0], secondaries[1..];
      DistinctTail(secondaries);
      var net' := if Reaches(net, b, outs[0]) then net[b := AppendLocal(net[b], h, block, version).0] else net;
      assert secondaries == [b] + rest && outs == [outs[0]] + outs[1..];
      if a == b {
        AppendAddsBlock(net[a], h, block, version);
        NotForwarded(net', rest, h, block, version, outs[1..], a);
      } else {
        ForwardReaches(net', rest, h, block, version, outs[1..], a);
        assert Got(net, secondaries, outs, a) <==> Got(net', rest, outs[1..], a);
      }
    }
  }

  // ---- The invariant ----

  /** The primary holds all its blocks, every other server a subsequence of them. */
  ghost predicate Holding(g: Setting, net: Net, es: seq<Event>)
    requires g.primary in net && AllowedAll(g, es)
  {
    var n, blocks := Run(g, net, es), Blocks(g, net, es);
    && File(n, g.primary, g.handle) == Concat(blocks)
    && |Concat(blocks)| <= CHUNK_SIZE
    && (forall a :: a in net && a != g.primary ==>
         File(n, a, g.handle) == Concat(Received(g, net, es, a)) && Subsequence(Received(g, net, es, a), blocks))
  }

  lemma RecordStep(g: Setting, net: Net, es: seq<Event>)
    requires g.primary in net && AllowedAll(g, es) && es != [] && Last(es).Record?
    requires AllowedAll(g, Init(es)) && Holding(g, net, Init(es))
    ensures Holding(g, net, es)
  {
    var n, e := Run(g, net, Init(es)), Last(es);
    var file, blocks := File(n, g.primary, g.handle), Blocks(g, net, Init(es));
    var block := Block(file, e.data);
    var (s, reply) := AppendLocal(n[g.primary], g.handle, e.data, e.version);
    AppendAddsBlock(n[g.primary], g.handle, e.data, e.version);
    BlockFits(file, e.data);
    ConcatAppend(blocks, block);
    var n1 := n[g.primary := s];
    var v := if reply.Appended? then e.version else 0;
    NotForwarded(n1, e.secondaries, g.handle, block, v, e.outs, g.primary);
    forall a | a in net && a != g.primary
      ensures File(Run(g, net, es), a, g.handle) == Concat(Received(g, net, es, a))
      ensures Subsequence(Received(g, net, es, a), Blocks(g, net, es))
    {
      var before := Received(g, net, Init(es), a);
      SubsequenceSize(before, blocks);
      ForwardReaches(n1, e.secondaries, g.handle, block, v, e.outs, a);
      assert Got(n1, e.secondaries, e.outs, a) <==> Got(n, e.secondaries, e.outs, a);
      ConcatAppend(before, block);
      SubsequenceGrows(before, blocks, block);
    }
  }

  /** `data` in front of what `file` had beyond it. */
  function OnTop(data: Bytes, file: Bytes): Bytes {
    data + if |data| < |file| then file[|data|..] else []
  }

  lemma CommitAtFront(s: Server, h: Handle, version: int, data: Bytes)
    ensures var w := CloneHead(h, version); var (t, ok) := CommitLocal(PushLocal(s, w, data), w);
      ok && (data != [] ==> FileOf(t.files, h) == OnTop(data, FileOf(s.files, h)))
    ensures PushLocal(s, CloneHead(h, version), data).files == s.files
  {
    var file := FileOf(s.files, h);
    if data != [] {
      assert file[..0] == [];
      assert Overlay(file, 0, data) == OnTop(data, file);
    }
  }

  /** A clone that lands leaves the source's bytes, then whatever the target had beyond
      them; it changes nobody else. */
  lemma CloneCopies(net: Net, source: Addr, target: Addr, h: Handle, version: int, push: Outcome, commit: Outcome)
    requires source in net
    ensures var (n, ok) := Clone(net, source, target, h, version, push, commit);
      var data := File(net, source, h);
      && (ok ==> CloneLands(net, source, h, target, push, commit))
      && (forall a :: a in net && a != target ==> a in n && n[a] == net[a])
      && (target in net ==>
           File(n, target, h) ==
             if CloneLands(net, source, h, target, push, commit) then OnTop(data, File(net, target, h))
               else File(net, target, h))
  {
    if target in net { CommitAtFront(net[target], h, version, File(net, source, h)); }
  }

  /** A successful clone makes the target equal to the source exactly when the target
      was not the longer one; CopyChunkTo never truncates. */
  lemma CloneRepairsIff(net: Net, source: Addr, target: Addr, h: Handle, version: int, push: Outcome, commit: Outcome)
    requires source in net && source != target
    requires Clone(net, source, target, h, version, push, commit).1
    ensures var n := Clone(net, source, target, h, version, push, commit).0;
      File(n, target, h) == File(n, source, h) <==> |File(net, target, h)| <= |File(net, source, h)|
  {
    CloneCopies(net, source, target, h, version, push, commit);
  }

  lemma CloneStep(g: Setting, net: Net, es: seq<Event>)
    requires g.primary in net && AllowedAll(g, es) && es != [] && Last(es).CloneTo?
    requires AllowedAll(g, Init(es)) && Holding(g, net, Init(es))
    ensures Holding(g, net, es)
  {
    var n, e := Run(g, net, Init(es)), Last(es);
    var blocks := Blocks(g, net, Init(es));
    CloneCopies(n, g.primary, e.target, g.handle, e.version, e.push, e.commit);
    assert Blocks(g, net, es) == blocks;
    forall a | a in net && a != g.primary
      ensures File(Run(g, net, es), a, g.handle) == Concat(Received(g, net, es, a))
      ensures Subsequence(Received(g, net, es, a), blocks)
    {
      SubsequenceSize(Received(g, net, Init(es), a), blocks);
      SubsequenceOfItself(blocks);
    }
  }

  /** No server holds the chunk yet. */
  predicate Blank(net: Net, h: Handle) {
    forall a :: a in net ==> FileOf(net[a].files, h) == []
  }

  lemma {:induction false} RunHolds(g: Setting, net: Net, es: seq<Event>)
    requires g.primary in net && AllowedAll(g, es) && Blank(net, g.handle)
    ensures Holding(g, net, es)
    decreases |es|
  {
    if es != [] {
      RunHolds(g, net, Init(es));
      if Last(es).Record? { RecordStep(g, net, es); } else { CloneStep(g, net, es); }
    }
  }

  // ---- What replicas hold ----

  /** After any appends and clones through one primary, with any messages lost: a
      secondary holds, in order, exactly the blocks that reached it; it is never longer
      than the primary, nobody outgrows the chunk size, and a secondary as long as the
      primary is equal to it. */
  lemma SecondariesHoldSubsequence(g: Setting, net: Net, es: seq<Event>, a: Addr)
    requires g.primary in net && AllowedAll(g, es) && Blank(net, g.handle)
    requires a in net && a != g.primary
    ensures var n := Run(g, net, es); var mine, primary := File(n, a, g.handle), File(n, g.primary, g.handle);
      && primary == Concat(Blocks(g, net, es))
      && mine == Concat(Received(g, net, es, a))
      && Subsequence(Received(g, net, es, a), Blocks(g, net, es))
      && |mine| <= |primary| <= CHUNK_SIZE
      && (mine == primary <==> |mine| == |primary|)
  {
    RunHolds(g, net, es);
    SubsequenceSize(Received(g, net, es, a), Blocks(g, net, es));
  }

  /** In such runs a clone from the non-empty primary that reports success makes its
      target equal to the primary, whatever the target had missed. */
  lemma {:induction false} CloneCatchesUp(g: Setting, net: Net, es: seq<Event>, target: Addr, version: int,
                                          push: Outcome, commit: Outcome)
    requires g.primary in net && AllowedAll(g, es) && Blank(net, g.handle)
    requires target in net && target != g.primary
    requires Clone(Run(g, net, es), g.primary, target, g.handle, version, push, commit).1
    ensures var n := Clone(Run(g, net, es), g.primary, target, g.handle, version, push, commit).0;
      File(n, target, g.handle) == File(n, g.primary, g.handle) == File(Run(g, net, es), g.primary, g.handle)
  {
    SecondariesHoldSubsequence(g, net, es, target);
    CloneRepairsIff(Run(g, net, es), g.primary, target, g.handle, version, push, commit);
    CloneCopies(Run(g, net, es), g.primary, target, g.handle, version, push, commit);
  }

  /** No 32-bit sum in the handlers overflows in such runs. */
  lemma {:induction false} SumsStaySmall(g: Setting, net: Net, es: seq<Event>, a: Addr, record: Bytes)
    requires g.primary in net && AllowedAll(g, es) && Blank(net, g.handle) && a in net
    requires |record| <= CHUNK_SIZE
    ensures var size := |File(Run(g, net, es), a, g.handle)|;
      size + |record| < 0x8000_0000 && (Overflows(size, |record|) <==> size + |record| > CHUNK_SIZE)
  {
    RunHolds(g, net, es);
    if a != g.primary { SecondariesHoldSubsequence(g, net, es, a); }
    Fits(|File(Run(g, net, es), a, g.handle)|, |record|);
  }

  // ---- What an acknowledgement is worth ----

  /** The answer to the `i`-th event, an append. */
  ghost function ReplyTo(g: Setting, net: Net, es: seq<Event>, i: nat): AppendReply
    requires g.primary in net && AllowedAll(g, es) && i < |es| && es[i].Record?
  {
    Append(Run(g, net, es[..i]), g.primary, es[i].secondaries, g.handle, es[i].data, es[i].version, es[i].outs).1
  }

  lemma PrimaryStep(g: Setting, n: Net, e: Event)
    requires g.primary in n && Allowed(g, e) && |File(n, g.primary, g.handle)| <= CHUNK_SIZE
    ensures var file := File(n, g.primary, g.handle);
      File(Apply(g, n, e), g.primary, g.handle) == file + if e.Record? then Block(file, e.data) else []
  {
    var file := File(n, g.primary, g.handle);
    if e.Record? {
      var (s, reply) := AppendLocal(n[g.primary], g.handle, e.data, e.version);
      AppendAddsBlock(n[g.primary], g.handle, e.data, e.version);
      NotForwarded(n[g.primary := s], e.secondaries, g.handle, Block(file, e.data),
        if reply.Appended? then e.version else 0, e.outs, g.primary);
    } else {
      CloneCopies(n, g.primary, e.target, g.handle, e.version, e.push, e.commit);
    }
  }

  lemma {:induction false} PrimaryBound(g: Setting, net: Net, es: seq<Event>)
    requires g.primary in net && AllowedAll(g, es) && Blank(net, g.handle)
    ensures |File(Run(g, net, es), g.primary, g.handle)| <= CHUNK_SIZE
  {
    RunHolds(g, net, es);
  }

  lemma {:induction false} PrimaryOnlyGrows(g: Setting, net: Net, es: seq<Event>, i: nat)
    requires g.primary in net && AllowedAll(g, es) && Blank(net, g.handle) && i <= |es|
    ensures File(Run(g, net, es[..i]), g.primary, g.handle) <= File(Run(g, net, es), g.primary, g.handle)
    decreases |es|
  {
    if i == |es| {
      assert es[..i] == es;
    } else {
      assert Init(es)[..i] == es[..i];
      PrimaryOnlyGrows(g, net, Init(es), i);
      PrimaryBound(g, net, Init(es));
      PrimaryStep(g, Run(g, net, Init(es)), Last(es));
    }
  }

  /** The primary's answer to one append. */
  lemma ReplyMeans(n: Net, primary: Addr, h: Handle, e: Event)
    requires primary in n && e.Record? && |e.outs| == |e.secondaries| && |e.data| <= CHUNK_SIZE
    requires |File(n, primary, h)| <= CHUNK_SIZE
    ensures var file := File(n, primary, h); var r := Append(n, primary, e.secondaries, h, e.data, e.version, e.outs).1;
      if |file| + |e.data| <= CHUNK_SIZE then r == Appended(|file|) && Block(file, e.data) == e.data
      else r == RetryOnNextChunk && Block(file, e.data) == ZeroBytes(CHUNK_SIZE - |file|)
  {
    AppendAddsBlock(n[primary], h, e.data, e.version);
    Fits(|File(n, primary, h)|, |e.data|);
  }

  /** The answer to one append of a run, and the primary's bytes right after it. */
  lemma {:induction false} ReplyTold(g: Setting, net: Net, es: seq<Event>, i: nat)
    requires g.primary in net && AllowedAll(g, es) && Blank(net, g.handle)
    requires i < |es| && es[i].Record?
    ensures var r, data := ReplyTo(g, net, es, i), es[i].data;
      var before, next := File(Run(g, net, es[..i]), g.primary, g.handle),
        File(Run(g, net, es[..i + 1]), g.primary, g.handle);
      && |before| <= CHUNK_SIZE
      && if |before| + |data| <= CHUNK_SIZE then r == Appended(|before|) && next == before + data
         else r == RetryOnNextChunk && next == before + ZeroBytes(CHUNK_SIZE - |before|)
  {
    assert Init(es[..i + 1]) == es[..i] && Last(es[..i + 1]) == es[i];
    var n := Run(g, net, es[..i]);
    PrimaryBound(g, net, es[..i]);
    ReplyMeans(n, g.primary, g.handle, es[i]);
    PrimaryStep(g, n, es[i]);
  }

  /** Later events only add to the primary, and nothing to a full chunk. */
  lemma LaterKeeps(g: Setting, net: Net, es: seq<Event>, i: nat)
    requires g.primary in net && AllowedAll(g, es) && Blank(net, g.handle) && i <= |es|
    ensures var next, last := File(Run(g, net, es[..i]), g.primary, g.handle),
      File(Run(g, net, es), g.primary, g.handle);
      next <= last && (|next| >= CHUNK_SIZE ==> last == next)
  {
    PrimaryOnlyGrows(g, net, es, i);
    PrimaryBound(g, net, es);
  }

  /** An append that fits is answered with the old length, and the record stays at that
      offset through all later appends and clones. One that does not fit is told to
      retry; it left only padding, and the full chunk never changes again. */
  lemma AcknowledgedRecordStays(g: Setting, net: Net, es: seq<Event>, i: nat)
    requires g.primary in net && AllowedAll(g, es) && Blank(net, g.handle)
    requires i < |es| && es[i].Record?
    ensures var r, data := ReplyTo(g, net, es, i), es[i].data;
      var before, last := File(Run(g, net, es[..i]), g.primary, g.handle), File(Run(g, net, es), g.primary, g.handle);
      if |before| + |data| <= CHUNK_SIZE then r == Appended(|before|) && before + data <= last
      else r == RetryOnNextChunk && last == before + ZeroBytes(CHUNK_SIZE - |before|)
  {
    ReplyTold(g, net, es, i);
    LaterKeeps(g, net, es, i + 1);
  }
}
