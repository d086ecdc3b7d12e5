/** Record appends when the primary changes between them: what every server keeps, which
    replicas a clone can repair, and when an acknowledged record survives. */
module PrimaryChange {
  import opened Locations
  import opened Seqs
  import opened ChunkState
  import opened RecordAppend

  /** No copy of the chunk is larger than it may be. */
  ghost predicate Bounded(net: Net, h: Handle) {
    forall a :: a in net ==> |FileOf(net[a].files, h)| <= CHUNK_SIZE
  }

  // ---- One step, whoever holds what ----

  /** A forwarded block goes to the end of whatever the server has, or pads it. */
  lemma {:induction false} ForwardAdds(net: Net, secondaries: seq<Addr>, h: Handle, block: Bytes, version: int,
                                       outs: seq<Outcome>, a: Addr)
    requires |outs| == |secondaries| && Distinct(secondaries) && |block| <= CHUNK_SIZE
    requires a in net && |FileOf(net[a].files, h)| <= CHUNK_SIZE
    ensures var n, file := ForwardBlock(net, secondaries, h, block, version, outs), FileOf(net[a].files, h);
      a in n && FileOf(n[a].files, h) == file + if Got(net, secondaries, outs, a) then Block(file, block) else []
    decreases |secondaries|
  {
    if secondaries != [] {
      var b, rest := secondaries[0], secondaries[1..];
      DistinctTail(secondaries);
      var net' := if Reaches(net, b, outs[0]) then net[b := AppendLocal(net[b], h, block, version).0] else net;
      assert secondaries == [b] + rest && outs == [outs[0]] + outs[1..];
      if a == b {
        AppendAddsBlock(net[a], h, block, version);
        NotForwarded(net', rest, h, block, version, outs[1..], a);
      } else {
        ForwardAdds(net', rest, h, block, version, outs[1..], a);
        assert Got(net, secondaries, outs, a) <==> Got(net', rest, outs[1..], a);
      }
    }
  }

  lemma RecordAdds(g: Setting, n: Net, e: Event, a: Addr)
    requires g.primary in n && e.Record? && Allowed(g, e) && Bounded(n, g.handle) && a in n && a != g.primary
    ensures var file, block := File(n, a, g.handle), Block(File(n, g.primary, g.handle), e.data);
      File(Apply(g, n, e), a, g.handle) == file + if Got(n, e.secondaries, e.outs, a) then Block(file, block) else []
  {
    var file := File(n, g.primary, g.handle);
    var (s, reply) := AppendLocal(n[g.primary], g.handle, e.data, e.version);
    var n1 := n[g.primary := s];
    BlockFits(file, e.data);
    ForwardAdds(n1, e.secondaries, g.handle, Block(file, e.data), if reply.Appended? then e.version else 0, e.outs, a);
    assert Got(n1, e.secondaries, e.outs, a) <==> Got(n, e.secondaries, e.outs, a);
  }

  /** The copy of `a` is extended, or it is replaced from the front by the primary's. */
  ghost predicate Extends(g: Setting, n: Net, n': Net, a: Addr) {
    var old1, new1, primary := File(n, a, g.handle), File(n', a, g.handle), File(n, g.primary, g.handle);
    |new1| <= CHUNK_SIZE && (old1 <= new1 || (a != g.primary && new1 == OnTop(primary, old1)))
  }

  lemma RecordExtends(g: Setting, n: Net, e: Event, a: Addr)
    requires g.primary in n && e.Record? && Allowed(g, e) && Bounded(n, g.handle) && a in n
    ensures Extends(g, n, Apply(g, n, e), a)
  {
    var file := File(n, g.primary, g.handle);
    BlockFits(file, e.data);
    if a == g.primary {
      PrimaryStep(g, n, e);
    } else {
      RecordAdds(g, n, e, a);
      BlockFits(File(n, a, g.handle), Block(file, e.data));
    }
  }

  lemma StepExtends(g: Setting, n: Net, e: Event, a: Addr)
    requires g.primary in n && Allowed(g, e) && Bounded(n, g.handle) && a in n
    ensures Extends(g, n, Apply(g, n, e), a)
  {
    if e.Record? {
      RecordExtends(g, n, e, a);
    } else {
      CloneCopies(n, g.primary, e.target, g.handle, e.version, e.push, e.commit);
    }
  }

  lemma StepBounded(g: Setting, n: Net, e: Event)
    requires g.primary in n && Allowed(g, e) && Bounded(n, g.handle)
    ensures Bounded(Apply(g, n, e), g.handle)
  {
    ApplyKeepsServers(g, n, e);
    forall a | a in n ensures |File(Apply(g, n, e), a, g.handle)| <= CHUNK_SIZE {
      StepExtends(g, n, e, a);
    }
  }

  // ---- Through one primary, from any state ----

  /** Whatever the servers hold when a server becomes primary: it only appends to its own
      copy, nobody's copy shrinks, and none outgrows the chunk size. */
  lemma {:induction false} CopiesNeverShrink(g: Setting, net: Net, es: seq<Event>, a: Addr)
    requires g.primary in net && AllowedAll(g, es) && Bounded(net, g.handle) && a in net
    ensures var n := Run(g, net, es);
      && Bounded(n, g.handle)
      && File(net, g.primary, g.handle) <= File(n, g.primary, g.handle)
      && |File(net, a, g.handle)| <= |File(n, a, g.handle)|
    decreases |es|
  {
    if es != [] {
      CopiesNeverShrink(g, net, Init(es), a);
      StepBounded(g, Run(g, net, Init(es)), Last(es));
      StepExtends(g, Run(g, net, Init(es)), Last(es), a);
      StepExtends(g, Run(g, net, Init(es)), Last(es), g.primary);
    }
  }

  /** So a server that was longer than the new primary has now become is not repaired by
      any clone from it that reports success. */
  lemma {:induction false} CloneLeavesLonger(g: Setting, net: Net, es: seq<Event>, a: Addr, version: int, push: Outcome,
                                             commit: Outcome)
    requires g.primary in net && AllowedAll(g, es) && Bounded(net, g.handle) && a in net && a != g.primary
    requires Clone(Run(g, net, es), g.primary, a, g.handle, version, push, commit).1
    requires |File(net, a, g.handle)| > |File(Run(g, net, es), g.primary, g.handle)|
    ensures var n := Clone(Run(g, net, es), g.primary, a, g.handle, version, push, commit).0;
      File(n, a, g.handle) != File(n, g.primary, g.handle)
  {
    CopiesNeverShrink(g, net, es, a);
    CloneRepairsIff(Run(g, net, es), g.primary, a, g.handle, version, push, commit);
  }

  /** Bytes that both the primary and another server have in front stay there. */
  lemma {:induction false} FrontStays(g: Setting, net: Net, es: seq<Event>, front: Bytes, a: Addr)
    requires g.primary in net && AllowedAll(g, es) && Bounded(net, g.handle) && a in net
    requires front <= File(net, g.primary, g.handle) && front <= File(net, a, g.handle)
    ensures front <= File(Run(g, net, es), g.primary, g.handle) && front <= File(Run(g, net, es), a, g.handle)
    decreases |es|
  {
    if es != [] {
      FrontStays(g, net, Init(es), front, a);
      CopiesNeverShrink(g, net, Init(es), a);
      StepExtends(g, Run(g, net, Init(es)), Last(es), a);
      StepExtends(g, Run(g, net, Init(es)), Last(es), g.primary);
    }
  }

  // ---- Through many primaries ----

  /** A primary and what happens while it is one. */
  datatype Era = Era(primary: Addr, events: seq<Event>)

  ghost predicate AllowedEras(net: Net, h: Handle, eras: seq<Era>) {
    forall i :: 0 <= i < |eras| ==> eras[i].primary in net && AllowedAll(Setting(eras[i].primary, h), eras[i].events)
  }

  ghost function RunEras(net: Net, h: Handle, eras: seq<Era>): (n: Net)
    requires AllowedEras(net, h, eras)
    ensures n.Keys == net.Keys
    decreases |eras|
  {
    if eras == [] then net
    else
      assert forall i :: 0 <= i < |Init(eras)| ==> Init(eras)[i] == eras[i];
      Run(Setting(Last(eras).primary, h), RunEras(net, h, Init(eras)), Last(eras).events)
  }

  /** Over any number of changes of the primary among servers that have the same bytes in
      front, every one of them keeps these bytes. */
  lemma {:induction false} FrontSurvives(net: Net, h: Handle, eras: seq<Era>, front: Bytes, a: Addr)
    requires AllowedEras(net, h, eras) && Bounded(net, h) && a in net && front <= File(net, a, h)
    requires forall i :: 0 <= i < |eras| ==> front <= File(net, eras[i].primary, h)
    ensures Bounded(RunEras(net, h, eras), h) && front <= File(RunEras(net, h, eras), a, h)
    decreases |eras|
  {
    if eras != [] {
      var g := Setting(Last(eras).primary, h);
      assert forall i :: 0 <= i < |Init(eras)| ==> Init(eras)[i] == eras[i];
      FrontSurvives(net, h, Init(eras), front, a);
      FrontSurvives(net, h, Init(eras), front, g.primary);
      CopiesNeverShrink(g, RunEras(net, h, Init(eras)), Last(eras).events, a);
      FrontStays(g, RunEras(net, h, Init(eras)), Last(eras).events, front, a);
    }
  }

  // ---- The first change ----

  lemma {:induction false} RunBounded(g: Setting, net: Net, es: seq<Event>)
    requires g.primary in net && AllowedAll(g, es) && Blank(net, g.handle)
    ensures Bounded(Run(g, net, es), g.handle)
  {
    CopiesNeverShrink(g, net, es, g.primary);
  }

  /** After a first primary: the old one is never shorter than the new one, so a clone from
      the new one, when it reports success, makes them equal exactly if they were equal. */
  lemma {:induction false} OldPrimaryRepairedIff(g: Setting, net: Net, es: seq<Event>, next: Addr, version: int,
                                                 push: Outcome, commit: Outcome)
    requires g.primary in net && AllowedAll(g, es) && Blank(net, g.handle) && next in net && next != g.primary
    requires Clone(Run(g, net, es), next, g.primary, g.handle, version, push, commit).1
    ensures var before := Run(g, net, es);
      var n := Clone(before, next, g.primary, g.handle, version, push, commit).0;
      File(n, g.primary, g.handle) == File(n, next, g.handle) <==>
        File(before, g.primary, g.handle) == File(before, next, g.handle)
  {
    SecondariesHoldSubsequence(g, net, es, next);
    CloneRepairsIff(Run(g, net, es), next, g.primary, g.handle, version, push, commit);
  }

  /** Right after an acknowledged append a server has the record, at its offset and with
      everything before it, exactly if it is as long as the primary. */
  lemma TakenInFullIff(g: Setting, net: Net, es: seq<Event>, i: nat, a: Addr)
    requires g.primary in net && AllowedAll(g, es) && Blank(net, g.handle) && a in net
    requires i < |es| && es[i].Record? && ReplyTo(g, net, es, i).Appended?
    ensures var record, n := File(Run(g, net, es[..i]), g.primary, g.handle) + es[i].data, Run(g, net, es[..i + 1]);
      && record == File(n, g.primary, g.handle)
      && (record <= File(n, a, g.handle) <==> |File(n, a, g.handle)| == |File(n, g.primary, g.handle)|)
  {
    ReplyTold(g, net, es, i);
    if a != g.primary { SecondariesHoldSubsequence(g, net, es[..i + 1], a); }
  }

  lemma {:induction false} RunSplit(g: Setting, net: Net, es: seq<Event>, i: nat)
    requires g.primary in net && AllowedAll(g, es) && i <= |es|
    ensures Run(g, net, es) == Run(g, Run(g, net, es[..i]), es[i..])
    decreases |es|
  {
    if i == |es| {
      assert es[..i] == es && es[i..] == [];
    } else {
      RunSplit(g, net, Init(es), i);
      assert Init(es)[..i] == es[..i] && Init(es)[i..] == Init(es[i..]) && Last(es[i..]) == Last(es);
    }
  }

  lemma {:induction false} FrontThrough(g: Setting, net: Net, es: seq<Event>, i: nat, front: Bytes, a: Addr)
    requires g.primary in net && AllowedAll(g, es) && a in net && i <= |es| && Bounded(Run(g, net, es[..i]), g.handle)
    requires front <= File(Run(g, net, es[..i]), g.primary, g.handle)
    requires front <= File(Run(g, net, es[..i]), a, g.handle)
    ensures front <= File(Run(g, net, es), a, g.handle)
  {
    RunSplit(g, net, es, i);
    FrontStays(g, Run(g, net, es[..i]), es[i..], front, a);
  }

  /** The `i`-th event is a record that fits the primary's copy. */
  ghost predicate Fitting(g: Setting, net: Net, es: seq<Event>, i: nat)
    requires g.primary in net && AllowedAll(g, es)
  {
    i < |es| && es[i].Record? && |File(Run(g, net, es[..i]), g.primary, g.handle)| + |es[i].data| <= CHUNK_SIZE
  }

  lemma AcknowledgedFits(g: Setting, net: Net, es: seq<Event>, i: nat)
    requires g.primary in net && AllowedAll(g, es) && Blank(net, g.handle)
    requires i < |es| && es[i].Record? && ReplyTo(g, net, es, i).Appended?
    ensures Fitting(g, net, es, i)
  {
    ReplyTold(g, net, es, i);
  }

  lemma {:induction false} Taken(g: Setting, net: Net, es: seq<Event>, i: nat, a: Addr)
    requires g.primary in net && AllowedAll(g, es) && Blank(net, g.handle) && a in net && Fitting(g, net, es, i)
    requires var n := Run(g, net, es[..i + 1]); |File(n, a, g.handle)| == |File(n, g.primary, g.handle)|
    ensures var record, n := File(Run(g, net, es[..i]), g.primary, g.handle) + es[i].data, Run(g, net, es[..i + 1]);
      record <= File(n, g.primary, g.handle) && record <= File(n, a, g.handle)
  {
    ReplyTold(g, net, es, i);
    if a != g.primary { SecondariesHoldSubsequence(g, net, es[..i + 1], a); }
  }

  /** What a server and all later primaries have in front at some time stays on the server. */
  lemma {:induction false} FrontSurvivesEras(g: Setting, net: Net, es: seq<Event>, i: nat, front: Bytes, eras: seq<Era>,
                                             a: Addr)
    requires g.primary in net && AllowedAll(g, es) && Blank(net, g.handle) && a in net && i <= |es|
    requires AllowedEras(Run(g, net, es), g.handle, eras)
    requires var n := Run(g, net, es[..i]);
      && front <= File(n, g.primary, g.handle) && front <= File(n, a, g.handle)
      && forall k :: 0 <= k < |eras| ==> front <= File(n, eras[k].primary, g.handle)
    ensures front <= File(RunEras(Run(g, net, es), g.handle, eras), a, g.handle)
  {
    RunBounded(g, net, es[..i]);
    RunBounded(g, net, es);
    FrontThrough(g, net, es, i, front, a);
    forall k | 0 <= k < |eras| ensures front <= File(Run(g, net, es), eras[k].primary, g.handle) {
      FrontThrough(g, net, es, i, front, eras[k].primary);
    }
    FrontSurvives(Run(g, net, es), g.handle, eras, front, a);
  }

  lemma {:induction false} AllTaken(g: Setting, net: Net, es: seq<Event>, i: nat, eras: seq<Era>)
    requires g.primary in net && AllowedAll(g, es) && Blank(net, g.handle) && Fitting(g, net, es, i)
    requires var n, size := Run(g, net, es[..i + 1]), |File(Run(g, net, es[..i + 1]), g.primary, g.handle)|;
      forall k :: 0 <= k < |eras| ==> eras[k].primary in net && |File(n, eras[k].primary, g.handle)| == size
    ensures var record, n := File(Run(g, net, es[..i]), g.primary, g.handle) + es[i].data, Run(g, net, es[..i + 1]);
      forall k :: 0 <= k < |eras| ==> record <= File(n, eras[k].primary, g.handle)
  {
    var record, n := File(Run(g, net, es[..i]), g.primary, g.handle) + es[i].data, Run(g, net, es[..i + 1]);
    forall k | 0 <= k < |eras| ensures record <= File(n, eras[k].primary, g.handle) {
      Taken(g, net, es, i, eras[k].primary);
    }
  }

  lemma {:induction false} FittingSurvives(g: Setting, net: Net, es: seq<Event>, i: nat, eras: seq<Era>, a: Addr)
    requires g.primary in net && AllowedAll(g, es) && Blank(net, g.handle) && a in net
    requires Fitting(g, net, es, i)
    requires AllowedEras(Run(g, net, es), g.handle, eras)
    requires var n, size := Run(g, net, es[..i + 1]), |File(Run(g, net, es[..i + 1]), g.primary, g.handle)|;
      |File(n, a, g.handle)| == size && forall k :: 0 <= k < |eras| ==> |File(n, eras[k].primary, g.handle)| == size
    ensures File(Run(g, net, es[..i]), g.primary, g.handle) + es[i].data <=
      File(RunEras(Run(g, net, es), g.handle, eras), a, g.handle)
  {
    Taken(g, net, es, i, a);
    AllTaken(g, net, es, i, eras);
    FrontSurvivesEras(g, net, es, i + 1, File(Run(g, net, es[..i]), g.primary, g.handle) + es[i].data, eras, a);
  }

  /** An acknowledged record survives, at its offset and with everything before it, on each
      server that was as long as the primary right after the append, through the rest of
      that run and any number of later primaries that were as long too. */
  lemma {:induction false} AcknowledgedSurvives(g: Setting, net: Net, es: seq<Event>, i: nat, eras: seq<Era>, a: Addr)
    requires g.primary in net && AllowedAll(g, es) && Blank(net, g.handle) && a in net
    requires i < |es| && es[i].Record? && ReplyTo(g, net, es, i).Appended?
    requires AllowedEras(Run(g, net, es), g.handle, eras)
    requires var n, size := Run(g, net, es[..i + 1]), |File(Run(g, net, es[..i + 1]), g.primary, g.handle)|;
      |File(n, a, g.handle)| == size && forall k :: 0 <= k < |eras| ==> |File(n, eras[k].primary, g.handle)| == size
    ensures File(Run(g, net, es[..i]), g.primary, g.handle) + es[i].data <=
      File(RunEras(Run(g, net, es), g.handle, eras), a, g.handle)
  {
    AcknowledgedFits(g, net, es, i);
    FittingSurvives(g, net, es, i, eras, a);
  }

  /** The new primary answers the next record that fits with its own length, so it hands
      out an offset the old primary has used exactly if it is the shorter one, that is, if
      the two differ. */
  lemma {:induction false} OffsetUsedTwiceIff(g: Setting, net: Net, es: seq<Event>, next: Addr, e: Event)
    requires g.primary in net && AllowedAll(g, es) && Blank(net, g.handle) && next in net && next != g.primary
    requires e.Record? && Allowed(Setting(next, g.handle), e)
    requires |File(Run(g, net, es), next, g.handle)| + |e.data| <= CHUNK_SIZE
    ensures var n := Run(g, net, es);
      var r := Append(n, next, e.secondaries, g.handle, e.data, e.version, e.outs).1;
      && r.Appended?
      && (r.offset < |File(n, g.primary, g.handle)| <==> File(n, next, g.handle) != File(n, g.primary, g.handle))
  {
    SecondariesHoldSubsequence(g, net, es, next);
    ReplyMeans(Run(g, net, es), next, g.handle, e);
  }

  // ---- A record that is lost ----

  lemma RunOne(g: Setting, net: Net, e: Event)
    requires g.primary in net && Allowed(g, e)
    ensures Run(g, net, [e]) == Apply(g, net, e)
  {
    assert Init([e]) == [];
  }

  lemma LostFirst(net: Net, p: Addr, q: Addr, h: Handle, e: Event)
    requires p in net && q in net && p != q && Blank(net, h)
    requires e.Record? && e.secondaries == [q] && e.outs == [LostBefore] && 0 < |e.data| <= MAX_RECORD
    ensures var n := Run(Setting(p, h), net, [e]);
      && ReplyTo(Setting(p, h), net, [e], 0) == Appended(0)
      && File(n, p, h) == e.data && File(n, q, h) == []
  {
    var g := Setting(p, h);
    RunOne(g, net, e);
    assert [e][..0] == [];
    ReplyMeans(net, p, h, e);
    PrimaryStep(g, net, e);
    RecordAdds(g, net, e, q);
  }

  lemma TakenSecond(net: Net, p: Addr, q: Addr, h: Handle, e: Event)
    requires p in net && q in net && p != q && Bounded(net, h)
    requires e.Record? && e.secondaries == [p] && e.outs == [Delivered] && 0 < |e.data| <= MAX_RECORD
    requires File(net, q, h) == [] && |File(net, p, h)| <= MAX_RECORD
    ensures var n := Run(Setting(q, h), net, [e]);
      && ReplyTo(Setting(q, h), net, [e], 0) == Appended(0)
      && File(n, q, h) == e.data && File(n, p, h) == File(net, p, h) + e.data
  {
    var g := Setting(q, h);
    RunOne(g, net, e);
    assert [e][..0] == [];
    ReplyMeans(net, q, h, e);
    PrimaryStep(g, net, e);
    RecordAdds(g, net, e, p);
    Fits(|File(net, p, h)|, |e.data|);
    assert Got(net, [p], [Delivered], p);
  }

  /** No clone from `q` to `p` makes them equal. */
  ghost predicate Unrepaired(net: Net, p: Addr, q: Addr, h: Handle)
    requires q in net
  {
    forall version, push, commit :: Clone(net, q, p, h, version, push, commit).1 ==>
      var n := Clone(net, q, p, h, version, push, commit).0; File(n, p, h) != File(n, q, h)
  }

  lemma NoCloneHelps(net: Net, p: Addr, q: Addr, h: Handle)
    requires q in net && p != q && |File(net, p, h)| > |File(net, q, h)|
    ensures Unrepaired(net, p, q, h)
  {
    forall version, push, commit | Clone(net, q, p, h, version, push, commit).1
      ensures var n := Clone(net, q, p, h, version, push, commit).0; File(n, p, h) != File(n, q, h)
    {
      CloneRepairsIff(net, q, p, h, version, push, commit);
    }
  }

  /** A record reaches only the old primary `p`, then `q` becomes primary and takes another:
      both are acknowledged at offset 0, `q` never has the first, and no clone from it that
      reports success makes the two servers equal. */
  lemma LostToChange(net: Net, p: Addr, q: Addr, h: Handle, first: Event, second: Event)
    requires p in net && q in net && p != q && Blank(net, h)
    requires first.Record? && first.secondaries == [q] && first.outs == [LostBefore] && 0 < |first.data| <= MAX_RECORD
    requires second.Record? && second.secondaries == [p] && second.outs == [Delivered]
    requires 0 < |second.data| <= MAX_RECORD
    ensures var n1 := Run(Setting(p, h), net, [first]);
      && ReplyTo(Setting(p, h), net, [first], 0) == Appended(0)
      && ReplyTo(Setting(q, h), n1, [second], 0) == Appended(0)
      && var n2 := Run(Setting(q, h), n1, [second]);
      && File(n2, q, h) == second.data && File(n2, p, h) == first.data + second.data
      && Unrepaired(n2, p, q, h)
  {
    LostFirst(net, p, q, h, first);
    var n1 := Run(Setting(p, h), net, [first]);
    RunBounded(Setting(p, h), net, [first]);
    TakenSecond(n1, p, q, h, second);
    var n2 := Run(Setting(q, h), n1, [second]);
    NoCloneHelps(n2, p, q, h);
  }
}
