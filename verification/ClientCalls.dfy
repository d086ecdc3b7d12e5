/** What a client does with a location from the master: the two-phase write
    (client/pipeline.py) and the record append (client/gfs_client.py). */
module ClientCalls {
  import opened Locations
  import opened ChunkState
  import ChunkService
  import RecordAppend

  datatype WriteOutcome = NoPrimary | Sent(result: WriteResult)

  /** The data goes to the first server of the chain, with the rest to pass it on to. */
  method PushData(net: ChunkService.Network, chain: seq<Addr>, w: WriteHead, data: Bytes, push: seq<Outcome>)
    returns (answered: bool)
    requires net.Valid() && |push| == |chain| > 0
    modifies net.objects
    ensures net.Valid()
    ensures net.View() == Push(old(net.View()), chain, w, data, push)
    ensures answered <==> Answers(old(net.View()), chain[0], push[0])
  {
    if chain[0] !in net.servers || push[0].LostBefore? { return false; }
    net.servers[chain[0]].ForwardWrite(net, chain[0], w, data, chain[1..], push[1..]);
    return push[0].Delivered?;
  }

  method PushAndCommit(net: ChunkService.Network, chain: seq<Addr>, w: WriteHead, data: Bytes, push: seq<Outcome>,
                       commit: seq<Outcome>)
    returns (result: WriteResult)
    requires net.Valid() && |push| == |commit| == |chain| > 0
    modifies net.objects
    ensures net.Valid()
    ensures (net.View(), result) == ClientWrite(old(net.View()), chain, w, data, push, commit)
  {
    var answered := PushData(net, chain, w, data, push);
    if !answered || commit[0].LostBefore? { return CallFailed; }
    var success := net.servers[chain[0]].WriteChunk(net, chain[0], w, chain[1..], commit[1..]);
    return if !commit[0].Delivered? then CallFailed else if success then Written else CommitFailed;
  }

  class WritePipeline {
    var serialCounter: int

    constructor ()
      ensures serialCounter == 1
    {
      serialCounter := 1;
    }

    method NextSerial() returns (serial: int)
      modifies this
      ensures serial == old(serialCounter) && serialCounter == old(serialCounter) + 1
    {
      serial := serialCounter;
      serialCounter := serialCounter + 1;
    }

    /** Push the data along all replicas, then have the primary commit it; `push` and
        `commit` say what becomes of each call. */
    method Write(net: ChunkService.Network, loc: Location, offset: int, data: Bytes, push: seq<Outcome>,
                 commit: seq<Outcome>)
      returns (outcome: WriteOutcome)
      requires net.Valid() && this !in net.objects && |push| == |commit| == 1 + |loc.secondaries|
      modifies this, net.objects
      ensures net.Valid()
      ensures loc.primary == "" ==>
        outcome == NoPrimary && net.View() == old(net.View()) && serialCounter == old(serialCounter)
      ensures loc.primary != "" ==>
        var w := WriteHead(loc.handle, offset % CHUNK_SIZE, old(serialCounter), loc.version);
        var (after, result) := ClientWrite(old(net.View()), [loc.primary] + loc.secondaries, w, data, push, commit);
        outcome == Sent(result) && net.View() == after && serialCounter == old(serialCounter) + 1
    {
      if loc.primary == "" { return NoPrimary; }
      var serial := NextSerial();
      var w := WriteHead(loc.handle, offset % CHUNK_SIZE, serial, loc.version);
      var result := PushAndCommit(net, [loc.primary] + loc.secondaries, w, data, push, commit);
      return Sent(result);
    }
  }

  datatype AppendOutcome =
    | RecordTooLarge
    | NoPrimaryForAppend
    | AppendCallFailed
    | ChunkFull              // the source returns -1
    | AppendedAt(offset: int)

  /** record_append, once the master has named the last chunk. */
  function ClientAppend(net: Net, loc: Location, data: Bytes, call: Outcome, outs: seq<Outcome>): (Net, AppendOutcome)
    requires |outs| == |loc.secondaries|
  {
    if |data| > RecordAppend.MAX_RECORD then (net, RecordTooLarge)
    else if loc.primary == "" then (net, NoPrimaryForAppend)
    else if !Reaches(net, loc.primary, call) then (net, AppendCallFailed)
    else
      var (after, reply) := Append(net, loc.primary, loc.secondaries, loc.handle, data, loc.version, outs);
      (after,
       if !call.Delivered? then AppendCallFailed
       else match reply
         case Appended(offset) => AppendedAt(offset)
         case RetryOnNextChunk => ChunkFull
         case AppendError => AppendCallFailed)
  }

  method AppendRecord(net: ChunkService.Network, loc: Location, data: Bytes, call: Outcome, outs: seq<Outcome>)
    returns (outcome: AppendOutcome)
    requires net.Valid() && |outs| == |loc.secondaries|
    modifies net.objects
    ensures net.Valid()
    ensures (net.View(), outcome) == ClientAppend(old(net.View()), loc, data, call, outs)
  {
    if |data| > RecordAppend.MAX_RECORD { return RecordTooLarge; }
    if loc.primary == "" { return NoPrimaryForAppend; }
    if loc.primary !in net.servers || call.LostBefore? { return AppendCallFailed; }
    var reply :=
      net.servers[loc.primary].AppendChunk(net, loc.primary, loc.handle, data, loc.secondaries, loc.version, outs);
    if !call.Delivered? || reply.AppendError? { return AppendCallFailed; }
    return if reply.RetryOnNextChunk? then ChunkFull else AppendedAt(reply.offset);
  }

  /** Each outcome of an append has its exact cause. */
  lemma AppendOutcomeIff(net: Net, loc: Location, data: Bytes, call: Outcome, outs: seq<Outcome>)
    requires |outs| == |loc.secondaries|
    ensures var r := ClientAppend(net, loc, data, call, outs).1;
      var size := |RecordAppend.File(net, loc.primary, loc.handle)|;
      if |data| > 16 * 1024 * 1024 then r == RecordTooLarge
      else if loc.primary == "" then r == NoPrimaryForAppend
      else if !Answers(net, loc.primary, call) then r == AppendCallFailed
      else if Int32(size + |data|) <= 64 * 1024 * 1024 then r == AppendedAt(size)
      else if size <= 64 * 1024 * 1024 then r == ChunkFull
      else r == AppendCallFailed
  {
    RecordAppend.Int32Sum(|RecordAppend.File(net, loc.primary, loc.handle)|, |data|);
  }

  /** While the primary's chunk is no larger than a chunk may be, an offset handed to the
      client is where the record starts on the primary, behind all the old bytes; a full
      chunk was padded to exactly its maximal size; a record that is too large or has no
      primary to go to changed nothing anywhere. */
  lemma AppendOutcomeMeans(net: Net, loc: Location, data: Bytes, call: Outcome, outs: seq<Outcome>)
    requires |outs| == |loc.secondaries| && loc.primary !in loc.secondaries
    requires |RecordAppend.File(net, loc.primary, loc.handle)| <= CHUNK_SIZE
    ensures var (after, r) := ClientAppend(net, loc, data, call, outs);
      var old1, new1 := RecordAppend.File(net, loc.primary, loc.handle),
        RecordAppend.File(after, loc.primary, loc.handle);
      && (r.AppendedAt? ==> r.offset == |old1| && new1 == old1 + data && |new1| <= CHUNK_SIZE)
      && (r.ChunkFull? ==> |old1| + |data| > CHUNK_SIZE && |new1| == CHUNK_SIZE && old1 <= new1)
      && (r.RecordTooLarge? <==> |data| > RecordAppend.MAX_RECORD)
      && (r.RecordTooLarge? || r.NoPrimaryForAppend? ==> after == net)
  {
    if |data| <= RecordAppend.MAX_RECORD && loc.primary != "" && Reaches(net, loc.primary, call) {
      var g, e := RecordAppend.Setting(loc.primary, loc.handle),
        RecordAppend.Record(loc.secondaries, data, loc.version, outs);
      RecordAppend.ReplyMeans(net, loc.primary, loc.handle, e);
      var file := RecordAppend.File(net, loc.primary, loc.handle);
      var (s, reply) := AppendLocal(net[loc.primary], loc.handle, data, loc.version);
      RecordAppend.AppendAddsBlock(net[loc.primary], loc.handle, data, loc.version);
      RecordAppend.NotForwarded(net[loc.primary := s], loc.secondaries, loc.handle, Block(file, data),
        if reply.Appended? then loc.version else 0, outs, loc.primary);
    }
  }
}
