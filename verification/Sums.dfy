/** Which checksums the data plane records, of which data and for which block, and when that
    is a checksum of the block. */
module Sums {
  import opened Locations
  import opened Seqs
  import opened Wrappers
  import opened Crc32
  import opened ChunkState
  import RecordAppend
  import WriteChain

  /** The checksum on record for a block of 64 KB. */
  function Recorded(s: Server, h: Handle, block: nat): Option<Word> {
    if block < |SumsOf(s.sums, h)| then Some(SumsOf(s.sums, h)[block]) else None
  }

  /** From `s` to `t` one checksum was put on record; blocks skipped before it read as zero. */
  ghost predicate SumPut(s: Server, t: Server, h: Handle, block: nat, sum: Word) {
    forall k, b: nat :: Recorded(t, k, b) ==
      if k == h && b == block then Some(sum)
      else if k == h && b < block && Recorded(s, k, b).None? then Some(Gf2.Zeros(32))
      else Recorded(s, k, b)
  }

  lemma PutMeans(s: Server, t: Server, h: Handle, block: nat, sum: Word)
    requires t.sums == s.sums[h := WithSum(SumsOf(s.sums, h), block, sum)]
    ensures SumPut(s, t, h, block, sum)
  {
  }

  // ---- Writes ----

  /** A write records the checksum of all its data for the block it starts in, on every
      server that commits it and on no other. */
  lemma {:induction false} WriteRecords(net: Net, chain: seq<Addr>, w: WriteHead, data: Bytes, push: seq<Outcome>,
                                        commit: seq<Outcome>, a: Addr)
    requires |push| == |commit| == |chain| > 0 && Distinct(chain) && a in net
    requires forall b :: b in chain && b in net ==> KeyOf(w) !in net[b].buffer
    ensures var n := ClientWrite(net, chain, w, data, push, commit).0;
      && a in n
      && if a in chain[..WriteChain.Committers(net, chain, push, commit)]
         then SumPut(net[a], n[a], w.handle, w.offset / 65536, Checksum(data))
         else n[a].sums == net[a].sums
  {
    WriteChain.WriteLeavesPrefixes(net, chain, w, data, push, commit);
    var n := ClientWrite(net, chain, w, data, push, commit).0;
    if a in chain[..WriteChain.Committers(net, chain, push, commit)] {
      PutMeans(net[a], n[a], w.handle, w.offset / 65536, Checksum(data));
    }
  }

  /** That is the checksum of the block's bytes exactly if the data is the whole block as it
      then stands: for a write that starts with the block, if it fills the block or reaches
      the end of the file within it. */
  lemma SummedIsBlockIff(file: Bytes, offset: nat, data: Bytes)
    requires data != [] && offset % 65536 == 0
    ensures Slice(Overlay(file, offset, data), offset, 65536) == data <==>
      |data| == 65536 || (|data| < 65536 && offset + |data| >= |file|)
  {
    var after := Overlay(file, offset, data);
    var block := Slice(after, offset, 65536);
    assert |after| == if offset + |data| > |file| then offset + |data| else |file|;
    assert |block| == if |after| - offset < 65536 then |after| - offset else 65536;
    assert forall i :: 0 <= i < |data| ==> after[offset + i] == data[i];
    if |block| == |data| { assert block == data; }
  }

  // ---- Appends ----

  lemma AppendLocalRecords(s: Server, h: Handle, data: Bytes, version: int)
    requires |FileOf(s.files, h)| <= CHUNK_SIZE && |data| <= CHUNK_SIZE
    ensures var (t, r) := AppendLocal(s, h, data, version); var size := |FileOf(s.files, h)|;
      if size + |data| <= CHUNK_SIZE then SumPut(s, t, h, size / 65536, Checksum(data)) else t.sums == s.sums
  {
    RecordAppend.Fits(|FileOf(s.files, h)|, |data|);
    var t := AppendLocal(s, h, data, version).0;
    if |FileOf(s.files, h)| + |data| <= CHUNK_SIZE {
      PutMeans(s, t, h, |FileOf(s.files, h)| / 65536, Checksum(data));
    }
  }

  ghost predicate BlockRecorded(net: Net, n: Net, secondaries: seq<Addr>, outs: seq<Outcome>, h: Handle, block: Bytes,
                                a: Addr)
    requires |outs| == |secondaries|
  {
    a in net && a in n && var size := |FileOf(net[a].files, h)|;
    if RecordAppend.Got(net, secondaries, outs, a) && size + |block| <= CHUNK_SIZE
    then SumPut(net[a], n[a], h, size / 65536, Checksum(block))
    else n[a].sums == net[a].sums
  }

  lemma {:induction false} ForwardRecords(net: Net, secondaries: seq<Addr>, h: Handle, block: Bytes, version: int,
                                          outs: seq<Outcome>, a: Addr)
    requires |outs| == |secondaries| && Distinct(secondaries) && |block| <= CHUNK_SIZE
    requires a in net && |FileOf(net[a].files, h)| <= CHUNK_SIZE
    ensures BlockRecorded(net, ForwardBlock(net, secondaries, h, block, version, outs), secondaries, outs, h, block, a)
    decreases |secondaries|
  {
    if secondaries != [] {
      var b, rest := secondaries[0], secondaries[1..];
      DistinctTail(secondaries);
      var net' := if Reaches(net, b, outs[0]) then net[b := AppendLocal(net[b], h, block, version).0] else net;
      assert secondaries == [b] + rest && outs == [outs[0]] + outs[1..];
      if a == b {
        AppendLocalRecords(net[a], h, block, version);
        RecordAppend.NotForwarded(net', rest, h, block, version, outs[1..], a);
      } else {
        ForwardRecords(net', rest, h, block, version, outs[1..], a);
        assert RecordAppend.Got(net, secondaries, outs, a) <==> RecordAppend.Got(net', rest, outs[1..], a);
      }
    }
  }

  /** A record that fits has its checksum recorded, at the primary and at each secondary that
      is reached and has room, for the block the copy there ended in. Padding is recorded at
      those secondaries and not at the primary. */
  lemma {:induction false} AppendRecords(net: Net, primary: Addr, secondaries: seq<Addr>, h: Handle, data: Bytes,
                                         version: int, outs: seq<Outcome>, a: Addr)
    requires |outs| == |secondaries| && Distinct(secondaries) && primary in net && primary !in secondaries
    requires |data| <= CHUNK_SIZE && |FileOf(net[primary].files, h)| <= CHUNK_SIZE
    requires a in net && |FileOf(net[a].files, h)| <= CHUNK_SIZE
    ensures var n := Append(net, primary, secondaries, h, data, version, outs).0;
      var size := |FileOf(net[primary].files, h)|;
      var fits := size + |data| <= CHUNK_SIZE;
      && a in n
      && if a != primary
         then BlockRecorded(net, n, secondaries, outs, h, if fits then data else ZeroBytes(CHUNK_SIZE - size), a)
         else if fits then SumPut(net[a], n[a], h, size / 65536, Checksum(data))
         else n[a].sums == net[a].sums
  {
    var file := FileOf(net[primary].files, h);
    var (s, r) := AppendLocal(net[primary], h, data, version);
    var block, v := Block(file, data), if r.Appended? then version else 0;
    AppendLocalRecords(net[primary], h, data, version);
    RecordAppend.AppendAddsBlock(net[primary], h, data, version);
    RecordAppend.BlockFits(file, data);
    RecordAppend.Fits(|file|, |data|);
    if a == primary {
      RecordAppend.NotForwarded(net[primary := s], secondaries, h, block, v, outs, primary);
    } else {
      ForwardRecords(net[primary := s], secondaries, h, block, v, outs, a);
      assert RecordAppend.Got(net[primary := s], secondaries, outs, a) <==> RecordAppend.Got(net, secondaries, outs, a);
    }
  }

  // ---- Clones ----

  /** A clone records the checksum of the whole copy for the first block of its target. */
  lemma CloneRecords(net: Net, source: Addr, target: Addr, h: Handle, version: int, push: Outcome, commit: Outcome)
    requires source in net && target in net
    ensures var n := Clone(net, source, target, h, version, push, commit).0;
      && target in n
      && if RecordAppend.CloneLands(net, source, h, target, push, commit)
         then SumPut(net[target], n[target], h, 0, Checksum(FileOf(net[source].files, h)))
         else n[target].sums == net[target].sums
  {
    var n := Clone(net, source, target, h, version, push, commit).0;
    if RecordAppend.CloneLands(net, source, h, target, push, commit) {
      PutMeans(net[target], n[target], h, 0, Checksum(FileOf(net[source].files, h)));
    }
  }
}
