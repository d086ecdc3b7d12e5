/** A chunkserver's state as a value, what its handlers do to it, and what a call does
    to a whole network of them when any message may be lost on the way there or back.
    The classes of ChunkService.dfy are proved to compute exactly these functions. */
module ChunkState {
  import opened Locations
  import opened Seqs
  import opened Text
  import opened Crc32
  import Gf2

  type Bytes = seq<Byte>

  const CHUNK_SIZE: int := 64 * 1024 * 1024
  const CHECKSUM_BLOCK: int := 64 * 1024
  const ZERO: Byte := Gf2.Zeros(8)

  /** The serial number every clone uses. */
  const CLONE_SERIAL: int := 999999

  function ZeroBytes(n: nat): (b: Bytes)
    ensures |b| == n
  {
    seq(n, _ => ZERO)
  }

  // ---- Chunk files (chunkserver/storage.cpp) ----

  /** Writing `data` at `offset`: a gap past the end reads as zeros, bytes beyond the
      written range stay. */
  function Overlay(file: Bytes, offset: nat, data: Bytes): Bytes {
    if data == [] then file
    else if |file| <= offset then file + ZeroBytes(offset - |file|) + data
    else file[..offset] + data + (if offset + |data| < |file| then file[offset + |data|..] else [])
  }

  function FileOf(files: map<Handle, Bytes>, h: Handle): Bytes {
    if h in files then files[h] else []
  }

  /** Blocks, or the chunks of a file, one after the other. */
  function Concat(blocks: seq<Bytes>): Bytes
    decreases |blocks|
  {
    if blocks == [] then [] else Concat(Init(blocks)) + Last(blocks)
  }

  /** ifstream::read from `offset`: as many of `length` bytes as there are. */
  function Slice(b: Bytes, offset: nat, length: nat): Bytes {
    var from := if offset < |b| then offset else |b|;
    var to := if offset + length < |b| then offset + length else |b|;
    b[from..to]
  }

  // ---- The server (chunkserver/main.cpp) ----

  datatype Buffered = Buffered(handle: Handle, data: Bytes)

  datatype Server = Server(
    files: map<Handle, Bytes>,
    versions: map<Handle, int>,
    buffer: map<string, Buffered>,
    sums: map<Handle, seq<Word>>)

  /** Recording the checksum of one block; skipped blocks read as zero. */
  function WithSum(sums: seq<Word>, block: nat, sum: Word): seq<Word> {
    (if block < |sums| then sums else sums + seq(block + 1 - |sums|, _ => Gf2.Zeros(32)))[block := sum]
  }

  function SumsOf(sums: map<Handle, seq<Word>>, h: Handle): seq<Word> {
    if h in sums then sums[h] else []
  }

  /** A write request without its data and its forwarding list. */
  datatype WriteHead = WriteHead(handle: Handle, offset: nat, serial: int, version: int)

  function KeyOf(w: WriteHead): string {
    BufferKey(w.handle, w.serial)
  }

  /** ForwardWrite, before it forwards. */
  function PushLocal(s: Server, w: WriteHead, data: Bytes): Server {
    s.(buffer := s.buffer[KeyOf(w) := Buffered(w.handle, data)],
       versions := s.versions[w.handle := w.version])
  }

  /** The effect of committing `data`. */
  function Committed(s: Server, w: WriteHead, data: Bytes): Server {
    s.(files := s.files[w.handle := Overlay(FileOf(s.files, w.handle), w.offset, data)],
       versions := s.versions[w.handle := w.version],
       buffer := s.buffer - {KeyOf(w)},
       sums := s.sums[w.handle := WithSum(SumsOf(s.sums, w.handle), w.offset / CHECKSUM_BLOCK, Checksum(data))])
  }

  /** WriteChunk, before it forwards: fails when nothing is buffered under the key. */
  function CommitLocal(s: Server, w: WriteHead): (Server, bool) {
    if KeyOf(w) !in s.buffer then (s, false) else (Committed(s, w, s.buffer[KeyOf(w)].data), true)
  }

  /** Deleting chunks: bytes and versions go, buffer and checksums stay. */
  function Erased(s: Server, hs: set<Handle>): Server {
    s.(files := s.files - hs, versions := s.versions - hs)
  }

  // ---- Calls that may fail ----

  /** What became of a remote call. */
  datatype Outcome =
    | LostBefore  // never reached the server
    | LostAfter   // took effect, but the reply was lost
    | Delivered

  type Net = map<Addr, Server>

  /** Does the call take effect at `a`? */
  predicate Reaches(net: Net, a: Addr, o: Outcome) {
    a in net && !o.LostBefore?
  }

  /** Does the caller see the reply? */
  predicate Answers(net: Net, a: Addr, o: Outcome) {
    a in net && o.Delivered?
  }

  /** The data pushed along `chain`, each server calling the next: forwarding stops
      where a call is lost, and nobody reports that. */
  function Push(net: Net, chain: seq<Addr>, w: WriteHead, data: Bytes, outs: seq<Outcome>): Net
    requires |outs| == |chain|
    decreases |chain|
  {
    if chain == [] || !Reaches(net, chain[0], outs[0]) then net
    else Push(net[chain[0] := PushLocal(net[chain[0]], w, data)], chain[1..], w, data, outs[1..])
  }

  /** The primary's loop over the secondaries: it stops at the first failure. */
  function CommitAll(net: Net, secondaries: seq<Addr>, w: WriteHead, outs: seq<Outcome>): (Net, bool)
    requires |outs| == |secondaries|
    decreases |secondaries|
  {
    if secondaries == [] then (net, true)
    else if !Reaches(net, secondaries[0], outs[0]) then (net, false)
    else
      var (s, ok) := CommitLocal(net[secondaries[0]], w);
      var net' := net[secondaries[0] := s];
      if !ok || !outs[0].Delivered? then (net', false)
      else CommitAll(net', secondaries[1..], w, outs[1..])
  }

  /** WriteChunk at the primary. */
  function Commit(net: Net, primary: Addr, secondaries: seq<Addr>, w: WriteHead, outs: seq<Outcome>): (Net, bool)
    requires |outs| == |secondaries| && primary in net
  {
    var (s, ok) := CommitLocal(net[primary], w);
    var net' := net[primary := s];
    if !ok then (net', false) else CommitAll(net', secondaries, w, outs)
  }

  datatype WriteResult = Written | CommitFailed | CallFailed

  /** client/pipeline.py, write: push along the chain, then commit at the primary. */
  function ClientWrite(net: Net, chain: seq<Addr>, w: WriteHead, data: Bytes, push: seq<Outcome>,
                       commit: seq<Outcome>): (Net, WriteResult)
    requires |push| == |commit| == |chain| > 0
  {
    var net1 := Push(net, chain, w, data, push);
    if !Answers(net, chain[0], push[0]) || !Reaches(net1, chain[0], commit[0]) then (net1, CallFailed)
    else
      var (net2, ok) := Commit(net1, chain[0], chain[1..], w, commit[1..]);
      (net2, if !commit[0].Delivered? then CallFailed else if ok then Written else CommitFailed)
  }

  // ---- Record append ----

  datatype AppendReply =
    | Appended(offset: int)
    | RetryOnNextChunk
    | AppendError  // an uncaught exception in the handler

  /** Two's-complement truncation to 32 bits. */
  function Int32(x: int): int {
    (x + 0x8000_0000) % 0x1_0000_0000 - 0x8000_0000
  }

  /** Does the record have to go to the next chunk? */
  predicate Overflows(size: int, record: int) {
    Int32(Int32(size) + Int32(record)) > CHUNK_SIZE
  }

  /** What an append adds to the chunk: the record, or the padding that fills it. */
  function Block(file: Bytes, data: Bytes): Bytes {
    if !Overflows(|file|, |data|) then data
    else ZeroBytes(if |file| <= CHUNK_SIZE then CHUNK_SIZE - |file| else 0)
  }

  function AppendLocal(s: Server, h: Handle, data: Bytes, version: int): (Server, AppendReply) {
    var file := FileOf(s.files, h);
    if Overflows(|file|, |data|) then
      if |file| > CHUNK_SIZE then (s, AppendError)
      else (s.(files := s.files[h := Overlay(file, |file|, Block(file, data))]), RetryOnNextChunk)
    else
      (s.(files := s.files[h := file + data],
          versions := s.versions[h := version],
          sums := s.sums[h := WithSum(SumsOf(s.sums, h), |file| / CHECKSUM_BLOCK, Checksum(data))]),
       Appended(|file|))
  }

  /** The primary's loop: every secondary gets the block, failures are only printed. */
  function ForwardBlock(net: Net, secondaries: seq<Addr>, h: Handle, block: Bytes, version: int,
                        outs: seq<Outcome>): Net
    requires |outs| == |secondaries|
    decreases |secondaries|
  {
    if secondaries == [] then net
    else
      var a := secondaries[0];
      var net' := if Reaches(net, a, outs[0]) then net[a := AppendLocal(net[a], h, block, version).0] else net;
      ForwardBlock(net', secondaries[1..], h, block, version, outs[1..])
  }

  /** AppendChunk at the primary; forwarded padding carries no version. */
  function Append(net: Net, primary: Addr, secondaries: seq<Addr>, h: Handle, data: Bytes, version: int,
                  outs: seq<Outcome>): (Net, AppendReply)
    requires |outs| == |secondaries| && primary in net
  {
    var file := FileOf(net[primary].files, h);
    var (s, reply) := AppendLocal(net[primary], h, data, version);
    var net' := net[primary := s];
    if reply.AppendError? then (net', reply)
    else (ForwardBlock(net', secondaries, h, Block(file, data), if reply.Appended? then version else 0, outs), reply)
  }

  // ---- Cloning ----

  function CloneHead(h: Handle, version: int): WriteHead {
    WriteHead(h, 0, CLONE_SERIAL, version)
  }

  /** Push `data` to `target`, then commit it there. */
  function CloneOnto(net: Net, target: Addr, w: WriteHead, data: Bytes, push: Outcome, commit: Outcome): (Net, bool) {
    if !Reaches(net, target, push) then (net, false)
    else
      var net1 := net[target := PushLocal(net[target], w, data)];
      if !push.Delivered? || !Reaches(net1, target, commit) then (net1, false)
      else
        var (s, ok) := CommitLocal(net1[target], w);
        (net1[target := s], ok && commit.Delivered?)
  }

  /** CopyChunkTo at `source`: the whole chunk goes to `target`, an empty one nowhere. */
  function Clone(net: Net, source: Addr, target: Addr, h: Handle, version: int, push: Outcome,
                 commit: Outcome): (Net, bool)
    requires source in net
  {
    var data := FileOf(net[source].files, h);
    if data == [] then (net, false) else CloneOnto(net, target, CloneHead(h, version), data, push, commit)
  }
}
