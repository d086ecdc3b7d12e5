/** The write-through store of block checksums (chunkserver/checksum.cpp): a cache of
    word vectors over one file of little-endian words for each chunk. */
module ChecksumStore {
  import opened Locations
  import opened Seqs
  import opened Wrappers
  import opened Crc32
  import opened ChunkState
  import Gf2

  // ---- The file format ----

  /** The vector written out word by word. */
  function Encode(sums: seq<Word>): (b: Bytes)
    ensures |b| == 4 * |sums|
    decreases |sums|
  {
    if sums == [] then [] else Encode(sums[..|sums| - 1]) + WordBytes(sums[|sums| - 1])
  }

  /** As many whole words as the file holds; a shorter tail is dropped. */
  function Decode(b: Bytes): (sums: seq<Word>)
    ensures |sums| == |b| / 4
  {
    seq(|b| / 4, i requires 0 <= i < |b| / 4 => BytesWord(b[4 * i..4 * i + 4]))
  }

  lemma {:induction false} EncodedWord(sums: seq<Word>, i: nat)
    requires i < |sums|
    ensures Encode(sums)[4 * i..4 * i + 4] == WordBytes(sums[i])
    decreases |sums|
  {
    var front, n := sums[..|sums| - 1], |sums| - 1;
    if i < n {
      EncodedWord(front, i);
      assert Encode(sums)[4 * i..4 * i + 4] == Encode(front)[4 * i..4 * i + 4];
    } else {
      assert Encode(sums)[4 * n..4 * n + 4] == Encode(sums)[4 * n..];
    }
  }

  lemma DecodeEncode(sums: seq<Word>)
    ensures Decode(Encode(sums)) == sums
  {
    forall i | 0 <= i < |sums| ensures Decode(Encode(sums))[i] == sums[i] {
      EncodedWord(sums, i);
      WordBytesInverse(sums[i]);
    }
  }

  lemma EncodeMore(sums: seq<Word>, sum: Word)
    ensures Encode(sums + [sum]) == Encode(sums) + WordBytes(sum)
  {
    assert (sums + [sum])[..|sums|] == sums;
  }

  lemma DecodeMore(front: Bytes, last: Bytes, n: nat)
    requires |front| == 4 * n && |last| == 4
    ensures Decode(front + last) == Decode(front) + [BytesWord(last)]
  {
    var b := front + last;
    forall i | 0 <= i < n ensures b[4 * i..4 * i + 4] == front[4 * i..4 * i + 4] {
    }
    assert b[4 * n..4 * n + 4] == last;
  }

  lemma {:induction false} EncodeDecode(b: Bytes, n: nat)
    requires |b| == 4 * n
    ensures Encode(Decode(b)) == b
    decreases n
  {
    if n > 0 {
      var front, last := b[..4 * (n - 1)], b[4 * (n - 1)..];
      assert b == front + last;
      DecodeMore(front, last, n - 1);
      EncodeMore(Decode(front), BytesWord(last));
      BytesWordInverse(last);
      EncodeDecode(front, n - 1);
    }
  }

  // ---- The store as a value ----

  /** What is in memory and what is on disk. */
  datatype Snapshot = Snapshot(cache: map<Handle, seq<Word>>, disk: map<Handle, Bytes>)

  function OnDisk(s: Snapshot, h: Handle): seq<Word> {
    Decode(FileOf(s.disk, h))
  }

  /** The vector every operation on `h` works with. */
  function Sums(s: Snapshot, h: Handle): seq<Word> {
    if h in s.cache then s.cache[h] else OnDisk(s, h)
  }

  function Loaded(s: Snapshot, h: Handle): Snapshot {
    s.(cache := s.cache[h := Sums(s, h)])
  }

  function Flushed(s: Snapshot, h: Handle): Snapshot {
    s.(cache := s.cache[h := SumsOf(s.cache, h)], disk := s.disk[h := Encode(SumsOf(s.cache, h))])
  }

  function Updated(s: Snapshot, h: Handle, block: nat, sum: Word): Snapshot {
    var sums := WithSum(Sums(s, h), block, sum);
    Snapshot(s.cache[h := sums], s.disk[h := Encode(sums)])
  }

  /** Everything cached is what the file decodes to. */
  ghost predicate Coherent(s: Snapshot) {
    forall h :: h in s.cache ==> s.cache[h] == OnDisk(s, h)
  }

  // ---- The class ----

  /** std::vector::resize to a larger size, new elements zero. */
  function Resized(sums: seq<Word>, size: nat): (r: seq<Word>)
    requires |sums| <= size
    ensures |r| == size
  {
    sums + seq(size - |sums|, _ => Gf2.Zeros(32))
  }

  lemma UpdateStaysCoherent(s: Snapshot, h: Handle, block: nat, sum: Word)
    requires Coherent(s)
    ensures Coherent(Updated(s, h, block, sum))
    ensures forall k :: Sums(Updated(s, h, block, sum), k) == if k == h then WithSum(Sums(s, h), block, sum)
      else Sums(s, k)
  {
    DecodeEncode(WithSum(Sums(s, h), block, sum));
  }

  class ChecksumStore {
    /** The server it belongs to. */
    ghost const owner: Addr
    var cache: map<Handle, seq<Word>>
    var disk: map<Handle, Bytes>

    function State(): Snapshot
      reads this
    {
      Snapshot(cache, disk)
    }

    /** A server that starts over the files of an earlier one. */
    constructor (ghost owner: Addr, files: map<Handle, Bytes>)
      ensures this.owner == owner && State() == Snapshot(map[], files) && Coherent(State())
    {
      this.owner := owner;
      cache, disk := map[], files;
    }

    method LoadFromDiskIfNeeded(h: Handle)
      modifies this`cache
      ensures State() == Loaded(old(State()), h)
      ensures old(Coherent(State())) ==> Coherent(State())
    {
      if h in cache {
        assert cache[h := cache[h]] == cache;
        return;
      }
      var sums: seq<Word> := [];
      if h in disk {
        var file, pos := disk[h], 0;
        while pos + 4 <= |file|
          invariant 0 <= pos <= |file| && pos == 4 * |sums|
          invariant sums == Decode(file)[..|sums|]
        {
          sums := sums + [BytesWord(file[pos..pos + 4])];
          pos := pos + 4;
        }
        assert sums == Decode(file);
      }
      cache := cache[h := sums];
    }

    method SaveToDisk(h: Handle)
      modifies this
      ensures State() == Flushed(old(State()), h)
      ensures old(Coherent(State())) ==> Coherent(State())
    {
      if h !in cache { cache := cache[h := []]; }
      var sums := cache[h];
      var file: Bytes := [];
      for i := 0 to |sums|
        invariant file == Encode(sums[..i])
      {
        assert sums[..i + 1][..i] == sums[..i];
        file := file + WordBytes(sums[i]);
      }
      assert sums[..|sums|] == sums;
      disk := disk[h := file];
      assert cache == old(cache)[h := sums];
      DecodeEncode(sums);
    }

    /** Record the checksum of one block and write the vector through. */
    method Update(h: Handle, block: int, sum: Word) returns (thrown: bool)
      requires block != -1  // resizing to 0 and then storing at -1 is undefined behaviour
      modifies this
      ensures thrown <==> block < 0
      ensures State() == if block < 0 then Loaded(old(State()), h) else Updated(old(State()), h, block, sum)
      ensures old(Coherent(State())) ==> Coherent(State())
    {
      ghost var start := State();
      LoadFromDiskIfNeeded(h);
      var sums: seq<Word> := cache[h];
      // the index is compared unsigned, and no vector can be resized to such a length
      if block < 0 { return true; }
      if block >= |sums| { sums := Resized(sums, block + 1); }
      cache := cache[h := sums[block := sum]];
      assert cache[h] == WithSum(Sums(start, h), block, sum);
      SaveToDisk(h);
      assert State() == Updated(start, h, block, sum);
      if Coherent(start) { UpdateStaysCoherent(start, h, block, sum); }
      return false;
    }

    /** Does `data` match what is recorded? Never for a block nothing is recorded for. */
    method Verify(h: Handle, block: int, data: Bytes) returns (ok: bool)
      modifies this`cache
      ensures State() == Loaded(old(State()), h)
      ensures old(Coherent(State())) ==> Coherent(State())
      ensures ok <==> 0 <= block < |old(Sums(State(), h))| && old(Sums(State(), h))[block] == Checksum(data)
    {
      LoadFromDiskIfNeeded(h);
      // the index is compared unsigned, so a negative one is past the end
      if block < 0 || block >= |cache[h]| { return false; }
      var computed := Compute(data);
      ok := cache[h][block] == computed;
    }
  }

  // ---- Sequences of operations ----

  datatype Op =
    | Put(handle: Handle, block: nat, sum: Word)
    | Check(handle: Handle)  // a verify, which may fill the cache
    | DropCache              // a restart of the server

  function Do(s: Snapshot, op: Op): Snapshot {
    match op
    case Put(h, block, sum) => Updated(s, h, block, sum)
    case Check(h) => Loaded(s, h)
    case DropCache => s.(cache := map[])
  }

  function After(s: Snapshot, ops: seq<Op>): Snapshot
    decreases |ops|
  {
    if ops == [] then s else Do(After(s, Init(ops)), Last(ops))
  }

  /** What a verify of one block compares with, if anything. */
  function Recorded(s: Snapshot, h: Handle, block: nat): Option<Word> {
    if block < |Sums(s, h)| then Some(Sums(s, h)[block]) else None
  }

  function LastPut(ops: seq<Op>, h: Handle, block: nat): Option<Word>
    decreases |ops|
  {
    if ops == [] then None
    else if Last(ops).Put? && Last(ops).handle == h && Last(ops).block == block then Some(Last(ops).sum)
    else LastPut(Init(ops), h, block)
  }

  predicate PutBeyond(ops: seq<Op>, h: Handle, block: nat) {
    exists i :: 0 <= i < |ops| && ops[i].Put? && ops[i].handle == h && ops[i].block > block
  }

  /** The plain-map reading of a run: the last checksum put for the block; else what was
      there before; else zero if a later block was ever put; else nothing. */
  function Expected(s: Snapshot, ops: seq<Op>, h: Handle, block: nat): Option<Word> {
    var last := LastPut(ops, h, block);
    if last.Some? then last
    else if block < |Sums(s, h)| then Some(Sums(s, h)[block])
    else if PutBeyond(ops, h, block) then Some(Gf2.Zeros(32))
    else None
  }

  lemma PutBeyondLast(ops: seq<Op>, h: Handle, block: nat)
    requires ops != []
    ensures PutBeyond(ops, h, block) <==>
      PutBeyond(Init(ops), h, block) || (Last(ops).Put? && Last(ops).handle == h && Last(ops).block > block)
  {
    if PutBeyond(Init(ops), h, block) {
      var i :| 0 <= i < |Init(ops)| && Init(ops)[i].Put? && Init(ops)[i].handle == h && Init(ops)[i].block > block;
      assert ops[i].Put? && ops[i].handle == h && ops[i].block > block;
    }
    if PutBeyond(ops, h, block) && !(Last(ops).Put? && Last(ops).handle == h && Last(ops).block > block) {
      var i :| 0 <= i < |ops| && ops[i].Put? && ops[i].handle == h && ops[i].block > block;
      assert Init(ops)[i] == ops[i];
    }
  }

  lemma StepRecords(s: Snapshot, op: Op, h: Handle, block: nat)
    requires Coherent(s)
    ensures Coherent(Do(s, op))
    ensures Recorded(Do(s, op), h, block) ==
      if !(op.Put? && op.handle == h) then Recorded(s, h, block)
      else if op.block == block then Some(op.sum)
      else if Recorded(s, h, block).Some? || op.block < block then Recorded(s, h, block)
      else Some(Gf2.Zeros(32))
  {
    if op.Put? { UpdateStaysCoherent(s, op.handle, op.block, op.sum); }
  }

  /** After any run over any chunks and blocks the cache is what the files decode to,
      and the store answers as the plain map does. */
  lemma {:induction false} StoreIsMap(s: Snapshot, ops: seq<Op>, h: Handle, block: nat)
    requires Coherent(s)
    ensures Coherent(After(s, ops))
    ensures Recorded(After(s, ops), h, block) == Expected(s, ops, h, block)
    decreases |ops|
  {
    if ops != [] {
      StoreIsMap(s, Init(ops), h, block);
      PutBeyondLast(ops, h, block);
      StepRecords(After(s, Init(ops)), Last(ops), h, block);
    }
  }

  lemma {:induction false} ForgettingPutsNothing(before: seq<Op>, later: seq<Op>, h: Handle, block: nat)
    ensures LastPut(before + [DropCache] + later, h, block) == LastPut(before + later, h, block)
    ensures PutBeyond(before + [DropCache] + later, h, block) == PutBeyond(before + later, h, block)
    decreases |later|
  {
    var with, plain := before + [DropCache] + later, before + later;
    if later == [] {
      assert plain == before && Init(with) == before;
      PutBeyondLast(with, h, block);
    } else {
      assert Init(with) == before + [DropCache] + Init(later) && Init(plain) == before + Init(later);
      PutBeyondLast(with, h, block);
      PutBeyondLast(plain, h, block);
      ForgettingPutsNothing(before, Init(later), h, block);
    }
  }

  /** Dropping the cache at any point changes no later answer. */
  lemma CacheDropInvisible(s: Snapshot, before: seq<Op>, later: seq<Op>, h: Handle, block: nat)
    requires Coherent(s)
    ensures Recorded(After(s, before + [DropCache] + later), h, block) == Recorded(After(s, before + later), h, block)
  {
    StoreIsMap(s, before + [DropCache] + later, h, block);
    StoreIsMap(s, before + later, h, block);
    ForgettingPutsNothing(before, later, h, block);
  }
}
