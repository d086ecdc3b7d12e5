/** The client's read loop (client/gfs_client.py): a byte range split at chunk borders,
    each piece located through the cache or the master and read from the first replica
    that answers. Every remote call and every look at the clock may come out differently
    each time it is made. */
module ClientRead {
  import opened Locations
  import opened Seqs
  import opened Wrappers
  import opened ChunkState
  import opened Crc32
  import WriteChain

  type Path = string
  type Time = int

  const CACHE_TTL: Time := 60

  datatype Entry = Entry(at: Location, expiresAt: Time)

  datatype LookupAnswer = Found(at: Location) | LookupError

  datatype FetchAnswer = Data(data: Bytes, checksumOk: bool) | RpcError

  /** What the outside answers to the client's n-th call. */
  datatype Outside = Outside(
    now: nat -> Time,
    locate: (nat, Path, int) -> LookupAnswer,
    fetch: (nat, Addr, Handle, int, int) -> FetchAnswer)

  datatype Client = Client(outside: Outside, cache: map<(Path, int), Entry>, calls: nat)

  datatype ReadResult = Ok(data: Bytes) | MasterFailed | AllReplicasFailed(handle: Handle)

  // ---- What the loop computes ----

  /** The cached location while it is fresh, else a new one from the master. */
  function Locate(c: Client, path: Path, index: int): (Client, Option<Entry>) {
    var key := (path, index);
    if key in c.cache && c.outside.now(c.calls) < c.cache[key].expiresAt then (c, Some(c.cache[key]))
    else
      var c1 := c.(cache := c.cache - {key}, calls := c.calls + 1);
      match c.outside.locate(c.calls, path, index)
      case LookupError => (c1, None)
      case Found(at) =>
        var e := Entry(at, c.outside.now(c1.calls) + CACHE_TTL);
        (c1.(cache := c1.cache[key := e]), Some(e))
  }

  predicate Good(f: FetchAnswer) {
    f.Data? && f.checksumOk
  }

  /** The replicas in turn: a failed call drops the cache entry, a bad checksum does not. */
  function Fetch(c: Client, key: (Path, int), h: Handle, addrs: seq<Addr>, offset: int,
                 length: int): (Client, Option<Bytes>)
    decreases |addrs|
  {
    if addrs == [] then (c, None)
    else if addrs[0] == "" then Fetch(c, key, h, addrs[1..], offset, length)
    else
      var answer, c1 := c.outside.fetch(c.calls, addrs[0], h, offset, length), c.(calls := c.calls + 1);
      if Good(answer) then (c1, Some(answer.data))
      else Fetch(if answer.RpcError? then c1.(cache := c1.cache - {key}) else c1, key, h, addrs[1..], offset, length)
  }

  function ReadPiece(c: Client, path: Path, index: int, offset: int, length: int): (Client, ReadResult) {
    var (c1, e) := Locate(c, path, index);
    if e.None? then (c1, MasterFailed)
    else
      var (c2, data) := Fetch(c1, (path, index), e.value.at.handle, Contacts(e.value.at), offset, length);
      (c2, if data.Some? then Ok(data.value) else AllReplicasFailed(e.value.at.handle))
  }

  /** How much of the range its first chunk holds. */
  function PieceLength(offset: int, remaining: int): (n: int)
    requires remaining > 0
    ensures 0 < n <= remaining
  {
    var room := CHUNK_SIZE - offset % CHUNK_SIZE;
    if remaining < room then remaining else room
  }

  function ReadLoop(c: Client, path: Path, offset: int, remaining: int, sofar: Bytes): (Client, ReadResult)
    decreases remaining
  {
    if remaining <= 0 then (c, Ok(sofar))
    else
      var n := PieceLength(offset, remaining);
      var (c1, r) := ReadPiece(c, path, offset / CHUNK_SIZE, offset % CHUNK_SIZE, n);
      if r.Ok? then ReadLoop(c1, path, offset + n, remaining - n, sofar + r.data) else (c1, r)
  }

  class GFSClient {
    const outside: Outside
    var cache: map<(Path, int), Entry>
    var calls: nat

    function State(): Client
      reads this
    {
      Client(outside, cache, calls)
    }

    constructor (outside: Outside)
      ensures State() == Client(outside, map[], 0)
    {
      this.outside := outside;
      cache, calls := map[], 0;
    }

    /** client/cache.py, get: an expired entry is dropped. */
    method CacheGet(path: Path, index: int) returns (e: Option<Entry>)
      modifies this`cache
      ensures var key := (path, index);
        if key in old(cache) && outside.now(calls) < old(cache)[key].expiresAt
        then e == Some(old(cache)[key]) && cache == old(cache)
        else e == None && cache == old(cache) - {key}
    {
      var key := (path, index);
      if key in cache && outside.now(calls) < cache[key].expiresAt { return Some(cache[key]); }
      cache := cache - {key};
      return None;
    }

    /** Through the cache or from the master. */
    method LocateChunk(path: Path, index: int) returns (e: Option<Entry>)
      modifies this`cache, this`calls
      ensures (State(), e) == Locate(old(State()), path, index)
    {
      e := CacheGet(path, index);
      if e.Some? { return; }
      var raw := outside.locate(calls, path, index);
      calls := calls + 1;
      if raw.LookupError? { return None; }
      e := Some(Entry(raw.at, outside.now(calls) + CACHE_TTL));
      cache := cache[(path, index) := e.value];
    }

    /** The inner loop of the read. */
    method FetchFromAny(key: (Path, int), e: Entry, offset: int, length: int) returns (data: Option<Bytes>)
      modifies this`cache, this`calls
      ensures (State(), data) == Fetch(old(State()), key, e.at.handle, Contacts(e.at), offset, length)
    {
      var addrs := Contacts(e.at);
      for i := 0 to |addrs|
        invariant Fetch(State(), key, e.at.handle, addrs[i..], offset, length) ==
          Fetch(old(State()), key, e.at.handle, addrs, offset, length)
      {
        assert addrs[i..][1..] == addrs[i + 1..];
        if addrs[i] == "" { continue; }
        var answer := outside.fetch(calls, addrs[i], e.at.handle, offset, length);
        calls := calls + 1;
        if Good(answer) { return Some(answer.data); }
        if answer.RpcError? { cache := cache - {key}; }
      }
      return None;
    }

    method Read(path: Path, offset: int, length: int) returns (result: ReadResult)
      modifies this`cache, this`calls
      ensures (State(), result) == ReadLoop(old(State()), path, offset, length, [])
    {
      var bytes: Bytes, remaining, current := [], length, offset;
      while remaining > 0
        invariant ReadLoop(State(), path, current, remaining, bytes) == ReadLoop(old(State()), path, offset, length, [])
      {
        var index, chunkOffset := current / CHUNK_SIZE, current % CHUNK_SIZE;
        var n := PieceLength(current, remaining);
        var e := LocateChunk(path, index);
        if e.None? { return MasterFailed; }
        var data := FetchFromAny((path, index), e.value, chunkOffset, n);
        if data.None? { return AllReplicasFailed(e.value.at.handle); }
        bytes := bytes + data.value;
        current, remaining := current + n, remaining - n;
      }
      return Ok(bytes);
    }
  }

  // ---- The file a client reads ----

  datatype Placed = Placed(handle: Handle, servers: set<Addr>)

  /** Answers come from the chunk files of the servers. */
  ghost predicate Serves(o: Outside, net: Net) {
    forall n, a, h, offset, length :: 0 <= offset && 0 <= length && Good(o.fetch(n, a, h, offset, length)) ==>
      && a in net && h in net[a].files
      && o.fetch(n, a, h, offset, length).data == Slice(net[a].files[h], offset, length)
  }

  predicate PointsAt(h: Handle, addrs: seq<Addr>, index: int, layout: seq<Placed>) {
    0 <= index ==>
      index < |layout| && h == layout[index].handle && forall a :: a in addrs && a != "" ==> a in layout[index].servers
  }

  /** The master knows which servers hold which chunk of the file, and so does the cache. */
  ghost predicate Points(c: Client, path: Path, layout: seq<Placed>) {
    && (forall n, i :: c.outside.locate(n, path, i).Found? ==>
         var at := c.outside.locate(n, path, i).at;
         PointsAt(at.handle, Contacts(at), i, layout))
    && (forall i :: (path, i) in c.cache ==>
         PointsAt(c.cache[(path, i)].at.handle, Contacts(c.cache[(path, i)].at), i, layout))
  }

  /** All replicas of the i-th chunk hold the bytes `chunks[i]`. */
  ghost predicate Holds(net: Net, layout: seq<Placed>, chunks: seq<Bytes>) {
    && |layout| == |chunks|
    && (forall i, a :: 0 <= i < |layout| && a in layout[i].servers && a in net ==>
         FileOf(net[a].files, layout[i].handle) == chunks[i])
  }

  /** Only the last chunk may be short. */
  ghost predicate Packed(chunks: seq<Bytes>) {
    forall i :: 0 <= i < |chunks| ==> |chunks[i]| <= CHUNK_SIZE && (i < |chunks| - 1 ==> |chunks[i]| == CHUNK_SIZE)
  }

  /** No read goes past the chunk size within one chunk file. */
  function Clip(b: Bytes): Bytes {
    if |b| <= CHUNK_SIZE then b else b[..CHUNK_SIZE]
  }

  function Clipped(chunks: seq<Bytes>): (c: seq<Bytes>)
    ensures |c| == |chunks|
  {
    seq(|chunks|, i requires 0 <= i < |chunks| => Clip(chunks[i]))
  }

  /** The bytes of a file, chunk after chunk. */
  function Contents(chunks: seq<Bytes>): Bytes {
    Concat(Clipped(chunks))
  }

  lemma SliceOfClip(b: Bytes, offset: nat, length: nat)
    requires offset + length <= CHUNK_SIZE
    ensures Slice(Clip(b), offset, length) == Slice(b, offset, length)
  {
  }

  lemma {:induction false} EqualSizes(chunks: seq<Bytes>, size: nat)
    requires forall i :: 0 <= i < |chunks| ==> |chunks[i]| == size
    ensures |Concat(chunks)| == size * |chunks|
    decreases |chunks|
  {
    if chunks != [] {
      EqualSizes(Init(chunks), size);
      assert size * |chunks| == size * (|chunks| - 1) + size;
    }
  }

  lemma PackedSize(chunks: seq<Bytes>)
    requires forall i :: 0 <= i < |chunks| ==> |chunks[i]| == CHUNK_SIZE
    ensures |Concat(chunks)| == CHUNK_SIZE * |chunks|
  {
    EqualSizes(chunks, CHUNK_SIZE);
  }

  lemma SliceOfFront(a: Bytes, b: Bytes, offset: nat, length: nat)
    requires offset + length <= |a|
    ensures Slice(a + b, offset, length) == Slice(a, offset, length)
  {
  }

  lemma SliceOfBack(a: Bytes, b: Bytes, offset: nat, length: nat)
    ensures Slice(a + b, |a| + offset, length) == Slice(b, offset, length)
  {
  }

  /** A piece of one chunk is the piece of the file at the same place. */
  lemma {:induction false} ChunkSlice(chunks: seq<Bytes>, i: nat, offset: nat, length: nat)
    requires Packed(chunks) && i < |chunks| && offset + length <= CHUNK_SIZE
    ensures Slice(chunks[i], offset, length) == Slice(Concat(chunks), CHUNK_SIZE * i + offset, length)
    decreases |chunks|
  {
    var front := Init(chunks);
    PackedSize(front);
    if i == |chunks| - 1 {
      SliceOfBack(Concat(front), chunks[i], offset, length);
    } else {
      ChunkSlice(front, i, offset, length);
      SliceOfFront(Concat(front), Last(chunks), CHUNK_SIZE * i + offset, length);
    }
  }

  lemma SliceSplit(b: Bytes, offset: nat, m: nat, n: nat)
    ensures Slice(b, offset, m) + Slice(b, offset + m, n) == Slice(b, offset, m + n)
  {
  }

  lemma LocatePoints(c: Client, path: Path, index: int, layout: seq<Placed>)
    requires Points(c, path, layout)
    ensures var (c1, e) := Locate(c, path, index);
      && Points(c1, path, layout) && c1.outside == c.outside
      && (e.Some? ==> PointsAt(e.value.at.handle, Contacts(e.value.at), index, layout))
  {
  }

  lemma {:induction false} FetchExact(c: Client, path: Path, index: nat, h: Handle, addrs: seq<Addr>, offset: nat,
                                      length: nat, net: Net, layout: seq<Placed>, chunks: seq<Bytes>)
    requires Serves(c.outside, net) && Points(c, path, layout) && Holds(net, layout, chunks)
    requires PointsAt(h, addrs, index, layout)
    ensures var (c1, data) := Fetch(c, (path, index), h, addrs, offset, length);
      && Points(c1, path, layout) && c1.outside == c.outside
      && (data.Some? ==> data.value == Slice(chunks[index], offset, length))
    decreases |addrs|
  {
    if addrs != [] {
      var answer, c1 := c.outside.fetch(c.calls, addrs[0], h, offset, length), c.(calls := c.calls + 1);
      var c2 := if addrs[0] == "" then c else if answer.RpcError? then c1.(cache := c1.cache - {(path, index)}) else c1;
      assert PointsAt(h, addrs[1..], index, layout);
      FetchExact(c2, path, index, h, addrs[1..], offset, length, net, layout, chunks);
    }
  }

  lemma PieceFits(offset: nat, remaining: nat)
    requires remaining > 0
    ensures offset == CHUNK_SIZE * (offset / CHUNK_SIZE) + offset % CHUNK_SIZE
    ensures offset % CHUNK_SIZE + PieceLength(offset, remaining) <= CHUNK_SIZE
  {
  }

  lemma PieceExact(c: Client, path: Path, index: nat, offset: nat, length: nat, net: Net, layout: seq<Placed>,
                   chunks: seq<Bytes>)
    requires offset + length <= CHUNK_SIZE
    requires Serves(c.outside, net) && Points(c, path, layout) && Holds(net, layout, chunks) && Packed(Clipped(chunks))
    ensures var (c1, r) := ReadPiece(c, path, index, offset, length);
      && Points(c1, path, layout) && c1.outside == c.outside
      && (r.Ok? ==> r.data == Slice(Contents(chunks), CHUNK_SIZE * index + offset, length))
  {
    var (c1, e) := Locate(c, path, index);
    LocatePoints(c, path, index, layout);
    if e.Some? {
      FetchExact(c1, path, index, e.value.at.handle, Contacts(e.value.at), offset, length, net, layout, chunks);
      SliceOfClip(chunks[index], offset, length);
      ChunkSlice(Clipped(chunks), index, offset, length);
    }
  }

  /** The file the client reads, and what it knows of it. */
  ghost predicate Reading(c: Client, path: Path, net: Net, layout: seq<Placed>, chunks: seq<Bytes>) {
    Serves(c.outside, net) && Points(c, path, layout) && Holds(net, layout, chunks) && Packed(Clipped(chunks))
  }

  lemma FirstPieceExact(c: Client, path: Path, offset: nat, length: nat, net: Net, layout: seq<Placed>,
                        chunks: seq<Bytes>)
    requires length > 0 && Reading(c, path, net, layout, chunks)
    ensures var n := PieceLength(offset, length);
      var (c1, r) := ReadPiece(c, path, offset / CHUNK_SIZE, offset % CHUNK_SIZE, n);
      && Reading(c1, path, net, layout, chunks)
      && (r.Ok? ==> r.data == Slice(Contents(chunks), offset, n))
  {
    PieceFits(offset, length);
    PieceExact(c, path, offset / CHUNK_SIZE, offset % CHUNK_SIZE, PieceLength(offset, length), net, layout, chunks);
  }

  lemma SliceMore(sofar: Bytes, b: Bytes, offset: nat, m: nat, n: nat)
    ensures (sofar + Slice(b, offset, m)) + Slice(b, offset + m, n) == sofar + Slice(b, offset, m + n)
  {
    SliceSplit(b, offset, m, n);
  }

  /** Whatever calls fail and however often locations change, a read that returns gives
      exactly the requested range of the file, clipped at its end. */
  lemma {:induction false} ReadIsExact(c: Client, path: Path, offset: nat, length: nat, sofar: Bytes,
                                       net: Net, layout: seq<Placed>, chunks: seq<Bytes>)
    requires Reading(c, path, net, layout, chunks)
    ensures var (c1, r) := ReadLoop(c, path, offset, length, sofar);
      && Reading(c1, path, net, layout, chunks)
      && (r.Ok? ==> r.data == sofar + Slice(Contents(chunks), offset, length))
    decreases length
  {
    if length > 0 {
      var n := PieceLength(offset, length);
      var (c1, r) := ReadPiece(c, path, offset / CHUNK_SIZE, offset % CHUNK_SIZE, n);
      FirstPieceExact(c, path, offset, length, net, layout, chunks);
      if r.Ok? {
        ReadIsExact(c1, path, offset + n, length - n, sofar + r.data, net, layout, chunks);
        SliceMore(sofar, Contents(chunks), offset, n, length - n);
      }
    }
  }

  // ---- When a read succeeds ----

  /** Nothing changes while the client reads, and its cache is up to date. */
  ghost predicate Steady(c: Client) {
    && (forall n, path, i :: c.outside.locate(n, path, i) == c.outside.locate(0, path, i))
    && (forall n, a, h, offset, length ::
         c.outside.fetch(n, a, h, offset, length) == c.outside.fetch(0, a, h, offset, length))
    && (forall path, i :: (path, i) in c.cache ==>
         var f, e := c.outside.locate(0, path, i), c.cache[(path, i)];
         f.Found? && f.at == e.at)
  }

  predicate AnyGood(o: Outside, addrs: seq<Addr>, h: Handle, offset: int, length: int) {
    exists a :: a in addrs && a != "" && Good(o.fetch(0, a, h, offset, length))
  }

  /** The chunk exists and some replica of it answers. */
  predicate Readable(o: Outside, path: Path, index: int, offset: int, length: int) {
    var f := o.locate(0, path, index);
    f.Found? && AnyGood(o, Contacts(f.at), f.at.handle, offset, length)
  }

  function Max(a: int, b: int): int { if a < b then b else a }
  function Min(a: int, b: int): int { if a < b then a else b }

  /** Where the part of a range that lies in chunk `index` starts in that chunk. */
  function PartFrom(offset: int, index: int): int {
    Max(offset, CHUNK_SIZE * index) - CHUNK_SIZE * index
  }

  /** How long that part is; not positive when there is none. */
  function PartLength(offset: int, length: int, index: int): int {
    Min(offset + length, CHUNK_SIZE * (index + 1)) - Max(offset, CHUNK_SIZE * index)
  }

  /** The first piece of a range is its part in the first chunk; the rest of the range has
      the same parts in the other chunks and none in the first. */
  lemma PartsOfRest(offset: int, length: int, index: int)
    requires length > 0
    ensures var n := PieceLength(offset, length);
      if index == offset / CHUNK_SIZE then
        PartFrom(offset, index) == offset % CHUNK_SIZE && PartLength(offset, length, index) == n
          && PartLength(offset + n, length - n, index) <= 0
      else
        && (PartLength(offset, length, index) > 0 <==> PartLength(offset + n, length - n, index) > 0)
        && (PartLength(offset, length, index) > 0 ==>
              PartFrom(offset, index) == PartFrom(offset + n, index)
                && PartLength(offset, length, index) == PartLength(offset + n, length - n, index))
  {
  }

  /** The part of the range that lies in the chunk is readable. */
  predicate PartReadable(o: Outside, path: Path, offset: int, length: int, index: int) {
    PartLength(offset, length, index) > 0 ==>
      Readable(o, path, index, PartFrom(offset, index), PartLength(offset, length, index))
  }

  /** Every chunk the range touches is readable there. */
  ghost predicate AllReadable(o: Outside, path: Path, offset: int, length: int) {
    forall i :: PartReadable(o, path, offset, length, i)
  }

  lemma {:induction false} FetchSucceedsIff(c: Client, key: (Path, int), h: Handle, addrs: seq<Addr>, offset: int,
                                            length: int)
    requires Steady(c)
    ensures var (c1, data) := Fetch(c, key, h, addrs, offset, length);
      Steady(c1) && c1.outside == c.outside && (data.Some? <==> AnyGood(c.outside, addrs, h, offset, length))
    decreases |addrs|
  {
    if addrs != [] {
      var a, rest := addrs[0], addrs[1..];
      var answer, c1 := c.outside.fetch(c.calls, a, h, offset, length), c.(calls := c.calls + 1);
      assert answer == c.outside.fetch(0, a, h, offset, length);
      assert forall b :: b in addrs <==> b == a || b in rest;
      var c2 := if a == "" then c else if answer.RpcError? then c1.(cache := c1.cache - {key}) else c1;
      FetchSucceedsIff(c2, key, h, rest, offset, length);
    }
  }

  lemma PieceSucceedsIff(c: Client, path: Path, index: int, offset: int, length: int)
    requires Steady(c)
    ensures var (c1, r) := ReadPiece(c, path, index, offset, length);
      Steady(c1) && c1.outside == c.outside && (r.Ok? <==> Readable(c.outside, path, index, offset, length))
  {
    var (c1, e) := Locate(c, path, index);
    if e.Some? { FetchSucceedsIff(c1, (path, index), e.value.at.handle, Contacts(e.value.at), offset, length); }
  }

  /** The first piece of a range, then the pieces of the rest. */
  lemma PartsSplit(o: Outside, path: Path, offset: int, length: int)
    requires length > 0
    ensures var index, within, n := offset / CHUNK_SIZE, offset % CHUNK_SIZE, PieceLength(offset, length);
      AllReadable(o, path, offset, length) <==>
        Readable(o, path, index, within, n) && AllReadable(o, path, offset + n, length - n)
  {
    var index, n := offset / CHUNK_SIZE, PieceLength(offset, length);
    var rest, left := offset + n, length - n;
    PartsOfRest(offset, length, index);
    forall i
      ensures i != index ==> (PartReadable(o, path, offset, length, i) <==> PartReadable(o, path, rest, left, i))
    {
      PartsOfRest(offset, length, i);
    }
    if AllReadable(o, path, offset, length) {
      assert PartReadable(o, path, offset, length, index);
      forall i ensures PartReadable(o, path, rest, left, i) {
        assert PartReadable(o, path, offset, length, i);
      }
    }
  }

  lemma FirstSucceedsIff(c: Client, path: Path, offset: int, length: int)
    requires Steady(c) && length > 0
    ensures var n := PieceLength(offset, length);
      var (c1, r) := ReadPiece(c, path, offset / CHUNK_SIZE, offset % CHUNK_SIZE, n);
      && Steady(c1) && c1.outside == c.outside
      && (AllReadable(c.outside, path, offset, length) <==>
           r.Ok? && AllReadable(c.outside, path, offset + n, length - n))
  {
    PieceSucceedsIff(c, path, offset / CHUNK_SIZE, offset % CHUNK_SIZE, PieceLength(offset, length));
    PartsSplit(c.outside, path, offset, length);
  }

  /** A read returns data exactly when every chunk the range touches exists and has a
      replica that answers. */
  lemma {:induction false} ReadSucceedsIff(c: Client, path: Path, offset: int, length: int, sofar: Bytes)
    requires Steady(c)
    ensures ReadLoop(c, path, offset, length, sofar).1.Ok? <==> AllReadable(c.outside, path, offset, length)
    decreases length
  {
    if length > 0 {
      var n := PieceLength(offset, length);
      var (c1, r) := ReadPiece(c, path, offset / CHUNK_SIZE, offset % CHUNK_SIZE, n);
      FirstSucceedsIff(c, path, offset, length);
      if r.Ok? { ReadSucceedsIff(c1, path, offset + n, length - n, sofar + r.data); }
    }
  }

  /** Some replica the location names answers well every time it is asked. */
  ghost predicate AlwaysServes(o: Outside, at: Location, offset: int, length: int) {
    exists a :: a in Contacts(at) && a != "" && forall n :: Good(o.fetch(n, a, at.handle, offset, length))
  }

  /** Every location the client may use for the part of the range in this chunk, new or
      cached, names such a replica. */
  ghost predicate PartServed(c: Client, path: Path, offset: int, length: int, index: int) {
    var from, n := PartFrom(offset, index), PartLength(offset, length, index);
    n > 0 ==>
      && (forall k ::
           c.outside.locate(k, path, index).Found?
             && AlwaysServes(c.outside, c.outside.locate(k, path, index).at, from, n))
      && ((path, index) in c.cache ==> AlwaysServes(c.outside, c.cache[(path, index)].at, from, n))
  }

  lemma {:induction false} FetchServed(c: Client, key: (Path, int), h: Handle, addrs: seq<Addr>, offset: int,
                                       length: int, a: Addr)
    requires a in addrs && a != "" && forall n :: Good(c.outside.fetch(n, a, h, offset, length))
    ensures Fetch(c, key, h, addrs, offset, length).1.Some?
    decreases |addrs|
  {
    if addrs[0] != a {
      var answer, c1 := c.outside.fetch(c.calls, addrs[0], h, offset, length), c.(calls := c.calls + 1);
      var c2 := if addrs[0] == "" then c else if answer.RpcError? then c1.(cache := c1.cache - {key}) else c1;
      FetchServed(c2, key, h, addrs[1..], offset, length, a);
    }
  }

  /** A piece changes nothing of the cache but its own entry. */
  lemma {:induction false} FetchKeepsOthers(c: Client, key: (Path, int), h: Handle, addrs: seq<Addr>, offset: int,
                                            length: int)
    ensures var c1 := Fetch(c, key, h, addrs, offset, length).0;
      c1.outside == c.outside && forall k :: k in c1.cache && k != key ==> k in c.cache && c1.cache[k] == c.cache[k]
    decreases |addrs|
  {
    if addrs != [] {
      var answer, c1 := c.outside.fetch(c.calls, addrs[0], h, offset, length), c.(calls := c.calls + 1);
      var c2 := if addrs[0] == "" then c else if answer.RpcError? then c1.(cache := c1.cache - {key}) else c1;
      FetchKeepsOthers(c2, key, h, addrs[1..], offset, length);
    }
  }

  lemma PieceServed(c: Client, path: Path, index: int, offset: int, length: int)
    requires forall k ::
      c.outside.locate(k, path, index).Found?
        && AlwaysServes(c.outside, c.outside.locate(k, path, index).at, offset, length)
    requires (path, index) in c.cache ==> AlwaysServes(c.outside, c.cache[(path, index)].at, offset, length)
    ensures var (c1, r) := ReadPiece(c, path, index, offset, length);
      && r.Ok? && c1.outside == c.outside
      && forall k :: k in c1.cache && k != (path, index) ==> k in c.cache && c1.cache[k] == c.cache[k]
  {
    var (c1, e) := Locate(c, path, index);
    var at := e.value.at;
    var a :| a in Contacts(at) && a != "" && forall n :: Good(c.outside.fetch(n, a, at.handle, offset, length));
    FetchServed(c1, (path, index), at.handle, Contacts(at), offset, length, a);
    FetchKeepsOthers(c1, (path, index), at.handle, Contacts(at), offset, length);
  }

  /** The same client with entries of other chunks dropped is served no worse. */
  lemma RestServed(c: Client, c1: Client, path: Path, offset: int, length: int, i: int)
    requires length > 0 && PartServed(c, path, offset, length, i) && c1.outside == c.outside
    requires forall k :: k in c1.cache && k != (path, offset / CHUNK_SIZE) ==> k in c.cache && c1.cache[k] == c.cache[k]
    ensures var n := PieceLength(offset, length); PartServed(c1, path, offset + n, length - n, i)
  {
    PartsOfRest(offset, length, i);
  }

  lemma FirstServed(c: Client, path: Path, offset: int, length: int)
    requires length > 0 && PartServed(c, path, offset, length, offset / CHUNK_SIZE)
    ensures var (c1, r) := ReadPiece(c, path, offset / CHUNK_SIZE, offset % CHUNK_SIZE, PieceLength(offset, length));
      && r.Ok? && c1.outside == c.outside
      && forall k :: k in c1.cache && k != (path, offset / CHUNK_SIZE) ==> k in c.cache && c1.cache[k] == c.cache[k]
  {
    PartsOfRest(offset, length, offset / CHUNK_SIZE);
    PieceServed(c, path, offset / CHUNK_SIZE, offset % CHUNK_SIZE, PieceLength(offset, length));
  }

  /** For every chunk the range touches each location the client may use names a replica
      that always answers. */
  ghost predicate Served(c: Client, path: Path, offset: int, length: int) {
    forall i :: PartServed(c, path, offset, length, i)
  }

  /** After the first piece the rest is served as well. */
  lemma NextServed(c: Client, path: Path, offset: int, length: int)
    requires length > 0 && Served(c, path, offset, length)
    ensures var n := PieceLength(offset, length);
      var (c1, r) := ReadPiece(c, path, offset / CHUNK_SIZE, offset % CHUNK_SIZE, n);
      r.Ok? && Served(c1, path, offset + n, length - n)
  {
    var n := PieceLength(offset, length);
    var c1 := ReadPiece(c, path, offset / CHUNK_SIZE, offset % CHUNK_SIZE, n).0;
    FirstServed(c, path, offset, length);
    var rest, left := offset + n, length - n;
    forall i ensures PartServed(c1, path, rest, left, i) {
      RestServed(c, c1, path, offset, length, i);
    }
  }

  /** However the answers change over time and whatever else is cached, a read of a served
      range returns data. */
  lemma {:induction false} ReadServed(c: Client, path: Path, offset: int, length: int, sofar: Bytes)
    requires Served(c, path, offset, length)
    ensures ReadLoop(c, path, offset, length, sofar).1.Ok?
    decreases length
  {
    if length > 0 {
      var n := PieceLength(offset, length);
      var (c1, r) := ReadPiece(c, path, offset / CHUNK_SIZE, offset % CHUNK_SIZE, n);
      NextServed(c, path, offset, length);
      ReadServed(c1, path, offset + n, length - n, sofar + r.data);
    }
  }

  // ---- Reading after a write ----

  lemma OverlayAfter(front: Bytes, b: Bytes, offset: nat, data: Bytes)
    ensures Overlay(front + b, |front| + offset, data) == front + Overlay(b, offset, data)
  {
    if data != [] && offset < |b| {
      assert (front + b)[..|front| + offset] == front + b[..offset];
      assert offset + |data| < |b| ==> (front + b)[|front| + offset + |data|..] == b[offset + |data|..];
    }
  }

  lemma OverlayBefore(b: Bytes, rest: Bytes, offset: nat, data: Bytes)
    requires offset + |data| <= |b|
    ensures Overlay(b + rest, offset, data) == Overlay(b, offset, data) + rest
    ensures |Overlay(b, offset, data)| == |b|
  {
  }

  lemma OverlayMiddle(a: Bytes, b: Bytes, c: Bytes, offset: nat, data: Bytes)
    requires c == [] || offset + |data| <= |b|
    ensures Overlay(a + b + c, |a| + offset, data) == a + Overlay(b, offset, data) + c
  {
    if c == [] {
      assert a + b + c == a + b;
      OverlayAfter(a, b, offset, data);
    } else {
      OverlayAfter(a, b, offset, data);
      OverlayBefore(a + b, c, |a| + offset, data);
    }
  }

  lemma {:induction false} ConcatMiddle(chunks: seq<Bytes>, i: nat, after: Bytes)
    requires i < |chunks|
    ensures Concat(chunks[i := after]) == Concat(chunks[..i]) + after + Concat(chunks[i + 1..])
    decreases |chunks|
  {
    var front := Init(chunks);
    if i == |chunks| - 1 {
      assert Init(chunks[i := after]) == front == chunks[..i];
    } else {
      ConcatMiddle(front, i, after);
      assert Init(chunks[i := after]) == front[i := after];
      assert front[..i] == chunks[..i] && Init(chunks[i + 1..]) == front[i + 1..];
    }
  }

  lemma OverlayStaysPacked(chunks: seq<Bytes>, i: nat, offset: nat, data: Bytes)
    requires Packed(chunks) && i < |chunks| && offset + |data| <= CHUNK_SIZE
    ensures Packed(chunks[i := Overlay(chunks[i], offset, data)])
  {
  }

  /** Writing inside one chunk is writing at the same place of the file. */
  lemma WriteIsOverlay(chunks: seq<Bytes>, i: nat, offset: nat, data: Bytes)
    requires Packed(chunks) && i < |chunks| && offset + |data| <= CHUNK_SIZE
    ensures Concat(chunks[i := Overlay(chunks[i], offset, data)]) ==
      Overlay(Concat(chunks), CHUNK_SIZE * i + offset, data)
  {
    ConcatMiddle(chunks, i, chunks[i]);
    ConcatMiddle(chunks, i, Overlay(chunks[i], offset, data));
    assert chunks[i := chunks[i]] == chunks;
    PackedSize(chunks[..i]);
    OverlayMiddle(Concat(chunks[..i]), chunks[i], Concat(chunks[i + 1..]), offset, data);
  }

  /** What a byte of an overlaid file is. */
  function ByteAfter(file: Bytes, offset: nat, data: Bytes, k: nat): Byte
  {
    if offset <= k < offset + |data| then data[k - offset]
    else if k < |file| then file[k]
    else ZERO
  }

  lemma OverlaidByte(file: Bytes, offset: nat, data: Bytes, k: nat)
    requires k < |Overlay(file, offset, data)|
    ensures Overlay(file, offset, data)[k] == ByteAfter(file, offset, data, k)
    ensures |Overlay(file, offset, data)| == if data == [] then |file| else Max(|file|, offset + |data|)
  {
  }

  lemma OverlaidSlice(file: Bytes, at: nat, data: Bytes, offset: nat, length: nat, k: nat)
    requires k < |Slice(Overlay(file, at, data), offset, length)|
    ensures Slice(Overlay(file, at, data), offset, length)[k] == ByteAfter(file, at, data, offset + k)
  {
    OverlaidByte(file, at, data, offset + k);
  }

  /** `got` is the range of `file` after `data` was written at `at`, byte for byte. */
  ghost predicate Sees(got: Bytes, file: Bytes, at: nat, data: Bytes, offset: nat, length: nat) {
    && |got| == |Slice(Overlay(file, at, data), offset, length)|
    && forall k :: 0 <= k < |got| ==> got[k] == ByteAfter(file, at, data, offset + k)
  }

  lemma OverlaidRange(got: Bytes, file: Bytes, at: nat, data: Bytes, offset: nat, length: nat)
    requires got == [] + Slice(Overlay(file, at, data), offset, length)
    ensures Sees(got, file, at, data, offset, length)
  {
    forall k | 0 <= k < |got| ensures got[k] == ByteAfter(file, at, data, offset + k) {
      OverlaidSlice(file, at, data, offset, length, k);
    }
  }

  /** A write of `data` along `chain` that the client was told succeeded. */
  ghost predicate Acknowledged(net: Net, n: Net, chain: seq<Addr>, w: WriteHead, data: Bytes, push: seq<Outcome>,
                               commit: seq<Outcome>)
  {
    && |push| == |commit| == |chain| > 0 && Distinct(chain)
    && (forall b :: b in chain && b in net ==> KeyOf(w) !in net[b].buffer)
    && ClientWrite(net, chain, w, data, push, commit) == (n, Written)
  }

  /** The write goes to the `i`-th chunk of the file and to all its replicas. */
  ghost predicate GoesTo(layout: seq<Placed>, i: nat, chain: seq<Addr>, h: Handle) {
    && i < |layout|
    && (forall j :: 0 <= j < |layout| ==> (layout[j].handle == h <==> j == i))
    && (forall a :: a in layout[i].servers ==> a in chain)
  }

  lemma WriteReachesReplicas(net: Net, n: Net, chain: seq<Addr>, w: WriteHead, data: Bytes, push: seq<Outcome>,
                             commit: seq<Outcome>, layout: seq<Placed>, chunks: seq<Bytes>, i: nat)
    requires Acknowledged(net, n, chain, w, data, push, commit)
    requires Holds(net, layout, chunks) && GoesTo(layout, i, chain, w.handle)
    ensures Holds(n, layout, chunks[i := Overlay(chunks[i], w.offset, data)])
  {
    WriteChain.WriteLeavesPrefixes(net, chain, w, data, push, commit);
    assert chain[..|chain|] == chain;
    forall j, a | 0 <= j < |layout| && a in layout[j].servers && a in n
      ensures FileOf(n[a].files, layout[j].handle) == chunks[i := Overlay(chunks[i], w.offset, data)][j]
    {
      assert FileOf(net[a].files, layout[j].handle) == chunks[j];
      if a in chain { WriteChain.AcknowledgedEverywhere(net, chain, w, data, push, commit, a); }
    }
  }

  /** The part of a write that lies in its chunk; the client does not split a longer one. */
  function Fitting(within: nat, data: Bytes): (d: Bytes)
    requires within <= CHUNK_SIZE
    ensures within + |d| <= CHUNK_SIZE
    ensures d == data <==> within + |data| <= CHUNK_SIZE
  {
    if within + |data| <= CHUNK_SIZE then data else data[..CHUNK_SIZE - within]
  }

  /** Only that part of a write is ever read back. */
  lemma ClipOverlay(b: Bytes, within: nat, data: Bytes)
    requires within < CHUNK_SIZE
    ensures Clip(Overlay(b, within, data)) == Overlay(Clip(b), within, Fitting(within, data))
  {
  }

  lemma OverlaidFile(chunks: seq<Bytes>, i: nat, within: nat, at: nat, data: Bytes)
    requires Packed(Clipped(chunks)) && i < |chunks| && within < CHUNK_SIZE && at == CHUNK_SIZE * i + within
    ensures var after := chunks[i := Overlay(chunks[i], within, data)];
      Packed(Clipped(after)) && Contents(after) == Overlay(Contents(chunks), at, Fitting(within, data))
  {
    var after, d := chunks[i := Overlay(chunks[i], within, data)], Fitting(within, data);
    ClipOverlay(chunks[i], within, data);
    assert Clipped(after) == Clipped(chunks)[i := Overlay(Clipped(chunks)[i], within, d)];
    OverlayStaysPacked(Clipped(chunks), i, within, d);
    WriteIsOverlay(Clipped(chunks), i, within, d);
  }

  /** Reading when every replica has the overlaid chunk. */
  lemma ReadSees(n: Net, layout: seq<Placed>, chunks: seq<Bytes>, i: nat, within: nat, at: nat, data: Bytes,
                 c: Client, path: Path, offset: nat, length: nat)
    requires Packed(Clipped(chunks)) && i < |chunks| && within < CHUNK_SIZE && at == CHUNK_SIZE * i + within
    requires Holds(n, layout, chunks[i := Overlay(chunks[i], within, data)])
    requires Serves(c.outside, n) && Points(c, path, layout)
    ensures var r := ReadLoop(c, path, offset, length, []).1;
      r.Ok? ==> Sees(r.data, Contents(chunks), at, Fitting(within, data), offset, length)
  {
    var after, r := chunks[i := Overlay(chunks[i], within, data)], ReadLoop(c, path, offset, length, []).1;
    OverlaidFile(chunks, i, within, at, data);
    ReadIsExact(c, path, offset, length, [], n, layout, after);
    if r.Ok? { OverlaidRange(r.data, Contents(chunks), at, Fitting(within, data), offset, length); }
  }

  /** A read after an acknowledged write, at the place `at` of the file, sees the new bytes
      where they were written, the old bytes elsewhere and zeros in a gap, whichever
      replicas answer. Of a write that does not fit its chunk it sees the part that does. */
  lemma ReadAfterWrite(net: Net, n: Net, chain: seq<Addr>, w: WriteHead, data: Bytes, push: seq<Outcome>,
                       commit: seq<Outcome>, layout: seq<Placed>, chunks: seq<Bytes>, i: nat, at: nat, c: Client,
                       path: Path, offset: nat, length: nat)
    requires Acknowledged(net, n, chain, w, data, push, commit) && w.offset < CHUNK_SIZE
    requires Holds(net, layout, chunks) && Packed(Clipped(chunks)) && GoesTo(layout, i, chain, w.handle)
    requires at == CHUNK_SIZE * i + w.offset
    requires Serves(c.outside, n) && Points(c, path, layout)
    ensures var r := ReadLoop(c, path, offset, length, []).1;
      r.Ok? ==> Sees(r.data, Contents(chunks), at, Fitting(w.offset, data), offset, length)
  {
    WriteReachesReplicas(net, n, chain, w, data, push, commit, layout, chunks, i);
    ReadSees(n, layout, chunks, i, w.offset, at, data, c, path, offset, length);
  }

  // ---- Reading a write back ----

  lemma PieceEnds(offset: nat, length: nat, size: nat)
    requires length > 0 && offset / CHUNK_SIZE < size
    ensures offset + PieceLength(offset, length) <= CHUNK_SIZE * size
  {
  }

  lemma PieceInside(c: Client, path: Path, index: nat, offset: int, length: int, layout: seq<Placed>)
    requires Points(c, path, layout) && ReadPiece(c, path, index, offset, length).1.Ok?
    ensures index < |layout|
  {
    LocatePoints(c, path, index, layout);
  }

  /** A read that returns stays inside the chunks the file has. */
  lemma {:induction false} ReadStaysInside(c: Client, path: Path, offset: nat, length: nat, sofar: Bytes,
                                           net: Net, layout: seq<Placed>, chunks: seq<Bytes>)
    requires Reading(c, path, net, layout, chunks) && ReadLoop(c, path, offset, length, sofar).1.Ok? && length > 0
    ensures offset + length <= CHUNK_SIZE * |layout|
    decreases length
  {
    var index, within, n := offset / CHUNK_SIZE, offset % CHUNK_SIZE, PieceLength(offset, length);
    var (c1, r) := ReadPiece(c, path, index, within, n);
    PieceInside(c, path, index, within, n, layout);
    PieceEnds(offset, length, |layout|);
    if length > n {
      FirstPieceExact(c, path, offset, length, net, layout, chunks);
      ReadStaysInside(c1, path, offset + n, length - n, sofar + r.data, net, layout, chunks);
    }
  }

  lemma SliceInside(b: Bytes, at: nat, data: Bytes)
    ensures Slice(Overlay(b, at, data), at, |data|) == data
  {
  }

  /** A range inside one chunk has a part in no other. */
  lemma OnlyPart(i: nat, within: nat, length: nat, j: int)
    requires within + length <= CHUNK_SIZE && j != i
    ensures PartLength(CHUNK_SIZE * i + within, length, j) <= 0
  {
  }

  lemma ReadBackFits(n: Net, layout: seq<Placed>, after: seq<Bytes>, i: nat, within: nat, at: nat, length: nat,
                     c: Client, path: Path)
    requires Reading(c, path, n, layout, after) && i == |layout| - 1 && within < CHUNK_SIZE
    requires at == CHUNK_SIZE * i + within
    requires ReadLoop(c, path, at, length, []).1.Ok?
    ensures within + length <= CHUNK_SIZE
  {
    if length > 0 { ReadStaysInside(c, path, at, length, [], n, layout, after); }
  }

  lemma ReadBackData(n: Net, layout: seq<Placed>, after: seq<Bytes>, file: Bytes, at: nat, data: Bytes, c: Client,
                     path: Path)
    requires Reading(c, path, n, layout, after) && Contents(after) == Overlay(file, at, data)
    requires ReadLoop(c, path, at, |data|, []).1.Ok?
    ensures ReadLoop(c, path, at, |data|, []).1.data == data
  {
    ReadIsExact(c, path, at, |data|, [], n, layout, after);
    SliceInside(file, at, data);
  }

  lemma ReadBack(n: Net, layout: seq<Placed>, chunks: seq<Bytes>, i: nat, within: nat, at: nat, data: Bytes, c: Client,
                 path: Path)
    requires Packed(Clipped(chunks)) && i == |chunks| - 1 && within < CHUNK_SIZE && at == CHUNK_SIZE * i + within
    requires Holds(n, layout, chunks[i := Overlay(chunks[i], within, data)])
    requires Serves(c.outside, n) && Points(c, path, layout) && ReadLoop(c, path, at, |data|, []).1.Ok?
    ensures within + |data| <= CHUNK_SIZE && ReadLoop(c, path, at, |data|, []).1.data == data
  {
    var after := chunks[i := Overlay(chunks[i], within, data)];
    OverlaidFile(chunks, i, within, at, data);
    ReadBackFits(n, layout, after, i, within, at, |data|, c, path);
    ReadBackData(n, layout, after, Contents(chunks), at, data, c, path);
  }

  lemma FitsIsServed(c: Client, path: Path, i: nat, within: nat, at: nat, length: nat)
    requires within + length <= CHUNK_SIZE && at == CHUNK_SIZE * i + within && PartServed(c, path, at, length, i)
    ensures ReadLoop(c, path, at, length, []).1.Ok?
  {
    forall j ensures PartServed(c, path, at, length, j) {
      if j != i { OnlyPart(i, within, length, j); }
    }
    ReadServed(c, path, at, length, []);
  }

  /** Reading back exactly the range of an acknowledged write to the last chunk, with a
      replica of it that always answers: the read returns if and only if the write fits
      its chunk, and then it returns the written bytes. */
  lemma {:induction false} ReadBackIff(net: Net, n: Net, chain: seq<Addr>, w: WriteHead, data: Bytes,
                                       push: seq<Outcome>, commit: seq<Outcome>, layout: seq<Placed>,
                                       chunks: seq<Bytes>, i: nat, at: nat, c: Client, path: Path)
    requires Acknowledged(net, n, chain, w, data, push, commit) && w.offset < CHUNK_SIZE
    requires Holds(net, layout, chunks) && Packed(Clipped(chunks)) && GoesTo(layout, i, chain, w.handle)
    requires at == CHUNK_SIZE * i + w.offset && i == |layout| - 1
    requires Serves(c.outside, n) && Points(c, path, layout) && PartServed(c, path, at, |data|, i)
    ensures var r := ReadLoop(c, path, at, |data|, []).1;
      && (r.Ok? <==> w.offset + |data| <= CHUNK_SIZE)
      && (r.Ok? ==> r.data == data)
  {
    WriteReachesReplicas(net, n, chain, w, data, push, commit, layout, chunks, i);
    if ReadLoop(c, path, at, |data|, []).1.Ok? { ReadBack(n, layout, chunks, i, w.offset, at, data, c, path); }
    if w.offset + |data| <= CHUNK_SIZE { FitsIsServed(c, path, i, w.offset, at, |data|); }
  }
}
