/** The chunkserver as the objects it is made of, and its handlers calling one another
    over a network in which any call may be lost. Each method is proved to do to the
    objects what the functions of ChunkState.dfy do to the state as a value. */
module ChunkService {
  import opened Locations
  import opened Seqs
  import opened Wrappers
  import opened Crc32
  import opened ChunkState
  import Sums = ChecksumStore

  // ---- chunkserver/storage.cpp ----

  class ChunkStorage {
    /** The server it belongs to. */
    ghost const owner: Addr
    /** The chunk files, which survive a restart, and the versions, which do not. */
    var files: map<Handle, Bytes>
    var versions: map<Handle, int>

    constructor (ghost owner: Addr, files: map<Handle, Bytes>)
      ensures this.owner == owner && this.files == files && versions == map[]
    {
      this.owner := owner;
      this.files, versions := files, map[];
    }

    /** Up to `length` bytes; nothing when the file is missing or the length negative. */
    method Read(h: Handle, offset: int, length: int) returns (data: Option<Bytes>)
      ensures data == if h !in files || length < 0 then None
        else Some(if offset < 0 then [] else Slice(files[h], offset, length))
    {
      if h !in files || length < 0 { return None; }
      if offset < 0 { return Some([]); }
      var file := files[h];
      var n := if |file| <= offset then 0 else if |file| - offset < length then |file| - offset else length;
      var bytes := if n == 0 then [] else file[offset..offset + n];
      assert bytes == Slice(file, offset, length);
      return Some(bytes);
    }

    /** Seeking to a negative offset fails and nothing is written. */
    method Write(h: Handle, offset: int, data: Bytes)
      modifies this`files
      ensures files ==
        old(files)[h := if offset < 0 then FileOf(old(files), h) else Overlay(FileOf(old(files), h), offset, data)]
    {
      if h !in files { files := files[h := []]; }
      assert files == old(files)[h := FileOf(old(files), h)];
      if data == [] || offset < 0 { return; }
      var file, end := files[h], offset + |data|;
      // past the end, seeking leaves a gap of zeros
      if |file| <= offset { file := file + ZeroBytes(offset - |file|); }
      file := file[..offset] + data + if end < |file| then file[end..] else [];
      assert file == Overlay(files[h], offset, data);
      files := files[h := file];
    }

    function GetSize(h: Handle): (n: nat)
      reads this
      ensures n == |FileOf(files, h)|
    {
      if h !in files then 0 else |files[h]|
    }

    method Append(h: Handle, data: Bytes) returns (offset: nat)
      modifies this`files
      ensures offset == |FileOf(old(files), h)|
      ensures files == old(files)[h := FileOf(old(files), h) + data]
    {
      offset := GetSize(h);
      files := files[h := FileOf(files, h) + data];
    }

    method Remove(h: Handle)
      modifies this
      ensures files == old(files) - {h} && versions == old(versions) - {h}
    {
      files := files - {h};
      versions := versions - {h};
    }

    /** All chunks on disk, in directory order. */
    method ListAll() returns (handles: seq<Handle>)
      ensures Distinct(handles) && forall h :: h in handles <==> h in files
    {
      var rest := files.Keys;
      handles := [];
      while rest != {}
        invariant rest <= files.Keys && Distinct(handles)
        invariant forall h :: h in files <==> h in handles || h in rest
        invariant forall h :: h in handles ==> h !in rest
        decreases |rest|
      {
        HasMember(rest);
        var h :| h in rest;
        handles, rest := handles + [h], rest - {h};
      }
    }

    method SetVersion(h: Handle, version: int)
      modifies this`versions
      ensures versions == old(versions)[h := version]
    {
      versions := versions[h := version];
    }

    function GetVersion(h: Handle): int
      reads this
    {
      if h in versions then versions[h] else 0
    }
  }

  // ---- chunkserver/buffer.cpp ----

  class WriteBuffer {
    ghost const owner: Addr
    var entries: map<string, Buffered>

    constructor (ghost owner: Addr)
      ensures this.owner == owner && entries == map[]
    {
      this.owner := owner;
      entries := map[];
    }

    method Put(key: string, h: Handle, data: Bytes)
      modifies this
      ensures entries == old(entries)[key := Buffered(h, data)]
    {
      entries := entries[key := Buffered(h, data)];
    }

    /** A second take of the same key finds nothing, so nothing is committed twice. */
    method Take(key: string) returns (data: Option<Bytes>)
      modifies this
      ensures data == if key in old(entries) then Some(old(entries)[key].data) else None
      ensures entries == old(entries) - {key}
    {
      if key !in entries { return None; }
      data := Some(entries[key].data);
      entries := entries - {key};
    }
  }

  // ---- chunkserver/heartbeat.cpp ----

  class HeartbeatSender {
    const storage: ChunkStorage

    constructor (storage: ChunkStorage)
      ensures this.storage == storage
    {
      this.storage := storage;
    }

    /** The request: every chunk on disk with its version. */
    method Report() returns (handles: seq<Handle>, versions: seq<int>)
      ensures Distinct(handles) && forall h :: h in handles <==> h in storage.files
      ensures |versions| == |handles| && forall i :: 0 <= i < |handles| ==>
        versions[i] == if handles[i] in storage.versions then storage.versions[handles[i]] else 0
    {
      handles := storage.ListAll();
      versions := [];
      for i := 0 to |handles|
        invariant |versions| == i && forall j :: 0 <= j < i ==> versions[j] == storage.GetVersion(handles[j])
      {
        versions := versions + [storage.GetVersion(handles[i])];
      }
    }

    /** The reply: remove what the master names. */
    method Collect(toDelete: seq<Handle>)
      modifies storage
      ensures storage.files == old(storage.files) - set h | h in toDelete
      ensures storage.versions == old(storage.versions) - set h | h in toDelete
    {
      for i := 0 to |toDelete|
        invariant storage.files == old(storage.files) - set h | h in toDelete[..i]
        invariant storage.versions == old(storage.versions) - set h | h in toDelete[..i]
      {
        assert toDelete[..i + 1] == toDelete[..i] + [toDelete[i]];
        storage.Remove(toDelete[i]);
      }
      assert toDelete[..|toDelete|] == toDelete;
    }
  }

  // ---- chunkserver/main.cpp ----

  lemma OneChanged<K, V>(was: map<K, V>, now: map<K, V>, k: K, v: V)
    requires now.Keys == was.Keys && k in now && now[k] == v
    requires forall a :: a in was && a != k ==> now[a] == was[a]
    ensures now == was[k := v]
  {
  }

  /** All servers that can call one another. */
  class Network {
    const servers: map<Addr, ChunkServiceImpl>
    ghost const objects: set<object>

    ghost predicate Owns(a: Addr)
      requires a in servers
    {
      var s := servers[a];
      && s in objects && s.storage in objects && s.checksum in objects && s.buffer in objects
      && s.storage.owner == a && s.checksum.owner == a && s.buffer.owner == a
    }

    ghost predicate Valid()
      reads objects
    {
      forall a :: a in servers ==> Owns(a) && servers[a].Valid()
    }

    /** No two servers share an object. */
    lemma AllApart(me: Addr)
      requires Valid() && me in servers
      ensures forall a :: a in servers && a != me ==>
        var s, t := servers[a], servers[me];
        s != t && s.storage != t.storage && s.checksum != t.checksum && s.buffer != t.buffer
    {
      assert Owns(me);
    }

    /** The state of every server. */
    ghost function View(): Net
      requires Valid()
      reads objects
    {
      map a | a in servers :: servers[a].state
    }

    constructor (servers: map<Addr, ChunkServiceImpl>)
      requires forall a :: a in servers ==> servers[a].Valid()
      requires forall a :: a in servers ==>
        servers[a].storage.owner == a && servers[a].checksum.owner == a && servers[a].buffer.owner == a
      ensures this.servers == servers && Valid()
    {
      this.servers := servers;
      objects := (set a | a in servers :: servers[a]) + (set a | a in servers :: servers[a].storage) +
        (set a | a in servers :: servers[a].checksum) + (set a | a in servers :: servers[a].buffer);
    }
  }

  /** The checksum files, decoded. */
  function Stored(disk: map<Handle, Bytes>): map<Handle, seq<Word>> {
    map h | h in disk :: Sums.Decode(disk[h])
  }

  class ChunkServiceImpl {
    const storage: ChunkStorage
    const checksum: Sums.ChecksumStore
    const buffer: WriteBuffer
    /** All of the above as one value. */
    ghost var state: Server

    ghost predicate Valid()
      reads this, storage, checksum, buffer
    {
      && Sums.Coherent(checksum.State())
      && state == Server(storage.files, storage.versions, buffer.entries, Stored(checksum.disk))
    }

    constructor (storage: ChunkStorage, sums: map<Handle, Bytes>)
      ensures Valid() && this.storage == storage && fresh(checksum) && fresh(buffer)
      ensures checksum.owner == buffer.owner == storage.owner
      ensures state == Server(storage.files, storage.versions, map[], Stored(sums))
    {
      this.storage := storage;
      checksum := new Sums.ChecksumStore(storage.owner, sums);
      buffer := new WriteBuffer(storage.owner);
      state := Server(storage.files, storage.versions, map[], Stored(sums));
    }

    // -- what a handler does on its own server --

    method PutInBuffer(w: WriteHead, data: Bytes)
      requires Valid()
      modifies this, storage, buffer
      ensures Valid() && state == PushLocal(old(state), w, data)
    {
      buffer.Put(KeyOf(w), w.handle, data);
      storage.SetVersion(w.handle, w.version);
      state := PushLocal(state, w, data);
    }

    method RecordSum(h: Handle, block: nat, data: Bytes)
      requires Sums.Coherent(checksum.State())
      modifies checksum
      ensures Sums.Coherent(checksum.State())
      ensures Stored(checksum.disk) ==
        old(Stored(checksum.disk))[h := WithSum(SumsOf(old(Stored(checksum.disk)), h), block, Checksum(data))]
    {
      var sum := Compute(data);
      var thrown := checksum.Update(h, block, sum);
      Sums.DecodeEncode(WithSum(old(Sums.Sums(checksum.State(), h)), block, sum));
    }

    method ApplyBuffered(w: WriteHead) returns (ok: bool)
      requires Valid()
      modifies this, storage, checksum, buffer
      ensures Valid() && (state, ok) == CommitLocal(old(state), w)
    {
      assert KeyOf(w) !in buffer.entries ==> buffer.entries - {KeyOf(w)} == buffer.entries;
      var data := buffer.Take(KeyOf(w));
      if data.None? { return false; }
      storage.Write(w.handle, w.offset, data.value);
      RecordSum(w.handle, w.offset / CHECKSUM_BLOCK, data.value);
      storage.SetVersion(w.handle, w.version);
      state := Committed(state, w, data.value);
      return true;
    }

    /** `padding` is what has to be forwarded when the record does not fit. */
    method AppendHere(h: Handle, data: Bytes, version: int) returns (reply: AppendReply, padding: Bytes)
      requires Valid()
      modifies this, storage, checksum
      ensures Valid() && (state, reply) == AppendLocal(old(state), h, data, version)
      ensures reply.RetryOnNextChunk? ==> padding == Block(old(FileOf(storage.files, h)), data)
    {
      padding := [];
      var size := storage.GetSize(h);
      if Overflows(size, |data|) {
        // a negative count makes the vector's constructor throw
        if size > CHUNK_SIZE { return AppendError, padding; }
        padding := ZeroBytes(CHUNK_SIZE - size);
        storage.Write(h, size, padding);
        state := AppendLocal(state, h, data, version).0;
        return RetryOnNextChunk, padding;
      }
      var offset := storage.Append(h, data);
      RecordSum(h, offset / CHECKSUM_BLOCK, data);
      storage.SetVersion(h, version);
      state := AppendLocal(state, h, data, version).0;
      return Appended(offset), padding;
    }

    /** The bytes as they are: no checksum is consulted. Nothing when the handler fails. */
    method ReadChunk(h: Handle, offset: int, length: int) returns (data: Option<Bytes>)
      requires Valid()
      ensures data.Some? <==> h in state.files && length >= 0
      ensures data.Some? ==> data.value == if offset < 0 then [] else Slice(state.files[h], offset, length)
    {
      data := storage.Read(h, offset, length);
    }

    method DeleteChunk(h: Handle)
      requires Valid()
      modifies this, storage
      ensures Valid() && state == Erased(old(state), {h})
    {
      storage.Remove(h);
      state := Erased(state, {h});
    }

    // -- the same, seen from the network --

    method PutInBufferAt(net: Network, me: Addr, w: WriteHead, data: Bytes)
      requires net.Valid() && me in net.servers && net.servers[me] == this
      modifies net.objects
      ensures net.Valid() && net.View() == old(net.View())[me := PushLocal(old(net.View())[me], w, data)]
    {
      ghost var was := net.View();
      net.AllApart(me);
      PutInBuffer(w, data);
      assert forall a :: a in net.servers && a != me ==> net.servers[a].Valid() && net.servers[a].state == was[a];
      OneChanged(was, net.View(), me, state);
    }

    method ApplyBufferedAt(net: Network, me: Addr, w: WriteHead) returns (ok: bool)
      requires net.Valid() && me in net.servers && net.servers[me] == this
      modifies net.objects
      ensures net.Valid() && net.View() == old(net.View())[me := CommitLocal(old(net.View())[me], w).0]
      ensures ok == CommitLocal(old(net.View())[me], w).1
    {
      ghost var was := net.View();
      net.AllApart(me);
      ok := ApplyBuffered(w);
      assert forall a :: a in net.servers && a != me ==> net.servers[a].Valid() && net.servers[a].state == was[a];
      OneChanged(was, net.View(), me, state);
    }

    method AppendAt(net: Network, me: Addr, h: Handle, data: Bytes, version: int)
      returns (reply: AppendReply, padding: Bytes)
      requires net.Valid() && me in net.servers && net.servers[me] == this
      modifies net.objects
      ensures net.Valid() && net.View() == old(net.View())[me := AppendLocal(old(net.View())[me], h, data, version).0]
      ensures reply == AppendLocal(old(net.View())[me], h, data, version).1
      ensures reply.RetryOnNextChunk? ==> padding == Block(FileOf(old(net.View())[me].files, h), data)
    {
      ghost var was := net.View();
      net.AllApart(me);
      reply, padding := AppendHere(h, data, version);
      assert forall a :: a in net.servers && a != me ==> net.servers[a].Valid() && net.servers[a].state == was[a];
      OneChanged(was, net.View(), me, state);
    }

    // -- the handlers, which call other servers --

    /** Buffer the data, then pass it along the rest of the chain; `outs` says what
        becomes of each call. */
    method ForwardWrite(net: Network, me: Addr, w: WriteHead, data: Bytes, forwardTo: seq<Addr>, outs: seq<Outcome>)
      requires net.Valid() && me in net.servers && net.servers[me] == this && |outs| == |forwardTo|
      modifies net.objects
      ensures net.Valid()
      ensures net.View() ==
        Push(old(net.View())[me := PushLocal(old(net.View())[me], w, data)], forwardTo, w, data, outs)
      decreases |forwardTo|
    {
      PutInBufferAt(net, me, w, data);
      if |forwardTo| > 0 && forwardTo[0] in net.servers && !outs[0].LostBefore? {
        net.servers[forwardTo[0]].ForwardWrite(net, forwardTo[0], w, data, forwardTo[1..], outs[1..]);
      }
    }

    /** The loop over the secondaries; it stops at the first that fails. */
    method CommitOnSecondaries(net: Network, w: WriteHead, forwardTo: seq<Addr>, outs: seq<Outcome>)
      returns (success: bool)
      requires net.Valid() && |outs| == |forwardTo|
      modifies net.objects
      ensures net.Valid()
      ensures (net.View(), success) == CommitAll(old(net.View()), forwardTo, w, outs)
      decreases |forwardTo|, 0
    {
      for i := 0 to |forwardTo|
        invariant net.Valid()
        invariant CommitAll(net.View(), forwardTo[i..], w, outs[i..]) == CommitAll(old(net.View()), forwardTo, w, outs)
      {
        var a := forwardTo[i];
        assert forwardTo[i..][1..] == forwardTo[i + 1..] && outs[i..][1..] == outs[i + 1..];
        if a !in net.servers || outs[i].LostBefore? { return false; }
        var applied := net.servers[a].WriteChunk(net, a, w, [], []);
        if !outs[i].Delivered? || !applied { return false; }
      }
      return true;
    }

    /** Apply the buffered data, then have every secondary apply its own. */
    method WriteChunk(net: Network, me: Addr, w: WriteHead, forwardTo: seq<Addr>, outs: seq<Outcome>)
      returns (success: bool)
      requires net.Valid() && me in net.servers && net.servers[me] == this && |outs| == |forwardTo|
      modifies net.objects
      ensures net.Valid()
      ensures (net.View(), success) == Commit(old(net.View()), me, forwardTo, w, outs)
      decreases |forwardTo|
    {
      success := ApplyBufferedAt(net, me, w);
      if success { success := CommitOnSecondaries(net, w, forwardTo, outs); }
    }

    /** The loop over the secondaries; a failed call is only printed. */
    method ForwardAppends(net: Network, h: Handle, block: Bytes, forwardTo: seq<Addr>, version: int, outs: seq<Outcome>)
      requires net.Valid() && |outs| == |forwardTo|
      modifies net.objects
      ensures net.Valid() && net.View() == ForwardBlock(old(net.View()), forwardTo, h, block, version, outs)
      decreases |forwardTo|, 0
    {
      for i := 0 to |forwardTo|
        invariant net.Valid()
        invariant ForwardBlock(net.View(), forwardTo[i..], h, block, version, outs[i..]) ==
          ForwardBlock(old(net.View()), forwardTo, h, block, version, outs)
      {
        var a := forwardTo[i];
        assert forwardTo[i..][1..] == forwardTo[i + 1..] && outs[i..][1..] == outs[i + 1..];
        if a in net.servers && !outs[i].LostBefore? {
          var ignored := net.servers[a].AppendChunk(net, a, h, block, [], version, []);
        }
      }
    }

    /** Append a record, or pad the chunk, and forward the same to the secondaries. */
    method AppendChunk(net: Network, me: Addr, h: Handle, data: Bytes, forwardTo: seq<Addr>, version: int,
                       outs: seq<Outcome>)
      returns (reply: AppendReply)
      requires net.Valid() && me in net.servers && net.servers[me] == this && |outs| == |forwardTo|
      modifies net.objects
      ensures net.Valid()
      ensures (net.View(), reply) == Append(old(net.View()), me, forwardTo, h, data, version, outs)
      decreases |forwardTo|
    {
      var padding;
      reply, padding := AppendAt(net, me, h, data, version);
      if reply.AppendError? { return; }
      // forwarded padding carries no version
      if reply.Appended? {
        ForwardAppends(net, h, data, forwardTo, version, outs);
      } else {
        ForwardAppends(net, h, padding, forwardTo, 0, outs);
      }
    }

    method SendChunk(net: Network, target: Addr, w: WriteHead, data: Bytes, push: Outcome, commit: Outcome)
      returns (success: bool)
      requires net.Valid()
      modifies net.objects
      ensures net.Valid()
      ensures (net.View(), success) == CloneOnto(old(net.View()), target, w, data, push, commit)
    {
      if target !in net.servers || push.LostBefore? { return false; }
      net.servers[target].ForwardWrite(net, target, w, data, [], []);
      if !push.Delivered? || commit.LostBefore? { return false; }
      var applied := net.servers[target].WriteChunk(net, target, w, [], []);
      return applied && commit.Delivered?;
    }

    /** Push the whole local chunk to `target`, then have it applied there. */
    method CopyChunkTo(net: Network, me: Addr, target: Addr, h: Handle, version: int, push: Outcome, commit: Outcome)
      returns (success: bool)
      requires net.Valid() && me in net.servers && net.servers[me] == this
      modifies net.objects
      ensures net.Valid()
      ensures (net.View(), success) == Clone(old(net.View()), me, target, h, version, push, commit)
    {
      var size := storage.GetSize(h);
      if size == 0 { return false; }
      var data := storage.Read(h, 0, size);
      assert data.value == FileOf(net.View()[me].files, h);
      success := SendChunk(net, target, CloneHead(h, version), data.value, push, commit);
    }
  }
}
