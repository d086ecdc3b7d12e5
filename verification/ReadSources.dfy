/** Where a read's data comes from: how old a location may be that the client uses, and
    which of the replicas it takes the data of. */
module ReadSources {
  import opened Locations
  import opened Wrappers
  import opened ChunkState
  import opened ClientRead

  // ---- Locations ----

  /** The master gave `e` in answer to the `k`-th call, and it is kept for a minute. */
  predicate GivenAt(c: Client, key: (Path, int), e: Entry, k: nat) {
    && k < c.calls
    && c.outside.locate(k, key.0, key.1) == Found(e.at)
    && e.expiresAt == c.outside.now(k + 1) + 60
  }

  /** Everything cached was given by the master at some time. */
  ghost predicate AllGiven(c: Client) {
    forall key :: key in c.cache ==> exists k: nat :: GivenAt(c, key, c.cache[key], k)
  }

  /** Nothing was forgotten about past calls. */
  ghost predicate GoesOn(c: Client, c1: Client) {
    c1.outside == c.outside && c.calls <= c1.calls
  }

  lemma FewerGiven(c: Client, c1: Client)
    requires AllGiven(c) && GoesOn(c, c1)
    requires forall key :: key in c1.cache ==> key in c.cache && c1.cache[key] == c.cache[key]
    ensures AllGiven(c1)
  {
    forall key | key in c1.cache ensures exists k: nat :: GivenAt(c1, key, c1.cache[key], k) {
      var k: nat :| GivenAt(c, key, c.cache[key], k);
      assert GivenAt(c1, key, c1.cache[key], k);
    }
  }

  /** The location a read uses was given by the master less than a minute before, or just
      now; the master is asked exactly when nothing so recent is cached. */
  lemma LocationIsRecent(c: Client, path: Path, index: int)
    requires AllGiven(c)
    ensures var (c1, e) := Locate(c, path, index); var key := (path, index);
      var recent := key in c.cache && c.outside.now(c.calls) < c.cache[key].expiresAt;
      && AllGiven(c1) && GoesOn(c, c1)
      && (c1.calls == if recent then c.calls else c.calls + 1)
      && (e.Some? ==> exists k: nat ::
            && GivenAt(c1, key, e.value, k)
            && if recent then c.outside.now(c.calls) < c.outside.now(k + 1) + 60 else k == c.calls)
  {
    var (c1, e) := Locate(c, path, index);
    var key := (path, index);
    var dropped := c.(cache := c.cache - {key}, calls := c.calls + 1);
    if key in c.cache && c.outside.now(c.calls) < c.cache[key].expiresAt {
      var k: nat :| GivenAt(c, key, c.cache[key], k);
      assert GivenAt(c1, key, e.value, k);
    } else {
      FewerGiven(c, dropped);
      if e.Some? {
        assert GivenAt(c1, key, e.value, c.calls);
        forall other | other in c1.cache ensures exists k: nat :: GivenAt(c1, other, c1.cache[other], k) {
          if other != key {
            var k: nat :| GivenAt(dropped, other, dropped.cache[other], k);
            assert GivenAt(c1, other, c1.cache[other], k);
          }
        }
      }
    }
  }

  /** A piece fails for want of a location exactly if none is cached that is recent and the
      master does not answer; if it fails otherwise, it names the chunk. */
  lemma PieceFails(c: Client, path: Path, index: int, offset: int, length: int)
    ensures var r, key := ReadPiece(c, path, index, offset, length).1, (path, index);
      var recent := key in c.cache && c.outside.now(c.calls) < c.cache[key].expiresAt;
      var told := c.outside.locate(c.calls, path, index);
      && (r.MasterFailed? <==> !recent && told.LookupError?)
      && (r.AllReplicasFailed? ==> r.handle == if recent then c.cache[key].at.handle else told.at.handle)
  {
  }

  lemma {:induction false} FetchKeepsGiven(c: Client, key: (Path, int), h: Handle, addrs: seq<Addr>, offset: int,
                                           length: int)
    requires AllGiven(c)
    ensures var c1 := Fetch(c, key, h, addrs, offset, length).0; AllGiven(c1) && GoesOn(c, c1)
    decreases |addrs|
  {
    if addrs != [] {
      var answer, c1 := c.outside.fetch(c.calls, addrs[0], h, offset, length), c.(calls := c.calls + 1);
      var c2 := if addrs[0] == "" then c else if answer.RpcError? then c1.(cache := c1.cache - {key}) else c1;
      FewerGiven(c, c1);
      FewerGiven(c, c2);
      FetchKeepsGiven(c2, key, h, addrs[1..], offset, length);
    }
  }

  /** And so it stays: from an empty cache, through any reads. */
  lemma {:induction false} ReadKeepsGiven(c: Client, path: Path, offset: int, length: int, sofar: Bytes)
    requires AllGiven(c)
    ensures var c1 := ReadLoop(c, path, offset, length, sofar).0; AllGiven(c1) && GoesOn(c, c1)
    decreases length
  {
    if length > 0 {
      var n, index, within := PieceLength(offset, length), offset / CHUNK_SIZE, offset % CHUNK_SIZE;
      var (c1, e) := Locate(c, path, index);
      LocationIsRecent(c, path, index);
      if e.Some? { FetchKeepsGiven(c1, (path, index), e.value.at.handle, Contacts(e.value.at), within, n); }
      var (c2, r) := ReadPiece(c, path, index, within, n);
      if r.Ok? { ReadKeepsGiven(c2, path, offset + n, length - n, sofar + r.data); }
    }
  }

  // ---- Replicas ----

  /** The answer of a replica when answers do not change over time. */
  function Answer(o: Outside, a: Addr, h: Handle, offset: int, length: int): FetchAnswer {
    o.fetch(0, a, h, offset, length)
  }

  predicate AnswersWell(o: Outside, a: Addr, h: Handle, offset: int, length: int) {
    a != "" && var answer := Answer(o, a, h, offset, length); answer.Data? && answer.checksumOk
  }

  /** A call to one of these servers failed. */
  predicate SomeFailed(o: Outside, addrs: seq<Addr>, h: Handle, offset: int, length: int) {
    exists a :: a in addrs && a != "" && Answer(o, a, h, offset, length).RpcError?
  }

  lemma FailedFirst(o: Outside, a: Addr, rest: seq<Addr>, i: nat, h: Handle, offset: int, length: int)
    requires i <= |rest|
    ensures SomeFailed(o, ([a] + rest)[..i + 1], h, offset, length) <==>
      (a != "" && Answer(o, a, h, offset, length).RpcError?) || SomeFailed(o, rest[..i], h, offset, length)
  {
    assert ([a] + rest)[..i + 1] == [a] + rest[..i];
    if SomeFailed(o, rest[..i], h, offset, length) {
      var b :| b in rest[..i] && b != "" && Answer(o, b, h, offset, length).RpcError?;
      assert b in [a] + rest[..i];
    }
    if a != "" && Answer(o, a, h, offset, length).RpcError? { assert a in [a] + rest[..i]; }
  }

  /** In a steady cluster the data is that of the first replica in the order of the location,
      the primary before the secondaries, that answers well; the cached location is dropped
      exactly if the call to one before it, or to any if none answers well, failed. */
  lemma {:induction false} FirstGoodServes(c: Client, key: (Path, int), h: Handle, addrs: seq<Addr>, offset: int,
                                           length: int)
    returns (i: nat)
    requires Steady(c)
    ensures i <= |addrs| && forall j :: 0 <= j < i ==> !AnswersWell(c.outside, addrs[j], h, offset, length)
    ensures var (c1, data) := Fetch(c, key, h, addrs, offset, length);
      && (i == |addrs| ==> data == None)
      && (i < |addrs| ==>
            && AnswersWell(c.outside, addrs[i], h, offset, length)
            && data == Some(Answer(c.outside, addrs[i], h, offset, length).data))
      && c1.cache == if SomeFailed(c.outside, addrs[..i], h, offset, length) then c.cache - {key} else c.cache
    decreases |addrs|
  {
    if addrs == [] { return 0; }
    var a, rest := addrs[0], addrs[1..];
    var answer, c1 := c.outside.fetch(c.calls, a, h, offset, length), c.(calls := c.calls + 1);
    assert answer == Answer(c.outside, a, h, offset, length);
    if AnswersWell(c.outside, a, h, offset, length) {
      assert addrs[..0] == [];
      return 0;
    }
    var c2 := if a == "" then c else if answer.RpcError? then c1.(cache := c1.cache - {key}) else c1;
    i := FirstGoodServes(c2, key, h, rest, offset, length);
    assert addrs == [a] + rest;
    FailedFirst(c.outside, a, rest, i, h, offset, length);
    i := i + 1;
  }
}
