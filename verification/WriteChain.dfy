/** The push/commit chain of a client write under arbitrary message loss: who buffered,
    who committed, and what an acknowledged write guarantees. */
module WriteChain {
  import opened Locations
  import opened Seqs
  import opened ChunkState

  // ---- The push ----

  /** How many servers of the chain the push reaches. */
  function PushReach(net: Net, chain: seq<Addr>, outs: seq<Outcome>): (k: nat)
    requires |outs| == |chain|
    ensures k <= |chain|
    decreases |chain|
  {
    if chain == [] || !Reaches(net, chain[0], outs[0]) then 0
    else 1 + PushReach(net, chain[1..], outs[1..])
  }

  lemma {:induction false} PushReachSame(net: Net, net': Net, chain: seq<Addr>, outs: seq<Outcome>)
    requires |outs| == |chain| && net.Keys == net'.Keys
    ensures PushReach(net, chain, outs) == PushReach(net', chain, outs)
    decreases |chain|
  {
    if chain != [] { PushReachSame(net, net', chain[1..], outs[1..]); }
  }

  /** A push changes exactly a prefix of the chain. */
  lemma {:induction false} PushIsPrefix(net: Net, chain: seq<Addr>, w: WriteHead, data: Bytes, outs: seq<Outcome>)
    requires |outs| == |chain| && Distinct(chain)
    ensures var n, k := Push(net, chain, w, data, outs), PushReach(net, chain, outs);
      && n.Keys == net.Keys
      && (forall a :: a in net ==> n[a] == if a in chain[..k] then PushLocal(net[a], w, data) else net[a])
      && (forall a :: a in chain[..k] ==> a in net)
    decreases |chain|
  {
    if chain != [] && Reaches(net, chain[0], outs[0]) {
      DistinctTail(chain);
      var net' := net[chain[0] := PushLocal(net[chain[0]], w, data)];
      PushIsPrefix(net', chain[1..], w, data, outs[1..]);
      PushReachSame(net, net', chain[1..], outs[1..]);
      var k := PushReach(net, chain[1..], outs[1..]);
      assert chain[..k + 1] == [chain[0]] + chain[1..][..k];
      assert chain[0] !in chain[1..][..k];
    }
  }

  // ---- The commit ----

  /** How many of the secondaries commit. */
  function CommitReach(net: Net, secondaries: seq<Addr>, w: WriteHead, outs: seq<Outcome>): (k: nat)
    requires |outs| == |secondaries|
    ensures k <= |secondaries|
    decreases |secondaries|
  {
    if secondaries == [] || !Reaches(net, secondaries[0], outs[0]) || KeyOf(w) !in net[secondaries[0]].buffer then 0
    else 1 + if outs[0].Delivered? then CommitReach(net, secondaries[1..], w, outs[1..]) else 0
  }

  lemma {:induction false} CommitReachSame(net: Net, net': Net, chain: seq<Addr>, w: WriteHead, outs: seq<Outcome>)
    requires |outs| == |chain| && net.Keys == net'.Keys
    requires forall a :: a in chain && a in net ==> net[a] == net'[a]
    ensures CommitReach(net, chain, w, outs) == CommitReach(net', chain, w, outs)
    decreases |chain|
  {
    if chain != [] { CommitReachSame(net, net', chain[1..], w, outs[1..]); }
  }

  function Took(s: Server, w: WriteHead): Server
    requires KeyOf(w) in s.buffer
  {
    Committed(s, w, s.buffer[KeyOf(w)].data)
  }

  lemma CommitStep(net: Net, a: Addr, w: WriteHead, rest: seq<Addr>, outs: seq<Outcome>)
    requires a in net && KeyOf(w) in net[a].buffer && a !in rest && |outs| == |rest|
    ensures CommitReach(net[a := Took(net[a], w)], rest, w, outs) == CommitReach(net, rest, w, outs)
  {
    CommitReachSame(net, net[a := Took(net[a], w)], rest, w, outs);
  }

  /** `n` is `net` after exactly the first `k` of `chain` committed. */
  ghost predicate TookPrefix(net: Net, n: Net, chain: seq<Addr>, w: WriteHead, k: nat) {
    && k <= |chain| && n.Keys == net.Keys
    && (forall a :: a in chain[..k] ==> a in net && KeyOf(w) in net[a].buffer)
    && (forall a :: a in net ==> n[a] == if a in chain[..k] then Took(net[a], w) else net[a])
  }

  lemma PrefixGrows(net: Net, n: Net, a: Addr, rest: seq<Addr>, w: WriteHead, k: nat)
    requires a in net && KeyOf(w) in net[a].buffer && a !in rest
    requires TookPrefix(net[a := Took(net[a], w)], n, rest, w, k)
    ensures TookPrefix(net, n, [a] + rest, w, k + 1)
  {
    assert ([a] + rest)[..k + 1] == [a] + rest[..k];
    assert a !in rest[..k];
  }

  /** A commit changes exactly a prefix of the secondaries, each of which had the data. */
  lemma {:induction false} CommitIsPrefix(net: Net, secondaries: seq<Addr>, w: WriteHead, outs: seq<Outcome>)
    requires |outs| == |secondaries| && Distinct(secondaries)
    ensures TookPrefix(net, CommitAll(net, secondaries, w, outs).0, secondaries, w,
        CommitReach(net, secondaries, w, outs))
    decreases |secondaries|
  {
    if secondaries != [] && Reaches(net, secondaries[0], outs[0]) && KeyOf(w) in net[secondaries[0]].buffer {
      var a, rest := secondaries[0], secondaries[1..];
      var net' := net[a := Took(net[a], w)];
      DistinctTail(secondaries);
      assert secondaries == [a] + rest;
      if outs[0].Delivered? {
        CommitIsPrefix(net', rest, w, outs[1..]);
        CommitStep(net, a, w, rest, outs[1..]);
        PrefixGrows(net, CommitAll(net', rest, w, outs[1..]).0, a, rest, w, CommitReach(net, rest, w, outs[1..]));
      } else {
        PrefixGrows(net, net', a, rest, w, 0);
      }
    }
  }

  /** It succeeds exactly when it went all the way and every reply came back. */
  lemma {:induction false} CommitSucceeds(net: Net, secondaries: seq<Addr>, w: WriteHead, outs: seq<Outcome>)
    requires |outs| == |secondaries| && Distinct(secondaries)
    ensures CommitAll(net, secondaries, w, outs).1 <==>
      CommitReach(net, secondaries, w, outs) == |secondaries| && forall i :: 0 <= i < |outs| ==> outs[i].Delivered?
    decreases |secondaries|
  {
    if secondaries != [] && Reaches(net, secondaries[0], outs[0]) && KeyOf(w) in net[secondaries[0]].buffer
      && outs[0].Delivered? {
      DistinctTail(secondaries);
      CommitSucceeds(net[secondaries[0] := Took(net[secondaries[0]], w)], secondaries[1..], w, outs[1..]);
      CommitStep(net, secondaries[0], w, secondaries[1..], outs[1..]);
      assert outs == [outs[0]] + outs[1..];
    }
  }

  // ---- The whole write ----

  /** A server that buffered and then committed. */
  function Wrote(s: Server, w: WriteHead, data: Bytes): Server {
    Committed(PushLocal(s, w, data), w, data)
  }

  /** The first `c` servers of the chain wrote, the next ones up to `p` only buffered,
      and nobody else changed. */
  ghost predicate Prefixes(net: Net, n: Net, chain: seq<Addr>, w: WriteHead, data: Bytes, c: nat, p: nat) {
    && c <= p <= |chain|
    && n.Keys == net.Keys
    && (forall a :: a in chain[..p] ==> a in net)
    && (forall a :: a in net ==>
         n[a] == if a in chain[..c] then Wrote(net[a], w, data)
                 else if a in chain[..p] then PushLocal(net[a], w, data)
                 else net[a])
  }

  /** Every call of the write went through. */
  ghost predicate AllWentThrough(net: Net, chain: seq<Addr>, push: seq<Outcome>, commit: seq<Outcome>)
    requires |push| == |commit| == |chain| > 0
  {
    && push[0].Delivered?
    && (forall i :: 0 <= i < |chain| ==> chain[i] in net && !push[i].LostBefore? && commit[i].Delivered?)
  }

  lemma {:induction false} FullReach(net: Net, chain: seq<Addr>, outs: seq<Outcome>)
    requires |outs| == |chain|
    ensures PushReach(net, chain, outs) == |chain| <==> forall i :: 0 <= i < |chain| ==> Reaches(net, chain[i], outs[i])
    decreases |chain|
  {
    if chain != [] {
      FullReach(net, chain[1..], outs[1..]);
      assert chain == [chain[0]] + chain[1..] && outs == [outs[0]] + outs[1..];
    }
  }

  /** The primary's own commit is the first of the chain. */
  lemma CommitIsChain(net: Net, chain: seq<Addr>, w: WriteHead, outs: seq<Outcome>)
    requires |chain| > 0 && |outs| == |chain| - 1 && chain[0] in net
    ensures Commit(net, chain[0], chain[1..], w, outs) == CommitAll(net, chain, w, [Delivered] + outs)
  {
    assert ([Delivered] + outs)[1..] == outs;
  }

  lemma LongerPrefixHasMore(chain: seq<Addr>, c: nat, p: nat)
    requires Distinct(chain) && p < c <= |chain|
    ensures chain[p] in chain[..c] && chain[p] !in chain[..p]
  {
    assert chain[..c][p] == chain[p];
  }

  /** Only servers the push reached have anything to commit. */
  lemma CommitWithinPush(net: Net, net1: Net, chain: seq<Addr>, w: WriteHead, data: Bytes, c: nat, p: nat)
    requires Distinct(chain) && c <= |chain| && p <= |chain|
    requires forall a :: a in chain && a in net ==> KeyOf(w) !in net[a].buffer
    requires net1.Keys == net.Keys
    requires forall a :: a in net ==> net1[a] == if a in chain[..p] then PushLocal(net[a], w, data) else net[a]
    requires forall a :: a in chain[..c] ==> a in net1 && KeyOf(w) in net1[a].buffer
    ensures c <= p
    ensures forall a :: a in chain[..c] ==> a in chain[..p] && Took(net1[a], w) == Wrote(net[a], w, data)
  {
    forall a | a in chain[..c] ensures a in chain[..p] {
      assert a in chain;
    }
    if p < c { LongerPrefixHasMore(chain, c, p); }
  }

  /** How many of the first `k` servers of a chain commit when those hold the data. */
  function CommitCount(k: nat, outs: seq<Outcome>): (c: nat)
    requires k <= |outs|
    ensures c <= k
    decreases k
  {
    if k == 0 || outs[0].LostBefore? then 0
    else 1 + if outs[0].Delivered? then CommitCount(k - 1, outs[1..]) else 0
  }

  lemma {:induction false} CommitsAllIff(k: nat, outs: seq<Outcome>)
    requires k <= |outs|
    ensures CommitCount(k, outs) == k <==>
      forall i :: 0 <= i < k ==> !outs[i].LostBefore? && (i < k - 1 ==> outs[i].Delivered?)
    decreases k
  {
    if k > 0 {
      CommitsAllIff(k - 1, outs[1..]);
      assert forall i :: 1 <= i < k ==> outs[i] == outs[1..][i - 1];
      assert forall i :: 0 <= i < k - 1 ==> outs[1..][i] == outs[i + 1];
    }
  }

  lemma {:induction false} CommitReachCounts(net: Net, chain: seq<Addr>, w: WriteHead, outs: seq<Outcome>, p: nat)
    requires |outs| == |chain| && p <= |chain|
    requires forall i :: 0 <= i < p ==> chain[i] in net && KeyOf(w) in net[chain[i]].buffer
    requires p < |chain| ==> chain[p] !in net || KeyOf(w) !in net[chain[p]].buffer
    ensures CommitReach(net, chain, w, outs) == CommitCount(p, outs)
    decreases |chain|
  {
    if p > 0 { CommitReachCounts(net, chain[1..], w, outs[1..], p - 1); }
  }

  /** The push stops at the first server it cannot reach. */
  lemma {:induction false} PushStops(net: Net, chain: seq<Addr>, outs: seq<Outcome>)
    requires |outs| == |chain|
    ensures var p := PushReach(net, chain, outs);
      && (forall i :: 0 <= i < p ==> Reaches(net, chain[i], outs[i]))
      && (p < |chain| ==> !Reaches(net, chain[p], outs[p]))
    decreases |chain|
  {
    if chain != [] { PushStops(net, chain[1..], outs[1..]); }
  }

  /** How many servers of the chain end up with the write committed. */
  function Committers(net: Net, chain: seq<Addr>, push: seq<Outcome>, commit: seq<Outcome>): (c: nat)
    requires |push| == |commit| == |chain| > 0
    ensures c <= PushReach(net, chain, push)
  {
    if push[0].Delivered? && !commit[0].LostBefore? then
      CommitCount(PushReach(net, chain, push), [Delivered] + commit[1..])
    else 0
  }

  lemma PushedHold(net: Net, chain: seq<Addr>, w: WriteHead, data: Bytes, push: seq<Outcome>)
    requires |push| == |chain| && Distinct(chain)
    requires forall a :: a in chain && a in net ==> KeyOf(w) !in net[a].buffer
    ensures var net1, p := Push(net, chain, w, data, push), PushReach(net, chain, push);
      && (forall i :: 0 <= i < p ==> chain[i] in net1 && KeyOf(w) in net1[chain[i]].buffer)
      && (p < |chain| ==> chain[p] !in net1 || KeyOf(w) !in net1[chain[p]].buffer)
  {
    var p := PushReach(net, chain, push);
    PushIsPrefix(net, chain, w, data, push);
    forall i | 0 <= i < p ensures chain[i] in chain[..p] {
      assert chain[..p][i] == chain[i];
    }
    assert p < |chain| ==> chain[p] !in chain[..p];
  }

  lemma CommitAfterPush(net: Net, chain: seq<Addr>, w: WriteHead, data: Bytes, push: seq<Outcome>, outs: seq<Outcome>)
    requires |push| == |outs| == |chain| && Distinct(chain)
    requires forall a :: a in chain && a in net ==> KeyOf(w) !in net[a].buffer
    ensures var net1, p := Push(net, chain, w, data, push), PushReach(net, chain, push);
      var (n, ok) := CommitAll(net1, chain, w, outs);
      && Prefixes(net, n, chain, w, data, CommitCount(p, outs), p)
      && (ok <==> CommitCount(p, outs) == |chain| && forall i :: 0 <= i < |outs| ==> outs[i].Delivered?)
  {
    var net1, p := Push(net, chain, w, data, push), PushReach(net, chain, push);
    var c := CommitReach(net1, chain, w, outs);
    PushedHold(net, chain, w, data, push);
    CommitReachCounts(net1, chain, w, outs, p);
    PushIsPrefix(net, chain, w, data, push);
    CommitIsPrefix(net1, chain, w, outs);
    CommitSucceeds(net1, chain, w, outs);
    CommitWithinPush(net, net1, chain, w, data, c, p);
  }

  lemma WentThroughIff(net: Net, chain: seq<Addr>, push: seq<Outcome>, commit: seq<Outcome>, outs: seq<Outcome>)
    requires |push| == |commit| == |chain| > 0 && push[0].Delivered? && outs == [Delivered] + commit[1..]
    ensures AllWentThrough(net, chain, push, commit) <==>
      commit[0].Delivered? && PushReach(net, chain, push) == |chain|
      && forall i :: 0 <= i < |outs| ==> outs[i].Delivered?
  {
    FullReach(net, chain, push);
    assert forall i :: 1 <= i < |chain| ==> outs[i] == commit[i];
  }

  /** The primary reports success, and is heard, exactly when everything went through. */
  lemma {:induction false} SuccessHeard(net: Net, chain: seq<Addr>, w: WriteHead, data: Bytes, push: seq<Outcome>,
                                        commit: seq<Outcome>, outs: seq<Outcome>)
    requires |push| == |commit| == |chain| > 0 && Distinct(chain) && push[0].Delivered?
    requires outs == [Delivered] + commit[1..]
    requires forall a :: a in chain && a in net ==> KeyOf(w) !in net[a].buffer
    ensures CommitAll(Push(net, chain, w, data, push), chain, w, outs).1 && commit[0].Delivered? <==>
      AllWentThrough(net, chain, push, commit)
  {
    WentThroughIff(net, chain, push, commit, outs);
    CommitAfterPush(net, chain, w, data, push, outs);
    CommitsAllIff(PushReach(net, chain, push), outs);
  }

  /** The case in which the commit reaches the primary. */
  lemma CommittedPrefixes(net: Net, chain: seq<Addr>, w: WriteHead, data: Bytes, push: seq<Outcome>,
                          commit: seq<Outcome>)
    requires |push| == |commit| == |chain| > 0 && Distinct(chain)
    requires forall a :: a in chain && a in net ==> KeyOf(w) !in net[a].buffer
    requires Reaches(net, chain[0], push[0]) && push[0].Delivered?
    requires Reaches(Push(net, chain, w, data, push), chain[0], commit[0])
    ensures var (n, ok) := Commit(Push(net, chain, w, data, push), chain[0], chain[1..], w, commit[1..]);
      && Prefixes(net, n, chain, w, data, Committers(net, chain, push, commit), PushReach(net, chain, push))
      && (ok && commit[0].Delivered? <==> AllWentThrough(net, chain, push, commit))
      && (ok ==> Committers(net, chain, push, commit) == |chain|)
  {
    var outs := [Delivered] + commit[1..];
    CommitIsChain(Push(net, chain, w, data, push), chain, w, commit[1..]);
    CommitAfterPush(net, chain, w, data, push, outs);
    SuccessHeard(net, chain, w, data, push, commit, outs);
  }

  /** Whatever is lost, the servers that hold the data are a prefix of the chain and the
      ones that committed it a shorter prefix, and the losses fix both lengths: the push
      gets as far as its first lost call, the commit as far as its first lost call or
      reply within that. The client is told the write succeeded exactly when every call
      of it went through, and then every server committed. */
  lemma WriteLeavesPrefixes(net: Net, chain: seq<Addr>, w: WriteHead, data: Bytes, push: seq<Outcome>,
                            commit: seq<Outcome>)
    requires |push| == |commit| == |chain| > 0 && Distinct(chain)
    requires forall a :: a in chain && a in net ==> KeyOf(w) !in net[a].buffer
    ensures var (n, r) := ClientWrite(net, chain, w, data, push, commit);
      var c, p := Committers(net, chain, push, commit), PushReach(net, chain, push);
      && Prefixes(net, n, chain, w, data, c, p)
      && (forall i :: 0 <= i < p ==> Reaches(net, chain[i], push[i]))
      && (p < |chain| ==> !Reaches(net, chain[p], push[p]))
      && (c > 0 <==> chain[0] in net && push[0].Delivered? && !commit[0].LostBefore?)
      && (r.Written? <==> AllWentThrough(net, chain, push, commit))
      && (r.Written? ==> c == |chain|)
  {
    var net1 := Push(net, chain, w, data, push);
    PushStops(net, chain, push);
    PushIsPrefix(net, chain, w, data, push);
    if Answers(net, chain[0], push[0]) && Reaches(net1, chain[0], commit[0]) {
      CommittedPrefixes(net, chain, w, data, push, commit);
    }
  }

  /** What the client is told: an error of the call exactly if the first push or the commit
      was not answered by the primary, else success or a failed commit. */
  lemma {:induction false} WriteResultIff(net: Net, chain: seq<Addr>, w: WriteHead, data: Bytes, push: seq<Outcome>,
                                          commit: seq<Outcome>)
    requires |push| == |commit| == |chain| > 0 && Distinct(chain)
    requires forall a :: a in chain && a in net ==> KeyOf(w) !in net[a].buffer
    ensures var r := ClientWrite(net, chain, w, data, push, commit).1;
      var answered := chain[0] in net && push[0].Delivered? && commit[0].Delivered?;
      && (r.CallFailed? <==> !answered)
      && (r.CommitFailed? <==> answered && !AllWentThrough(net, chain, push, commit))
  {
    WriteLeavesPrefixes(net, chain, w, data, push, commit);
    PushIsPrefix(net, chain, w, data, push);
  }

  lemma WroteMeans(s: Server, w: WriteHead, data: Bytes)
    requires KeyOf(w) !in s.buffer
    ensures Wrote(s, w, data).files == s.files[w.handle := Overlay(FileOf(s.files, w.handle), w.offset, data)]
    ensures Wrote(s, w, data).versions == s.versions[w.handle := w.version]
    ensures Wrote(s, w, data).buffer == s.buffer
  {
  }

  /** An acknowledged write is on every server of the chain: those bytes at that offset,
      the new version, nothing left in the buffer, and no other chunk touched. */
  lemma AcknowledgedEverywhere(net: Net, chain: seq<Addr>, w: WriteHead, data: Bytes, push: seq<Outcome>,
                               commit: seq<Outcome>, a: Addr)
    requires |push| == |commit| == |chain| > 0 && Distinct(chain)
    requires forall b :: b in chain && b in net ==> KeyOf(w) !in net[b].buffer
    requires ClientWrite(net, chain, w, data, push, commit).1.Written?
    requires a in chain
    ensures var n := ClientWrite(net, chain, w, data, push, commit).0;
      && a in net && a in n
      && n[a].files == net[a].files[w.handle := Overlay(FileOf(net[a].files, w.handle), w.offset, data)]
      && n[a].versions == net[a].versions[w.handle := w.version]
      && n[a].buffer == net[a].buffer
  {
    WriteLeavesPrefixes(net, chain, w, data, push, commit);
    assert chain[..|chain|] == chain;
    assert a in net;
    WroteMeans(net[a], w, data);
  }

  // ---- When a write leaves the replicas alike ----

  /** All servers of the chain are up and none has used the key. */
  ghost predicate Live(net: Net, chain: seq<Addr>, w: WriteHead) {
    Distinct(chain) && forall a :: a in chain ==> a in net && KeyOf(w) !in net[a].buffer
  }

  /** The primary commits while some server of the chain has not buffered the data
      exactly when its own calls get through and any push call is lost. */
  lemma PrimaryCommitsEarlyIff(net: Net, chain: seq<Addr>, w: WriteHead, push: seq<Outcome>, commit: seq<Outcome>)
    requires |push| == |commit| == |chain| > 0 && Live(net, chain, w)
    ensures Committers(net, chain, push, commit) > 0 && PushReach(net, chain, push) < |chain| <==>
      push[0].Delivered? && !commit[0].LostBefore? && exists i :: 0 <= i < |push| && push[i].LostBefore?
  {
    FullReach(net, chain, push);
    PushStops(net, chain, push);
  }

  /** Either the primary never gets to commit, or no push call is lost, no commit call is
      lost, and every secondary but the last has its reply delivered. */
  predicate SparesReplicas(push: seq<Outcome>, commit: seq<Outcome>)
    requires |push| == |commit| > 0
  {
    || !push[0].Delivered? || commit[0].LostBefore?
    || ((forall i :: 0 <= i < |push| ==> !push[i].LostBefore?) &&
        (forall i :: 1 <= i < |commit| ==> !commit[i].LostBefore? && (i < |commit| - 1 ==> commit[i].Delivered?)))
  }

  lemma AllOrNoneCommitIff(net: Net, chain: seq<Addr>, w: WriteHead, push: seq<Outcome>, commit: seq<Outcome>)
    requires |push| == |commit| == |chain| > 0 && Live(net, chain, w)
    ensures var c := Committers(net, chain, push, commit);
      c == 0 || c == |chain| <==> SparesReplicas(push, commit)
  {
    var outs := [Delivered] + commit[1..];
    FullReach(net, chain, push);
    CommitsAllIff(|chain|, outs);
    assert forall i :: 1 <= i < |chain| ==> outs[i] == commit[i];
  }

  lemma FileAfter(net: Net, n: Net, chain: seq<Addr>, w: WriteHead, data: Bytes, c: nat, p: nat, i: nat)
    requires Prefixes(net, n, chain, w, data, c, p) && Live(net, chain, w) && i < |chain|
    ensures var before := FileOf(net[chain[i]].files, w.handle);
      FileOf(n[chain[i]].files, w.handle) == if i < c then Overlay(before, w.offset, data) else before
  {
    assert i < c ==> chain[..c][i] == chain[i];
    assert c <= i ==> chain[i] !in chain[..c];
  }

  /** Replicas that were equal before a write that changes them are equal afterwards
      exactly under those losses, acknowledged or not. */
  lemma ReplicasStayEqualIff(net: Net, chain: seq<Addr>, w: WriteHead, data: Bytes, push: seq<Outcome>,
                             commit: seq<Outcome>, file: Bytes)
    requires |push| == |commit| == |chain| > 0 && Live(net, chain, w)
    requires forall a :: a in chain ==> FileOf(net[a].files, w.handle) == file
    requires Overlay(file, w.offset, data) != file
    ensures var n := ClientWrite(net, chain, w, data, push, commit).0;
      && n.Keys == net.Keys
      && ((forall a, b :: a in chain && b in chain ==>
           FileOf(n[a].files, w.handle) == FileOf(n[b].files, w.handle)) <==>
          SparesReplicas(push, commit))
  {
    WriteLeavesPrefixes(net, chain, w, data, push, commit);
    AllOrNoneCommitIff(net, chain, w, push, commit);
    var n := ClientWrite(net, chain, w, data, push, commit).0;
    var c := Committers(net, chain, push, commit);
    forall i | 0 <= i < |chain|
      ensures FileOf(n[chain[i]].files, w.handle) == if i < c then Overlay(file, w.offset, data) else file
    {
      FileAfter(net, n, chain, w, data, c, PushReach(net, chain, push), i);
    }
    if 0 < c < |chain| { assert chain[0] in chain && chain[c] in chain; }
  }

  /** One such loss: when the push stops behind the primary, the write fails but the
      primary alone has taken it. */
  lemma FailedWriteDiverges(net: Net, chain: seq<Addr>, w: WriteHead, data: Bytes, push: seq<Outcome>,
                            commit: seq<Outcome>)
    requires |push| == |commit| == |chain| >= 2 && Live(net, chain, w)
    requires push[0].Delivered? && push[1].LostBefore? && !commit[0].LostBefore?
    ensures var (n, r) := ClientWrite(net, chain, w, data, push, commit);
      !r.Written? && n == net[chain[0] := Wrote(net[chain[0]], w, data)]
  {
    WriteLeavesPrefixes(net, chain, w, data, push, commit);
    assert PushReach(net, chain, push) == 1 && Committers(net, chain, push, commit) == 1;
    assert chain[..1] == [chain[0]];
  }

  // ---- Commits and pushes on one server ----

  /** What can arrive at one server, in any order and any number of times. */
  datatype Arrival =
    | PushArrives(head: WriteHead, data: Bytes)
    | CommitArrives(head: WriteHead)
    | AppendArrives(handle: Handle, data: Bytes, version: int)
    | DeleteArrives(handles: set<Handle>)

  function Arrive(s: Server, m: Arrival): Server {
    match m
    case PushArrives(w, data) => PushLocal(s, w, data)
    case CommitArrives(w) => CommitLocal(s, w).0
    case AppendArrives(h, data, v) => AppendLocal(s, h, data, v).0
    case DeleteArrives(hs) => Erased(s, hs)
  }

  function ArriveAll(s: Server, ms: seq<Arrival>): Server
    decreases |ms|
  {
    if ms == [] then s else Arrive(ArriveAll(s, ms[..|ms| - 1]), ms[|ms| - 1])
  }

  /** The pushes that arrived under a key. */
  function Pushes(ms: seq<Arrival>, key: string): nat
    decreases |ms|
  {
    if ms == [] then 0
    else
      var m := ms[|ms| - 1];
      Pushes(ms[..|ms| - 1], key) + if m.PushArrives? && KeyOf(m.head) == key then 1 else 0
  }

  /** The commits under a key that found data to write. */
  function Commits(s: Server, ms: seq<Arrival>, key: string): nat
    decreases |ms|
  {
    if ms == [] then 0
    else
      var before, m := ms[..|ms| - 1], ms[|ms| - 1];
      Commits(s, before, key) +
        if m.CommitArrives? && KeyOf(m.head) == key && CommitLocal(ArriveAll(s, before), m.head).1 then 1 else 0
  }

  /** No push is committed twice, however often commit messages are repeated. */
  lemma {:induction false} NoPushCommittedTwice(s: Server, ms: seq<Arrival>, key: string)
    requires key !in s.buffer
    ensures Commits(s, ms, key) + (if key in ArriveAll(s, ms).buffer then 1 else 0) <= Pushes(ms, key)
    decreases |ms|
  {
    if ms != [] { NoPushCommittedTwice(s, ms[..|ms| - 1], key); }
  }

  lemma BothPushed(s: Server, a: WriteHead, b: WriteHead, mine: Bytes, theirs: Bytes)
    ensures ArriveAll(s, [PushArrives(a, mine), PushArrives(b, theirs)]) == PushLocal(PushLocal(s, a, mine), b, theirs)
  {
    var first, both := [PushArrives(a, mine)], [PushArrives(a, mine), PushArrives(b, theirs)];
    assert first[..0] == [] && both[..1] == first;
    assert ArriveAll(s, first) == Arrive(s, first[0]);
    assert ArriveAll(s, both) == Arrive(ArriveAll(s, first), both[1]);
  }

  /** Every client counts its writes from 1, so two clients that write to one chunk use the
      same key. When both push before either commits, the first to commit writes the other's
      data at its own offset and is told it succeeded, and the other finds nothing. */
  lemma SerialsCollide(s: Server, a: WriteHead, b: WriteHead, mine: Bytes, theirs: Bytes)
    requires a.handle == b.handle && a.serial == b.serial
    ensures var pushed := ArriveAll(s, [PushArrives(a, mine), PushArrives(b, theirs)]);
      var (t, ok) := CommitLocal(pushed, a);
      && ok && !CommitLocal(t, b).1
      && FileOf(t.files, a.handle) == Overlay(FileOf(s.files, a.handle), a.offset, theirs)
  {
    BothPushed(s, a, b, mine, theirs);
    assert KeyOf(a) == KeyOf(b);
  }
}
