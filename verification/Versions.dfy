/** Which version of a chunk the servers remember after a write, an append or a clone, and
    how they stand with the master after they report it. */
module Versions {
  import opened Locations
  import opened Seqs
  import opened Text
  import opened MasterState
  import opened MasterRuns
  import opened FanOut
  import opened Leases
  import opened LeaseRenewal
  import opened Divergence
  import opened EndToEnd
  import opened Locating

  // ---- Reports ----

  /** The lists a chunkserver reports: every chunk on disk with the version it remembers. */
  ghost predicate ReportLists(s: CS.Server, handles: seq<Handle>, versions: seq<int>) {
    && (forall h :: h in handles <==> h in s.files)
    && |versions| == |handles| && forall i :: 0 <= i < |handles| ==> versions[i] == Cluster.VersionAt(s, handles[i])
  }

  /** Paired by the master they are a true report that leaves nothing out. */
  lemma ReportIsTrue(s: CS.Server, handles: seq<Handle>, versions: seq<int>)
    requires ReportLists(s, handles, versions)
    ensures Cluster.IsReport(s, Zip(handles, versions))
    ensures forall h :: Mentions(Zip(handles, versions), h) <==> h in s.files
  {
    var reports := Zip(handles, versions);
    assert forall i :: 0 <= i < |reports| ==> reports[i].handle == handles[i] && handles[i] in handles;
    forall h | h in s.files ensures Mentions(reports, h) {
      assert h in handles;
      var i :| 0 <= i < |handles| && handles[i] == h;
      assert reports[i].handle == h;
    }
  }

  /** In every run: a server that holds the chunk and reports what it has is a healthy
      replica afterwards exactly if it remembers as many leases as were granted, and then no
      repair is queued for it. */
  lemma {:induction false} StandingAfterReport(w: World, es: seq<Event>, net: CS.Net, h: Handle, a: Addr,
                                               handles: seq<Handle>, versions: seq<int>, now: Time)
    requires Fresh(w) && Legal(w, es) && h in Exec(w, es).master.store.chunkMap
    requires a in net && h in net[a].files && ReportLists(net[a], handles, versions)
    ensures var m := Exec(w, es).master; var n := Heartbeat(m, a, Zip(handles, versions), now);
      var current := Cluster.VersionAt(net[a], h) == |Grants(m.log, h)|;
      && (Counts(n, h, a) <==> current)
      && (current ==> (Repair(h, a) in n.repairs <==> Repair(h, a) in m.repairs))
  {
    var m := Exec(w, es).master;
    LogInOrder(w, es, h);
    ListsStayDistinct(w, es);
    ReportIsTrue(net[a], handles, versions);
    TrueReportDecides(m, Event(now, Beat(a, Zip(handles, versions))), net, h, a);
  }

  // ---- Writes ----

  /** The write a client makes along a location, with the version it was told. */
  ghost predicate WrittenAlong(at: Location, net: CS.Net, head: CS.WriteHead, data: CS.Bytes, push: seq<CS.Outcome>,
                               commit: seq<CS.Outcome>) {
    && head.handle == at.handle && head.version == at.version && |push| == |commit| == |Contacts(at)|
    && (forall b :: b in net ==> CS.KeyOf(head) !in net[b].buffer)
    && CS.ClientWrite(net, Contacts(at), head, data, push, commit).1.Written?
  }

  /** An acknowledged write leaves every server of the chain with the number of leases
      granted up to the answer as its version. */
  lemma {:induction false} WrittenVersion(w: World, es: seq<Event>, e: Event, at: Location, net: CS.Net,
                                          head: CS.WriteHead, data: CS.Bytes, push: seq<CS.Outcome>,
                                          commit: seq<CS.Outcome>, a: Addr)
    requires HandedOut(w, es, e, at) && WrittenAlong(at, net, head, data, push, commit) && a in Contacts(at)
    ensures var n := CS.ClientWrite(net, Contacts(at), head, data, push, commit).0;
      && a in n && at.handle in n[a].files
      && Cluster.VersionAt(n[a], at.handle) == |Grants(Afterwards(w, es, e).log, at.handle)|
  {
    FanOut.ReplyCoversHealthy(w, es, e);
    LocatedVersion(w, es, e, at);
    WriteChain.AcknowledgedEverywhere(net, Contacts(at), head, data, push, commit, a);
  }

  /** As long as no lease of the chunk was granted since, `es2` being what the master did. */
  ghost predicate StillGranted(w: World, es: seq<Event>, e: Event, es2: seq<Event>, h: Handle) {
    && Fresh(w) && Legal(w, es) && CanStep(Exec(w, es), e) && Legal(w, es + [e] + es2)
    && var m := Exec(w, es + [e] + es2).master;
    h in m.store.chunkMap && Grants(m.log, h) == Grants(Afterwards(w, es, e).log, h)
  }

  /** So each of them is healthy after its next report, and nothing is queued for it. */
  lemma {:induction false} WrittenStaysHealthy(w: World, es: seq<Event>, e: Event, at: Location, net: CS.Net,
                                               head: CS.WriteHead, data: CS.Bytes, push: seq<CS.Outcome>,
                                               commit: seq<CS.Outcome>, a: Addr, es2: seq<Event>, handles: seq<Handle>,
                                               versions: seq<int>, now: Time)
    requires HandedOut(w, es, e, at) && WrittenAlong(at, net, head, data, push, commit) && a in Contacts(at)
    requires StillGranted(w, es, e, es2, at.handle)
    requires var n := CS.ClientWrite(net, Contacts(at), head, data, push, commit).0;
      a in n && ReportLists(n[a], handles, versions)
    ensures var m := Exec(w, es + [e] + es2).master; var m' := Heartbeat(m, a, Zip(handles, versions), now);
      Counts(m', at.handle, a) && (Repair(at.handle, a) in m'.repairs <==> Repair(at.handle, a) in m.repairs)
  {
    WrittenVersion(w, es, e, at, net, head, data, push, commit, a);
    var n := CS.ClientWrite(net, Contacts(at), head, data, push, commit).0;
    StandingAfterReport(w, es + [e] + es2, n, at.handle, a, handles, versions, now);
  }

  // ---- Appends ----

  /** The bytes of every other chunk, and the versions, are as before. */
  ghost predicate SameElsewhere(s: CS.Server, t: CS.Server, h: Handle) {
    forall k :: k != h ==>
      && Cluster.VersionAt(t, k) == Cluster.VersionAt(s, k)
      && (k in t.files <==> k in s.files) && CS.FileOf(t.files, k) == CS.FileOf(s.files, k)
  }

  lemma AppendedVersion(s: CS.Server, h: Handle, data: CS.Bytes, version: int)
    requires |CS.FileOf(s.files, h)| <= CS.CHUNK_SIZE && |data| <= CS.CHUNK_SIZE
    ensures var (t, r) := CS.AppendLocal(s, h, data, version);
      && SameElsewhere(s, t, h)
      && (r.Appended? <==> |CS.FileOf(s.files, h)| + |data| <= CS.CHUNK_SIZE)
      && Cluster.VersionAt(t, h) == (if r.Appended? then version else Cluster.VersionAt(s, h))
      && (r.Appended? ==> h in t.files)
  {
    RecordAppend.Fits(|CS.FileOf(s.files, h)|, |data|);
  }

  /** The servers a block of `size` bytes reaches and finds room on get the version. */
  ghost predicate Stamped(net: CS.Net, n: CS.Net, secondaries: seq<Addr>, outs: seq<CS.Outcome>, h: Handle, size: nat,
                          version: int, a: Addr)
    requires |outs| == |secondaries|
  {
    a in net && a in n && SameElsewhere(net[a], n[a], h) &&
    if !RecordAppend.Got(net, secondaries, outs, a) then n[a] == net[a]
    else if |CS.FileOf(net[a].files, h)| + size <= CS.CHUNK_SIZE then
      h in n[a].files && Cluster.VersionAt(n[a], h) == version
    else Cluster.VersionAt(n[a], h) == Cluster.VersionAt(net[a], h)
  }

  lemma {:induction false} ForwardStamps(net: CS.Net, secondaries: seq<Addr>, h: Handle, block: CS.Bytes, version: int,
                                         outs: seq<CS.Outcome>, a: Addr)
    requires |outs| == |secondaries| && Distinct(secondaries) && |block| <= CS.CHUNK_SIZE
    requires a in net && |CS.FileOf(net[a].files, h)| <= CS.CHUNK_SIZE
    ensures Stamped(net, CS.ForwardBlock(net, secondaries, h, block, version, outs), secondaries, outs, h, |block|,
        version, a)
    decreases |secondaries|
  {
    if secondaries != [] {
      var b, rest := secondaries[0], secondaries[1..];
      DistinctTail(secondaries);
      var net' := if CS.Reaches(net, b, outs[0]) then net[b := CS.AppendLocal(net[b], h, block, version).0] else net;
      assert secondaries == [b] + rest && outs == [outs[0]] + outs[1..];
      if a == b {
        AppendedVersion(net[a], h, block, version);
        RecordAppend.NotForwarded(net', rest, h, block, version, outs[1..], a);
      } else {
        ForwardStamps(net', rest, h, block, version, outs[1..], a);
        assert RecordAppend.Got(net, secondaries, outs, a) <==> RecordAppend.Got(net', rest, outs[1..], a);
      }
    }
  }

  /** What an append leaves of versions. It is a record exactly when it fits the primary's
      copy, and then the primary and every secondary that is reached and has room remember
      `version`; otherwise it is padding, the primary's version stays, and the secondaries
      reached that have room for the padding remember 0. Nobody else changes. */
  lemma {:induction false} AppendStamps(net: CS.Net, primary: Addr, secondaries: seq<Addr>, h: Handle, data: CS.Bytes,
                                        version: int, outs: seq<CS.Outcome>, a: Addr)
    requires |outs| == |secondaries| && Distinct(secondaries) && primary in net && primary !in secondaries
    requires |data| <= CS.CHUNK_SIZE && |CS.FileOf(net[primary].files, h)| <= CS.CHUNK_SIZE
    requires a in net && |CS.FileOf(net[a].files, h)| <= CS.CHUNK_SIZE
    ensures var (n, r) := CS.Append(net, primary, secondaries, h, data, version, outs);
      var size := |CS.FileOf(net[primary].files, h)|;
      && (r.Appended? <==> size + |data| <= 64 * 1024 * 1024)
      && a in n && SameElsewhere(net[a], n[a], h)
      && if a == primary
         then Cluster.VersionAt(n[a], h) == (if r.Appended? then version else Cluster.VersionAt(net[a], h))
         else Stamped(net, n, secondaries, outs, h, if r.Appended? then |data| else CS.CHUNK_SIZE - size,
                      if r.Appended? then version else 0, a)
  {
    var file := CS.FileOf(net[primary].files, h);
    var (s, r) := CS.AppendLocal(net[primary], h, data, version);
    var block, v := CS.Block(file, data), if r.Appended? then version else 0;
    AppendedVersion(net[primary], h, data, version);
    RecordAppend.AppendAddsBlock(net[primary], h, data, version);
    RecordAppend.BlockFits(file, data);
    RecordAppend.Fits(|file|, |data|);
    if a == primary {
      RecordAppend.NotForwarded(net[primary := s], secondaries, h, block, v, outs, primary);
    } else {
      ForwardStamps(net[primary := s], secondaries, h, block, v, outs, a);
      assert RecordAppend.Got(net[primary := s], secondaries, outs, a) <==> RecordAppend.Got(net, secondaries, outs, a);
    }
  }

  /** The servers an append of a client got through to: the primary, and each secondary that
      is reached and has room for the record, or for the padding. */
  ghost predicate TookPart(net: CS.Net, at: Location, data: CS.Bytes, outs: seq<CS.Outcome>, full: bool, a: Addr)
    requires |outs| == |at.secondaries|
  {
    var size := |RecordAppend.File(net, at.primary, at.handle)|;
    a == at.primary || (RecordAppend.Got(net, at.secondaries, outs, a) &&
      |RecordAppend.File(net, a, at.handle)| + (if full then CS.CHUNK_SIZE - size else |data|) <= CS.CHUNK_SIZE)
  }

  lemma {:induction false} AppendedAlong(w: World, es: seq<Event>, e: Event, at: Location, net: CS.Net, data: CS.Bytes,
                                         call: CS.Outcome, outs: seq<CS.Outcome>, a: Addr)
    requires HandedOut(w, es, e, at) && |outs| == |at.secondaries| && a in net
    requires |RecordAppend.File(net, at.primary, at.handle)| <= CS.CHUNK_SIZE
    requires |RecordAppend.File(net, a, at.handle)| <= CS.CHUNK_SIZE
    requires ClientCalls.ClientAppend(net, at, data, call, outs).1.AppendedAt? ||
             ClientCalls.ClientAppend(net, at, data, call, outs).1.ChunkFull?
    requires TookPart(net, at, data, outs, ClientCalls.ClientAppend(net, at, data, call, outs).1.ChunkFull?, a)
    ensures var (n, r) := ClientCalls.ClientAppend(net, at, data, call, outs);
      && a in n
      && (r.AppendedAt? ==> Cluster.VersionAt(n[a], at.handle) == |Grants(Afterwards(w, es, e).log, at.handle)|)
      && (r.ChunkFull? && a != at.primary ==> Cluster.VersionAt(n[a], at.handle) == 0)
      && (r.ChunkFull? && a == at.primary ==>
           Cluster.VersionAt(n[a], at.handle) == Cluster.VersionAt(net[a], at.handle))
  {
    FanOut.ReplyCoversHealthy(w, es, e);
    LocatedVersion(w, es, e, at);
    DistinctTail(Contacts(at));
    assert Contacts(at)[1..] == at.secondaries;
    AppendStamps(net, at.primary, at.secondaries, at.handle, data, at.version, outs, a);
  }

  /** After a record was appended along a location, those servers are healthy after their next
      report, as long as no lease was granted since. After an answer that the chunk is full
      the secondaries that took the padding are not: padding carries no version. */
  lemma {:induction false} AppendSeen(w: World, es: seq<Event>, e: Event, at: Location, net: CS.Net, data: CS.Bytes,
                                      call: CS.Outcome, outs: seq<CS.Outcome>, a: Addr, es2: seq<Event>,
                                      handles: seq<Handle>, versions: seq<int>, now: Time)
    requires HandedOut(w, es, e, at) && |outs| == |at.secondaries| && a in net
    requires |RecordAppend.File(net, at.primary, at.handle)| <= CS.CHUNK_SIZE
    requires |RecordAppend.File(net, a, at.handle)| <= CS.CHUNK_SIZE
    requires ClientCalls.ClientAppend(net, at, data, call, outs).1.AppendedAt? ||
             ClientCalls.ClientAppend(net, at, data, call, outs).1.ChunkFull?
    requires TookPart(net, at, data, outs, ClientCalls.ClientAppend(net, at, data, call, outs).1.ChunkFull?, a)
    requires StillGranted(w, es, e, es2, at.handle)
    requires var n := ClientCalls.ClientAppend(net, at, data, call, outs).0;
      a in n && at.handle in n[a].files && ReportLists(n[a], handles, versions)
    ensures var r := ClientCalls.ClientAppend(net, at, data, call, outs).1;
      var m := Exec(w, es + [e] + es2).master; var m' := Heartbeat(m, a, Zip(handles, versions), now);
      && (r.AppendedAt? ==>
           Counts(m', at.handle, a) && (Repair(at.handle, a) in m'.repairs <==> Repair(at.handle, a) in m.repairs))
      && (r.ChunkFull? && a != at.primary && at.version > 0 ==> !Counts(m', at.handle, a))
  {
    AppendedAlong(w, es, e, at, net, data, call, outs, a);
    LocatedVersion(w, es, e, at);
    var n := ClientCalls.ClientAppend(net, at, data, call, outs).0;
    StandingAfterReport(w, es + [e] + es2, n, at.handle, a, handles, versions, now);
  }

  // ---- Deletions ----

  /** Deleting chunks takes their bytes and versions and leaves the buffer and the checksums,
      which a chunk written again under the handle finds; other chunks stay. */
  lemma DeletionLeaves(s: CS.Server, hs: set<Handle>, h: Handle)
    ensures var t := CS.Erased(s, hs);
      && t.buffer == s.buffer && t.sums == s.sums
      && (h in hs ==> h !in t.files && Cluster.VersionAt(t, h) == 0)
      && (h !in hs ==> Cluster.VersionAt(t, h) == Cluster.VersionAt(s, h))
      && (h !in hs ==> (h in t.files <==> h in s.files) && CS.FileOf(t.files, h) == CS.FileOf(s.files, h))
  {
  }

  // ---- Clones ----

  /** The two halves of a clone at its target; both use one fixed serial. */
  lemma ClonedLocally(s: CS.Server, h: Handle, version: int, data: CS.Bytes)
    ensures var w := CS.CloneHead(h, version);
      var t := CS.PushLocal(s, w, data); var (u, ok) := CS.CommitLocal(t, w);
      && ok && t.files == s.files && h in u.files
      && Cluster.VersionAt(t, h) == version && Cluster.VersionAt(u, h) == version
      && SameElsewhere(s, t, h) && SameElsewhere(s, u, h)
      && t.buffer == s.buffer[BufferKey(h, 999999) := CS.Buffered(h, data)]
      && u.buffer == s.buffer - {BufferKey(h, 999999)}
  {
  }

  lemma CloneVersions(net: CS.Net, source: Addr, target: Addr, h: Handle, version: int, push: CS.Outcome,
                      commit: CS.Outcome)
    requires source in net
    ensures var (n, ok) := CS.Clone(net, source, target, h, version, push, commit);
      var data := CS.FileOf(net[source].files, h);
      var pushed := data != [] && target in net && !push.LostBefore?;
      var landed := pushed && push.Delivered? && !commit.LostBefore?;
      && n.Keys == net.Keys
      && (ok <==> landed && commit.Delivered?)
      && (forall a :: a in net && a != target ==> n[a] == net[a])
      && (!pushed ==> n == net)
      && (pushed ==> Cluster.VersionAt(n[target], h) == version && SameElsewhere(net[target], n[target], h))
      && (pushed && !landed ==> n[target].files == net[target].files)
      && (landed ==> h in n[target].files)
  {
    if target in net { ClonedLocally(net[target], h, version, CS.FileOf(net[source].files, h)); }
  }

  lemma CloneBuffers(net: CS.Net, source: Addr, target: Addr, h: Handle, version: int, push: CS.Outcome,
                     commit: CS.Outcome)
    requires source in net
    ensures var n := CS.Clone(net, source, target, h, version, push, commit).0;
      var data := CS.FileOf(net[source].files, h);
      var pushed := data != [] && target in net && !push.LostBefore?;
      var landed := pushed && push.Delivered? && !commit.LostBefore?;
      && (pushed ==> target in n)
      && (landed ==> n[target].buffer == net[target].buffer - {BufferKey(h, 999999)})
      && (pushed && !landed ==> n[target].buffer == net[target].buffer[BufferKey(h, 999999) := CS.Buffered(h, data)])
  {
    if target in net { ClonedLocally(net[target], h, version, CS.FileOf(net[source].files, h)); }
  }

  /** What a clone leaves, whatever calls are lost. The push lands if there is anything to
      send and it gets through; the commit lands if also the push is answered and the commit
      gets through. A push that lands sets the version, a commit that lands the bytes;
      nothing else changes, and success means that both landed and were answered. */
  lemma CloneLeaves(net: CS.Net, source: Addr, target: Addr, h: Handle, version: int, push: CS.Outcome,
                    commit: CS.Outcome)
    requires source in net
    ensures var (n, ok) := CS.Clone(net, source, target, h, version, push, commit);
      var data := CS.FileOf(net[source].files, h);
      var pushed := data != [] && target in net && !push.LostBefore?;
      var landed := pushed && push.Delivered? && !commit.LostBefore?;
      && n.Keys == net.Keys
      && (ok <==> landed && commit.Delivered?)
      && (forall a :: a in net && a != target ==> n[a] == net[a])
      && (!pushed ==> n == net)
      && (pushed ==> Cluster.VersionAt(n[target], h) == version && SameElsewhere(net[target], n[target], h))
      && (landed ==> n[target].buffer == net[target].buffer - {BufferKey(h, 999999)})
      && (pushed && !landed ==> n[target].buffer == net[target].buffer[BufferKey(h, 999999) := CS.Buffered(h, data)])
      && (pushed && !landed ==> n[target].files == net[target].files)
      && (landed ==> h in n[target].files)
      && (landed ==> CS.FileOf(n[target].files, h) == RecordAppend.OnTop(data, CS.FileOf(net[target].files, h)))
  {
    CloneVersions(net, source, target, h, version, push, commit);
    CloneBuffers(net, source, target, h, version, push, commit);
    RecordAppend.CloneCopies(net, source, target, h, version, push, commit);
  }

  /** After a successful clone that carries the number of leases granted, the target's next
      report leaves it a healthy replica with nothing queued for it. */
  lemma {:induction false} CloneStaysHealthy(w: World, es: seq<Event>, net: CS.Net, source: Addr, target: Addr,
                                             h: Handle, version: int, push: CS.Outcome, commit: CS.Outcome,
                                             handles: seq<Handle>, versions: seq<int>, now: Time)
    requires Fresh(w) && Legal(w, es) && h in Exec(w, es).master.store.chunkMap
    requires source in net && version == |Grants(Exec(w, es).master.log, h)|
    requires CS.Clone(net, source, target, h, version, push, commit).1
    requires var n := CS.Clone(net, source, target, h, version, push, commit).0;
      target in n && ReportLists(n[target], handles, versions)
    ensures var m := Exec(w, es).master; var m' := Heartbeat(m, target, Zip(handles, versions), now);
      Counts(m', h, target) && (Repair(h, target) in m'.repairs <==> Repair(h, target) in m.repairs)
  {
    CloneLeaves(net, source, target, h, version, push, commit);
    StandingAfterReport(w, es, CS.Clone(net, source, target, h, version, push, commit).0, h, target, handles, versions,
        now);
  }
}
