/** What the master notices of a write that was only partly applied: nothing. A server that
    was sent the data remembers the new version, whether or not it applied the write, and
    reports itself current. */
module Divergence {
  import opened Locations
  import opened Seqs
  import opened MasterState
  import opened MasterRuns
  import opened FanOut
  import opened LeaseRenewal
  import WriteChain

  // ---- The servers after the write ----

  /** The servers the push reached remember the version of the write, the others what they
      remembered before. */
  lemma VersionsAfter(net: CS.Net, n: CS.Net, chain: seq<Addr>, head: CS.WriteHead, data: CS.Bytes, c: nat, p: nat,
                      i: nat)
    requires WriteChain.Prefixes(net, n, chain, head, data, c, p) && WriteChain.Live(net, chain, head) && i < |chain|
    ensures Cluster.VersionAt(n[chain[i]], head.handle) ==
      if i < p then head.version else Cluster.VersionAt(net[chain[i]], head.handle)
  {
    assert i < c ==> chain[..c][i] == chain[i];
    assert i < p ==> chain[..p][i] == chain[i];
    assert c <= i ==> chain[i] !in chain[..c];
    assert p <= i ==> chain[i] !in chain[..p];
  }

  /** Of the first `p` servers either none or all commit: the primary never gets to, or no
      commit call to them is lost and all but the last of them are heard. */
  predicate SparesFirst(push: seq<CS.Outcome>, commit: seq<CS.Outcome>, p: nat)
    requires |push| == |commit| > 0 && p <= |push|
  {
    || !push[0].Delivered? || commit[0].LostBefore?
    || forall i :: 1 <= i < p ==> !commit[i].LostBefore? && (i < p - 1 ==> commit[i].Delivered?)
  }

  lemma NoneOrAllReachedIff(net: CS.Net, chain: seq<Addr>, push: seq<CS.Outcome>, commit: seq<CS.Outcome>)
    requires |push| == |commit| == |chain| > 0
    ensures var c, p := WriteChain.Committers(net, chain, push, commit), WriteChain.PushReach(net, chain, push);
      c == 0 || c == p <==> SparesFirst(push, commit, p)
  {
    var p := WriteChain.PushReach(net, chain, push);
    var outs := [CS.Delivered] + commit[1..];
    WriteChain.CommitsAllIff(p, outs);
    assert forall i :: 1 <= i < |chain| ==> outs[i] == commit[i];
  }

  /** Servers that were equal before a write that changes them: those the push reached are
      equal afterwards exactly under these losses. */
  lemma {:induction false} ReachedStayEqualIff(net: CS.Net, chain: seq<Addr>, head: CS.WriteHead, data: CS.Bytes,
                                               push: seq<CS.Outcome>, commit: seq<CS.Outcome>, file: CS.Bytes)
    requires |push| == |commit| == |chain| > 0 && WriteChain.Live(net, chain, head)
    requires forall a :: a in chain ==> CS.FileOf(net[a].files, head.handle) == file
    requires CS.Overlay(file, head.offset, data) != file
    ensures var n, p := CS.ClientWrite(net, chain, head, data, push, commit).0, WriteChain.PushReach(net, chain, push);
      && n.Keys == net.Keys
      && ((forall i, j :: 0 <= i < p && 0 <= j < p ==>
             CS.FileOf(n[chain[i]].files, head.handle) == CS.FileOf(n[chain[j]].files, head.handle)) <==>
          SparesFirst(push, commit, p))
  {
    WriteChain.WriteLeavesPrefixes(net, chain, head, data, push, commit);
    NoneOrAllReachedIff(net, chain, push, commit);
    var n, p := CS.ClientWrite(net, chain, head, data, push, commit).0, WriteChain.PushReach(net, chain, push);
    var c := WriteChain.Committers(net, chain, push, commit);
    forall i | 0 <= i < |chain|
      ensures CS.FileOf(n[chain[i]].files, head.handle) == if i < c then CS.Overlay(file, head.offset, data) else file
    {
      WriteChain.FileAfter(net, n, chain, head, data, c, p, i);
    }
    if 0 < c < p { assert CS.FileOf(n[chain[0]].files, head.handle) != CS.FileOf(n[chain[c]].files, head.handle); }
  }

  // ---- The reports that follow ----

  /** Heartbeats only, each telling the truth about its server in `net`. */
  ghost predicate TrueReports(net: CS.Net, es: seq<Event>) {
    forall i :: 0 <= i < |es| ==>
      es[i].op.Beat? && es[i].op.server in net && Cluster.IsReport(net[es[i].op.server], es[i].op.reports)
  }

  /** Did `a` report `h`? */
  predicate Reported(es: seq<Event>, a: Addr, h: Handle)
    decreases |es|
  {
    && es != []
    && (Reported(Init(es), a, h) || (Last(es).op.Beat? && Last(es).op.server == a && Mentions(Last(es).op.reports, h)))
  }

  lemma TrueReportDecides(m: Master, e: Event, net: CS.Net, h: Handle, a: Addr)
    requires e.op.Beat? && e.op.server in net && Cluster.IsReport(net[e.op.server], e.op.reports) && a in net
    requires h in m.store.chunkMap && NoRepeats(m.store.chunkMap[h])
    ensures var n := Heartbeat(m, e.op.server, e.op.reports, e.now);
      var current := Cluster.VersionAt(net[a], h) == VersionOf(m.store, h);
      && h in n.store.chunkMap && NoRepeats(n.store.chunkMap[h]) && n.store.chunkVersions == m.store.chunkVersions
      && (Counts(n, h, a) <==> if e.op.server == a && Mentions(e.op.reports, h) then current else Counts(m, h, a))
      && (current ==> (Repair(h, a) in n.repairs <==> Repair(h, a) in m.repairs))
  {
    var v := Cluster.VersionAt(net[e.op.server], h);
    BeatDecides(m.(lastSeen := m.lastSeen[e.op.server := e.now]), e.op.server, e.op.reports, h, v, a);
    assert Mentions(e.op.reports, h) <==> ReportsAs(e.op.reports, h, v);
  }

  /** What the reports of all servers together make of one of them. */
  lemma {:induction false} ReportsDecide(w: World, es: seq<Event>, net: CS.Net, h: Handle, a: Addr)
    requires Legal(w, es) && TrueReports(net, es) && a in net
    requires h in w.master.store.chunkMap && NoRepeats(w.master.store.chunkMap[h])
    ensures var m, n := w.master, Exec(w, es).master;
      var current := Cluster.VersionAt(net[a], h) == VersionOf(m.store, h);
      && h in n.store.chunkMap && NoRepeats(n.store.chunkMap[h]) && n.store.chunkVersions == m.store.chunkVersions
      && (Counts(n, h, a) <==> if Reported(es, a, h) then current else Counts(m, h, a))
      && (current ==> (Repair(h, a) in n.repairs <==> Repair(h, a) in m.repairs))
    decreases |es|
  {
    if es != [] {
      ReportsDecide(w, Init(es), net, h, a);
      TrueReportDecides(Exec(w, Init(es)).master, Last(es), net, h, a);
    }
  }

  /** A write with any calls lost, along a live chain whose replicas were equal, and then
      heartbeats in any order and number. A server of the chain that reports the chunk
      counts as a healthy replica exactly if the push reached it or it knew the version
      before; no repair is queued for any of these; and yet the ones the push reached hold
      the same bytes exactly under the losses of `SparesFirst`. */
  lemma {:induction false} DivergenceUnseen(w: World, es: seq<Event>, net: CS.Net, chain: seq<Addr>, head: CS.WriteHead,
                                            data: CS.Bytes, push: seq<CS.Outcome>, commit: seq<CS.Outcome>,
                                            file: CS.Bytes, i: nat)
    requires |push| == |commit| == |chain| > 0 && WriteChain.Live(net, chain, head) && i < |chain|
    requires forall a :: a in chain ==> CS.FileOf(net[a].files, head.handle) == file
    requires CS.Overlay(file, head.offset, data) != file
    requires Legal(w, es) && TrueReports(CS.ClientWrite(net, chain, head, data, push, commit).0, es)
    requires var s := w.master.store;
      head.handle in s.chunkMap && NoRepeats(s.chunkMap[head.handle]) && head.version == VersionOf(s, head.handle)
    ensures var h, a, m, after := head.handle, chain[i], w.master, Exec(w, es).master;
      var n, p := CS.ClientWrite(net, chain, head, data, push, commit).0, WriteChain.PushReach(net, chain, push);
      var current := i < p || Cluster.VersionAt(net[a], h) == head.version;
      && (Reported(es, a, h) ==> (Counts(after, h, a) <==> current))
      && (current ==> (Repair(h, a) in after.repairs <==> Repair(h, a) in m.repairs))
      && n.Keys == net.Keys
      && ((forall j, k :: 0 <= j < p && 0 <= k < p ==>
           CS.FileOf(n[chain[j]].files, h) == CS.FileOf(n[chain[k]].files, h)) <==>
          SparesFirst(push, commit, p))
  {
    var n, p := CS.ClientWrite(net, chain, head, data, push, commit).0, WriteChain.PushReach(net, chain, push);
    WriteChain.WriteLeavesPrefixes(net, chain, head, data, push, commit);
    VersionsAfter(net, n, chain, head, data, WriteChain.Committers(net, chain, push, commit), p, i);
    ReachedStayEqualIff(net, chain, head, data, push, commit, file);
    ReportsDecide(w, es, n, head.handle, chain[i]);
  }
}
