/** The calls of the data plane are schedules of the cluster: whatever a write, an append or a
    clone does to the servers under any pattern of lost calls, some sequence of message
    deliveries does as well. So what holds over all schedules holds through every call. */
module Schedules {
  import opened Locations
  import opened Seqs
  import opened Cluster

  /** `acts` lead from `c` to servers `n`; nothing that was sent is lost from sight. */
  ghost predicate Leads(c: State, acts: seq<Act>, n: CS.Net) {
    && Possible(c, acts)
    && var d := After(c, acts);
    d.servers == n && d.world == c.world && c.sent <= d.sent
  }

  lemma {:induction false} Join(c: State, xs: seq<Act>, ys: seq<Act>)
    requires Possible(c, xs) && Possible(After(c, xs), ys)
    ensures Possible(c, xs + ys) && After(c, xs + ys) == After(After(c, xs), ys)
    decreases |ys|
  {
    if ys == [] {
      assert xs + ys == xs;
    } else {
      assert Init(xs + ys) == xs + Init(ys) && Last(xs + ys) == Last(ys);
      Join(c, xs, Init(ys));
    }
  }

  lemma LeadsOn(c: State, xs: seq<Act>, m: CS.Net, ys: seq<Act>, n: CS.Net)
    requires Leads(c, xs, m) && Leads(After(c, xs), ys, n)
    ensures Leads(c, xs + ys, n)
  {
    Join(c, xs, ys);
  }

  lemma One(c: State, act: Act)
    requires Can(c, act)
    ensures Possible(c, [act]) && After(c, [act]) == Do(c, act)
  {
    assert Init([act]) == [] && Last([act]) == act;
  }

  /** Delivering one message. */
  lemma {:induction false} Delivered(c: State, m: Msg) returns (acts: seq<Act>)
    requires Can(c, Delivers(m))
    ensures Leads(c, acts, c.servers[m.to := Handled(c.servers[m.to], m)])
    ensures Answered(c.servers[m.to], m) <= After(c, acts).sent
  {
    acts := [Delivers(m)];
    One(c, Delivers(m));
  }

  // ---- Writes ----

  lemma {:induction false} PushScheduled(c: State, chain: seq<Addr>, w: CS.WriteHead, data: CS.Bytes,
                                         outs: seq<CS.Outcome>)
    returns (acts: seq<Act>)
    requires |outs| == |chain| && (chain != [] ==> PushMsg(chain[0], w, data, chain[1..]) in c.sent)
    ensures Leads(c, acts, CS.Push(c.servers, chain, w, data, outs))
    decreases |chain|
  {
    if chain == [] || !CS.Reaches(c.servers, chain[0], outs[0]) { return []; }
    var first := Delivered(c, PushMsg(chain[0], w, data, chain[1..]));
    var c1 := After(c, first);
    var rest := PushScheduled(c1, chain[1..], w, data, outs[1..]);
    LeadsOn(c, first, c1.servers, rest, CS.Push(c.servers, chain, w, data, outs));
    acts := first + rest;
  }

  lemma {:induction false} CommitsScheduled(c: State, secondaries: seq<Addr>, w: CS.WriteHead, outs: seq<CS.Outcome>)
    returns (acts: seq<Act>)
    requires |outs| == |secondaries| && forall a :: a in secondaries ==> CommitMsg(a, w, []) in c.sent
    ensures Leads(c, acts, CS.CommitAll(c.servers, secondaries, w, outs).0)
    decreases |secondaries|
  {
    if secondaries == [] || !CS.Reaches(c.servers, secondaries[0], outs[0]) { return []; }
    var first := Delivered(c, CommitMsg(secondaries[0], w, []));
    if !CS.CommitLocal(c.servers[secondaries[0]], w).1 || !outs[0].Delivered? { return first; }
    var c1 := After(c, first);
    var rest := CommitsScheduled(c1, secondaries[1..], w, outs[1..]);
    LeadsOn(c, first, c1.servers, rest, CS.CommitAll(c.servers, secondaries, w, outs).0);
    acts := first + rest;
  }

  lemma {:induction false} CommitScheduled(c: State, primary: Addr, secondaries: seq<Addr>, w: CS.WriteHead,
                                           outs: seq<CS.Outcome>)
    returns (acts: seq<Act>)
    requires |outs| == |secondaries| && primary in c.servers && CommitMsg(primary, w, secondaries) in c.sent
    ensures Leads(c, acts, CS.Commit(c.servers, primary, secondaries, w, outs).0)
  {
    var first := Delivered(c, CommitMsg(primary, w, secondaries));
    if !CS.CommitLocal(c.servers[primary], w).1 { return first; }
    var c1 := After(c, first);
    assert forall a :: a in secondaries ==>
      CommitMsg(a, w, []) in Answered(c.servers[primary], CommitMsg(primary, w, secondaries));
    var rest := CommitsScheduled(c1, secondaries, w, outs);
    LeadsOn(c, first, c1.servers, rest, CS.Commit(c.servers, primary, secondaries, w, outs).0);
    acts := first + rest;
  }

  /** A client's call goes out. */
  lemma {:induction false} Sent(c: State, act: Act) returns (acts: seq<Act>)
    requires Can(c, act) && (act.ClientPushes? || act.ClientCommits? || act.ClientAppends?)
    ensures Leads(c, acts, c.servers) && After(c, acts) == Do(c, act)
  {
    acts := [act];
    One(c, act);
  }

  /** A whole write of a client that was told the location. */
  lemma {:induction false} WriteScheduled(c: State, at: Location, serial: int, offset: nat, data: CS.Bytes,
                                          push: seq<CS.Outcome>, commit: seq<CS.Outcome>) returns (acts: seq<Act>)
    requires LocationMsg(at) in c.sent && |push| == |commit| == |Contacts(at)|
    ensures var w := CS.WriteHead(at.handle, offset, serial, at.version);
      Leads(c, acts, CS.ClientWrite(c.servers, Contacts(at), w, data, push, commit).0)
  {
    var w, chain := CS.WriteHead(at.handle, offset, serial, at.version), Contacts(at);
    assert chain[1..] == at.secondaries;
    acts := Sent(c, ClientPushes(LocationMsg(at), serial, offset, data));
    var c1 := After(c, acts);
    var pushes := PushScheduled(c1, chain, w, data, push);
    var net1 := CS.Push(c.servers, chain, w, data, push);
    LeadsOn(c, acts, c.servers, pushes, net1);
    acts := acts + pushes;
    if !CS.Answers(c.servers, chain[0], push[0]) || !CS.Reaches(net1, chain[0], commit[0]) { return; }
    var c2 := After(c, acts);
    var call := Sent(c2, ClientCommits(LocationMsg(at), serial, offset));
    LeadsOn(c, acts, net1, call, net1);
    acts := acts + call;
    var c3 := After(c, acts);
    Join(c, acts[..|acts| - |call|], call);
    assert acts[..|acts| - |call|] + call == acts;
    var commits := CommitScheduled(c3, chain[0], chain[1..], w, commit[1..]);
    LeadsOn(c, acts, net1, commits, CS.Commit(net1, chain[0], chain[1..], w, commit[1..]).0);
    acts := acts + commits;
  }

  // ---- Appends ----

  lemma {:induction false} BlocksScheduled(c: State, secondaries: seq<Addr>, h: Handle, block: CS.Bytes, version: int,
                                           outs: seq<CS.Outcome>) returns (acts: seq<Act>)
    requires |outs| == |secondaries| && forall a :: a in secondaries ==> AppendMsg(a, h, block, version, []) in c.sent
    ensures Leads(c, acts, CS.ForwardBlock(c.servers, secondaries, h, block, version, outs))
    decreases |secondaries|
  {
    if secondaries == [] { return []; }
    var first := [];
    if CS.Reaches(c.servers, secondaries[0], outs[0]) {
      first := Delivered(c, AppendMsg(secondaries[0], h, block, version, []));
    }
    var c1 := After(c, first);
    var rest := BlocksScheduled(c1, secondaries[1..], h, block, version, outs[1..]);
    LeadsOn(c, first, c1.servers, rest, CS.ForwardBlock(c.servers, secondaries, h, block, version, outs));
    acts := first + rest;
  }

  /** A whole append of a client that was told the location and reaches the primary. */
  lemma {:induction false} AppendScheduled(c: State, at: Location, data: CS.Bytes,
                                           outs: seq<CS.Outcome>) returns (acts: seq<Act>)
    requires LocationMsg(at) in c.sent && |outs| == |at.secondaries| && at.primary in c.servers
    ensures Leads(c, acts, CS.Append(c.servers, at.primary, at.secondaries, at.handle, data, at.version, outs).0)
  {
    var msg := AppendMsg(at.primary, at.handle, data, at.version, at.secondaries);
    var n := CS.Append(c.servers, at.primary, at.secondaries, at.handle, data, at.version, outs).0;
    var (s, reply) := CS.AppendLocal(c.servers[at.primary], at.handle, data, at.version);
    acts := Sent(c, ClientAppends(LocationMsg(at), data));
    var first := Delivered(After(c, acts), msg);
    var net1 := c.servers[at.primary := s];
    LeadsOn(c, acts, c.servers, first, net1);
    Join(c, acts, first);
    acts := acts + first;
    if reply.AppendError? { return; }
    var block := CS.Block(CS.FileOf(c.servers[at.primary].files, at.handle), data);
    var v := if reply.Appended? then at.version else 0;
    assert forall a :: a in at.secondaries ==>
      AppendMsg(a, at.handle, block, v, []) in Answered(c.servers[at.primary], msg);
    var rest := BlocksScheduled(After(c, acts), at.secondaries, at.handle, block, v, outs);
    LeadsOn(c, acts, net1, rest, n);
    acts := acts + rest;
  }

  // ---- Clones ----

  /** A copy the master has ordered. */
  lemma {:induction false} CloneScheduled(c: State, source: Addr, target: Addr, h: Handle, version: int,
                                          push: CS.Outcome, commit: CS.Outcome) returns (acts: seq<Act>)
    requires CopyMsg(source, h, target, version) in c.sent && source in c.servers
    ensures Leads(c, acts, CS.Clone(c.servers, source, target, h, version, push, commit).0)
  {
    var data, w := CS.FileOf(c.servers[source].files, h), CS.CloneHead(h, version);
    acts := Delivered(c, CopyMsg(source, h, target, version));
    var c1 := After(c, acts);
    assert c1.servers == c.servers;
    if data == [] || !CS.Reaches(c.servers, target, push) { return; }
    assert PushMsg(target, w, data, []) in c1.sent && CommitMsg(target, w, []) in c1.sent;
    var pushes := Delivered(c1, PushMsg(target, w, data, []));
    var net1 := c.servers[target := CS.PushLocal(c.servers[target], w, data)];
    LeadsOn(c, acts, c.servers, pushes, net1);
    Join(c, acts, pushes);
    acts := acts + pushes;
    if !push.Delivered? || !CS.Reaches(net1, target, commit) { return; }
    var commits := Delivered(After(c, acts), CommitMsg(target, w, []));
    LeadsOn(c, acts, net1, commits, CS.Clone(c.servers, source, target, h, version, push, commit).0);
    acts := acts + commits;
  }
}
