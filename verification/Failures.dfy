/** When the master takes a chunkserver for dead, and what it does then. */
module Failures {
  import opened Locations
  import opened Seqs
  import opened Wrappers
  import opened MasterState
  import opened MasterRuns
  import opened FanOut

  /** The time of the server's last heartbeat since it was last declared dead. */
  function LastHeard(es: seq<Event>, a: Addr): Option<Time>
    decreases |es|
  {
    if es == [] then None
    else if Last(es).op.Beat? && Last(es).op.server == a then Some(Last(es).now)
    else if Last(es).op.Die? && Last(es).op.server == a then None
    else LastHeard(Init(es), a)
  }

  lemma {:induction false} BeatAllSeen(m: Master, cs: Addr, reports: seq<Report>)
    ensures BeatAll(m, cs, reports).lastSeen == m.lastSeen
    decreases |reports|
  {
    if reports != [] { BeatAllSeen(m, cs, reports[..|reports| - 1]); }
  }

  lemma StepSeen(m: Master, e: Event)
    requires Enabled(m, e)
    ensures Apply(m, e).lastSeen ==
      match e.op
      case Beat(server, _) => m.lastSeen[server := e.now]
      case Die(server) => m.lastSeen - {server}
      case _ => m.lastSeen
  {
    match e.op
    case Beat(server, reports) => BeatAllSeen(m.(lastSeen := m.lastSeen[server := e.now]), server, reports);
    case Locate(_, _, _, _) => var m1, h := LocateApplied(m, e);
    case _ =>
  }

  /** In every run the servers the master counts as live are those heard of since they were
      last declared dead. */
  lemma {:induction false} LiveIff(w: World, es: seq<Event>, a: Addr)
    requires Fresh(w) && Legal(w, es)
    ensures var seen := Exec(w, es).master.lastSeen;
      && (a in seen <==> LastHeard(es, a).Some?)
      && (a in seen ==> seen[a] == LastHeard(es, a).value)
    decreases |es|
  {
    if es != [] {
      LiveIff(w, Init(es), a);
      StepSeen(Exec(w, Init(es)).master, Last(es));
    }
  }

  /** A server can be declared dead exactly when it was heard of, and last more than fifteen
      seconds ago. */
  lemma {:induction false} DeathIff(w: World, es: seq<Event>, a: Addr, now: Time)
    requires Fresh(w) && Legal(w, es) && Exec(w, es).clock <= now
    ensures CanStep(Exec(w, es), Event(now, Die(a))) <==>
      LastHeard(es, a).Some? && now - LastHeard(es, a).value > 15
  {
    LiveIff(w, es, a);
  }

  /** A dead server leaves the replica lists and nothing else: the others stay, it is not
      struck from the stale lists, and it may still be named as primary. Each chunk with
      fewer than three replicas left gets one more request, of the high priority. */
  lemma {:induction false} DeathLeaves(w: World, es: seq<Event>, e: Event, h: Handle, a: Addr)
    requires Fresh(w) && Legal(w, es) && CanStep(Exec(w, es), e) && e.op.Die? && h in Exec(w, es).master.store.chunkMap
    ensures var m, n := Exec(w, es).master, Apply(Exec(w, es).master, e);
      && n.store.chunkMap.Keys == m.store.chunkMap.Keys
      && var c, d := m.store.chunkMap[h], n.store.chunkMap[h];
      && (a in d.replicas <==> a in c.replicas && a != e.op.server)
      && d == c.(replicas := d.replicas)
      && n.repairs == m.repairs && n.store == m.store.(chunkMap := n.store.chunkMap)
      && n.jobs[Job(0, h)] == m.jobs[Job(0, h)] + (if |d.replicas| < 3 then 1 else 0)
      && n.jobs[Job(1, h)] == m.jobs[Job(1, h)]
  {
    var m := Exec(w, es).master;
    ListsStayDistinct(w, es);
    RemoveFirstMembers(m.store.chunkMap[h].replicas, e.op.server);
    var under := UnderReplicated(Apply(m, e).store.chunkMap);
    assert Job(0, h) in JobsFor(under) <==> h in under;
    assert Job(1, h) !in JobsFor(under);
  }
}
