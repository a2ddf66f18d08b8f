/** What holds in every state of every run of the session manager, across evictions and restores. */
module ProtocolRuns {
  import opened Collections
  import opened Domain
  import opened GarbageCollector
  import opened GrownTrees
  import opened Worker
  import opened SessionRuns
  import opened Protocol

  // ---------------------------------------------------------------- one writer, events in order

  /** At most one worker writes for a session, and it is the one the table leads to. */
  lemma OneWriter(env: Env, cap: nat, ws: seq<World>, steps: seq<Step>, k: nat, i: nat)
    requires IsRun(env, cap, ws, steps) && k < |ws| && i < |ws[k].instances| && ws[k].instances[i].phase != Stopped
    ensures ws[k].instances[i].sid in ws[k].sessions && ws[k].sessions[ws[k].instances[i].sid] == i
    ensures forall j :: (0 <= j < |ws[k].instances| && j != i && ws[k].instances[j].sid == ws[k].instances[i].sid
                         ==> ws[k].instances[j].phase == Stopped)
  {
    WorldInvAlways(env, cap, ws, steps, k);
    assert InstanceOk(env, cap, ws[k], i);
    forall j | 0 <= j < |ws[k].instances| && j != i && ws[k].instances[j].sid == ws[k].instances[i].sid
      ensures ws[k].instances[j].phase == Stopped
    {
      if ws[k].instances[j].phase != Stopped {
        OneWorker(env, cap, ws[k], i, j);
      }
    }
  }

  /** The events a worker has handled are the first ones its session object accepted, in order; the
      rest is still queued, within the capacity. */
  lemma HandledInOrder(env: Env, cap: nat, ws: seq<World>, steps: seq<Step>, k: nat, i: nat)
    requires IsRun(env, cap, ws, steps) && k < |ws| && i < |ws[k].instances|
    ensures var inst := ws[k].instances[i];
      inst.handled <= inst.accepted && inst.queue == inst.accepted[|inst.handled|..] && |inst.queue| <= cap
  {
    WorldInvAlways(env, cap, ws, steps, k);
    assert InstanceOk(env, cap, ws[k], i);
  }

  /** The sequence number the worker gives to the next event. */
  function NextSequence(w: World, i: nat): nat
    requires i < |w.instances|
  {
    w.instances[i].s.tree.turns + 1
  }

  lemma TurnsAreLogged(env: Env, cap: nat, w: World, i: nat)
    requires WorldInv(env, cap, w) && i < |w.instances| && w.instances[i].phase != Stopped
    ensures var sid := w.instances[i].sid;
      NextSequence(w, i) == |LogAt(w, sid)| + 1 && NewID(w.instances[i].s) == EventNodeID(sid, |LogAt(w, sid)| + 1)
  {
    assert InstanceOk(env, cap, w, i);
  }

  lemma HandledIsLogged(w: World, i: nat, c: Config)
    requires i < |w.instances| && w.instances[i].queue != []
    ensures var sid := w.instances[i].sid; LogAt(Handled(w, i, c), sid) == LogAt(w, sid) + [w.instances[i].queue[0]]
  {
  }

  lemma HandleIsLogged(env: Env, cap: nat, w: World, i: nat, input: Input, w': World)
    requires Transition(env, cap, w, Handle(i, input), w')
    ensures InPhase(w, i, Running) && LogAt(w', w.instances[i].sid) == LogAt(w, w.instances[i].sid) + [input.ev]
  {
    HandledIsLogged(w, i, Process(env, ConfigOf(w, i), input));
  }

  /** Sequence numbers are gap-free over the whole history of a session, evictions included: each event
      gets its position in the log. */
  lemma SequenceIsPosition(env: Env, cap: nat, ws: seq<World>, steps: seq<Step>, k: nat)
    requires IsRun(env, cap, ws, steps) && k < |steps| && steps[k].Handle?
    ensures var i := steps[k].i;
      InPhase(ws[k], i, Running)
      && var sid := ws[k].instances[i].sid;
         NextSequence(ws[k], i) == |LogAt(ws[k], sid)| + 1
         && NewID(ws[k].instances[i].s) == EventNodeID(sid, |LogAt(ws[k], sid)| + 1)
         && LogAt(ws[k + 1], sid) == LogAt(ws[k], sid) + [steps[k].input.ev]
  {
    WorldInvAlways(env, cap, ws, steps, k);
    assert TransitionAt(env, cap, ws, steps, k);
    HandleIsLogged(env, cap, ws[k], steps[k].i, steps[k].input, ws[k + 1]);
    TurnsAreLogged(env, cap, ws[k], steps[k].i);
  }

  // ---------------------------------------------------------------- fresh ids

  lemma NextKeepsLog(env: Env, cap: nat, w: World, step: Step, w': World, sid: SID)
    requires Transition(env, cap, w, step, w')
    ensures LogAt(w, sid) <= LogAt(w', sid)
  {
  }

  lemma {:induction false} LogGrows(env: Env, cap: nat, ws: seq<World>, steps: seq<Step>, j: nat, k: nat, sid: SID)
    requires IsRun(env, cap, ws, steps) && j <= k < |ws|
    ensures LogAt(ws[j], sid) <= LogAt(ws[k], sid)
  {
    if j < k {
      LogGrows(env, cap, ws, steps, j, k - 1, sid);
      assert TransitionAt(env, cap, ws, steps, k - 1);
      NextKeepsLog(env, cap, ws[k - 1], steps[k - 1], ws[k], sid);
    }
  }

  /** The id of the node that step `k` adds. */
  function Issued(ws: seq<World>, steps: seq<Step>, k: nat): NodeID
    requires k < |steps| && k < |ws| && steps[k].Handle? && steps[k].i < |ws[k].instances|
  {
    NewID(ws[k].instances[steps[k].i].s)
  }

  /** No node id is issued twice, whatever sessions are evicted and restored in between. */
  lemma IdsAreFresh(env: Env, cap: nat, ws: seq<World>, steps: seq<Step>, j: nat, k: nat)
    requires IsRun(env, cap, ws, steps) && j < k < |steps| && steps[j].Handle? && steps[k].Handle?
    ensures steps[j].i < |ws[j].instances| && steps[k].i < |ws[k].instances|
    ensures Issued(ws, steps, j) != Issued(ws, steps, k)
  {
    SequenceIsPosition(env, cap, ws, steps, j);
    SequenceIsPosition(env, cap, ws, steps, k);
    LogGrows(env, cap, ws, steps, j + 1, k, ws[j].instances[steps[j].i].sid);
  }

  // ---------------------------------------------------------------- nothing is lost on eviction

  /** The nodes of a session: of the object at work, or else as they were when it was last removed. */
  function NodesOf(w: World, sid: SID): Nodes {
    if sid in w.sessions && w.sessions[sid] < |w.instances| then w.instances[w.sessions[sid]].s.tree.nodes
    else if sid in w.retired then w.retired[sid].tree.nodes
    else map[]
  }

  /** A session that is created again has all nodes, and both indices, of its predecessor. */
  lemma ReopenedAsItWas(env: Env, cap: nat, ws: seq<World>, steps: seq<Step>, k: nat)
    requires IsRun(env, cap, ws, steps) && k < |steps| && steps[k].Open?
    requires steps[k].sid !in ws[k].sessions && steps[k].sid in ws[k].retired
    ensures steps[k].s.tree.nodes == ws[k].retired[steps[k].sid].tree.nodes
    ensures steps[k].s.active == ws[k].retired[steps[k].sid].active
    ensures steps[k].s.archive == ws[k].retired[steps[k].sid].archive
  {
    WorldInvAlways(env, cap, ws, steps, k);
    assert TransitionAt(env, cap, ws, steps, k);
    OpenedIsHealthy(env, cap, ws[k], steps[k].sid, steps[k].s);
  }

  lemma OpenedNodes(w: World, sid: SID, s: Session, t: SID)
    requires sid !in w.sessions && TableOk(w, t)
    ensures NodesOf(Opened(w, sid, s), t) == if t == sid then s.tree.nodes else NodesOf(w, t)
    ensures NodesOf(w, sid) == if sid in w.retired then w.retired[sid].tree.nodes else map[]
  {
  }

  lemma OpenAges(env: Env, cap: nat, w: World, sid: SID, s: Session, t: SID, id: NodeID)
    requires WorldInv(env, cap, w) && sid !in w.sessions && IsOpened(env, StoreAt(w, sid), sid, s)
    ensures Ages(NodesOf(w, t), NodesOf(Opened(w, sid, s), t), id)
  {
    OpenedIsHealthy(env, cap, w, sid, s);
    AgesTransitive(NodesOf(w, t), NodesOf(w, t), NodesOf(w, t), id);
    assert TableOk(w, t);
    OpenedNodes(w, sid, s, t);
  }

  lemma HandleAges(env: Env, cap: nat, w: World, i: nat, input: Input, t: SID, id: NodeID)
    requires WorldInv(env, cap, w) && InPhase(w, i, Running) && w.instances[i].queue != []
    requires Allowed(env, w.instances[i].s, input)
    ensures Ages(NodesOf(w, t), NodesOf(Handled(w, i, Process(env, ConfigOf(w, i), input)), t), id)
  {
    assert InstanceOk(env, cap, w, i) && TableOk(w, t);
    ProcessAges(env, ConfigOf(w, i), input, id);
    HandledNodes(w, i, Process(env, ConfigOf(w, i), input), t);
    AgesTransitive(NodesOf(w, t), NodesOf(w, t), NodesOf(w, t), id);
  }

  lemma HandledNodes(w: World, i: nat, c: Config, t: SID)
    requires i < |w.instances| && w.instances[i].queue != []
    requires w.instances[i].sid in w.sessions && w.sessions[w.instances[i].sid] == i
    requires TableOk(w, t)
    ensures NodesOf(Handled(w, i, c), t) == if t == w.instances[i].sid then c.s.tree.nodes else NodesOf(w, t)
    ensures NodesOf(w, w.instances[i].sid) == w.instances[i].s.tree.nodes
  {
  }

  lemma RemovedNodes(w: World, i: nat, t: SID)
    requires i < |w.instances| && w.instances[i].sid in w.sessions && w.sessions[w.instances[i].sid] == i
    requires TableOk(w, t)
    ensures NodesOf(Removed(w, i), t) == NodesOf(w, t)
  {
  }

  lemma RemoveKeepsNodes(env: Env, cap: nat, w: World, i: nat, t: SID)
    requires WorldInv(env, cap, w) && InPhase(w, i, Leaving)
    ensures NodesOf(Removed(w, i), t) == NodesOf(w, t)
  {
    assert InstanceOk(env, cap, w, i) && TableOk(w, t);
    RemovedNodes(w, i, t);
  }

  /** Sends and snapshots leave the nodes of all sessions alone. */
  lemma SentNodes(w: World, i: nat, ev: Event, t: SID)
    requires i < |w.instances|
    ensures NodesOf(w.(instances := w.instances[i := Sent(w.instances[i], ev)]), t) == NodesOf(w, t)
  {
  }

  lemma SnappedNodes(w: World, i: nat, phase: Phase, t: SID)
    requires i < |w.instances|
    ensures NodesOf(Snapped(w, i, phase), t) == NodesOf(w, t)
  {
  }

  /** No step loses a node or brings an archived one back to life. */
  lemma NextAges(env: Env, cap: nat, w: World, step: Step, w': World, t: SID, id: NodeID)
    requires WorldInv(env, cap, w) && Transition(env, cap, w, step, w')
    ensures Ages(NodesOf(w, t), NodesOf(w', t), id)
  {
    AgesTransitive(NodesOf(w, t), NodesOf(w, t), NodesOf(w, t), id);
    match step
    case Open(sid, s) => if sid !in w.sessions { OpenAges(env, cap, w, sid, s, t, id); }
    case Send(i, ev) => SentNodes(w, i, ev, t);
    case Handle(i, input) => HandleAges(env, cap, w, i, input, t, id);
    case TakeSnapshot(i) => SnappedNodes(w, i, Running, t);
    case LastSnapshot(i) => SnappedNodes(w, i, Leaving, t);
    case Remove(i) => RemoveKeepsNodes(env, cap, w, i, t);
  }

  /** Over whole runs nodes are never lost, and nothing about them changes but scores, child links, and
      a status that goes from active to archived at most, and for nodes with facts or decisions not even
      that. */
  lemma NodesSurvive(env: Env, cap: nat, ws: seq<World>, steps: seq<Step>, j: nat, k: nat, sid: SID, id: NodeID)
    requires IsRun(env, cap, ws, steps) && j <= k < |ws|
    ensures Ages(NodesOf(ws[j], sid), NodesOf(ws[k], sid), id)
  {
    var trees := seq(|ws|, i requires 0 <= i < |ws| => NodesOf(ws[i], sid));
    forall i | 0 <= i < |trees| - 1 ensures Ages(trees[i], trees[i + 1], id) {
      WorldInvAlways(env, cap, ws, steps, i);
      assert TransitionAt(env, cap, ws, steps, i);
      NextAges(env, cap, ws[i], steps[i], ws[i + 1], sid, id);
    }
    AgesAlong(trees, id, j, k);
  }

  /** Pinning holds across evictions too. */
  lemma PinnedAcrossRestores(env: Env, cap: nat, ws: seq<World>, steps: seq<Step>, j: nat, k: nat, sid: SID, id: NodeID)
    requires IsRun(env, cap, ws, steps) && j <= k < |ws|
    requires id in ActiveIds(NodesOf(ws[j], sid)) && Deferred(NodesOf(ws[j], sid)[id])
    ensures id in ActiveIds(NodesOf(ws[k], sid)) && Deferred(NodesOf(ws[k], sid)[id])
  {
    NodesSurvive(env, cap, ws, steps, j, k, sid, id);
  }

  lemma OpenKeepsPinned(env: Env, cap: nat, w: World, sid: SID, s: Session, t: SID)
    requires WorldInv(env, cap, w) && sid !in w.sessions && IsOpened(env, StoreAt(w, sid), sid, s)
    requires PinnedAreActive(NodesOf(w, t))
    ensures PinnedAreActive(NodesOf(Opened(w, sid, s), t))
  {
    OpenedIsHealthy(env, cap, w, sid, s);
    assert TableOk(w, t) && RestingOk(env, w, sid);
    OpenedNodes(w, sid, s, t);
  }

  lemma HandleKeepsPinned(env: Env, cap: nat, w: World, i: nat, input: Input, t: SID)
    requires WorldInv(env, cap, w) && InPhase(w, i, Running) && w.instances[i].queue != []
    requires Allowed(env, w.instances[i].s, input) && PinnedAreActive(NodesOf(w, t))
    ensures PinnedAreActive(NodesOf(Handled(w, i, Process(env, ConfigOf(w, i), input)), t))
  {
    assert InstanceOk(env, cap, w, i) && TableOk(w, t);
    HandledNodes(w, i, Process(env, ConfigOf(w, i), input), t);
    if t == w.instances[i].sid {
      ProcessKeepsPinnedActive(env, ConfigOf(w, i), input);
    }
  }

  lemma TransitionKeepsPinned(env: Env, cap: nat, w: World, step: Step, w': World, t: SID)
    requires WorldInv(env, cap, w) && Transition(env, cap, w, step, w') && PinnedAreActive(NodesOf(w, t))
    ensures PinnedAreActive(NodesOf(w', t))
  {
    match step
    case Open(sid, s) => if sid !in w.sessions { OpenKeepsPinned(env, cap, w, sid, s, t); }
    case Send(i, ev) => SentNodes(w, i, ev, t);
    case Handle(i, input) => HandleKeepsPinned(env, cap, w, i, input, t);
    case TakeSnapshot(i) => SnappedNodes(w, i, Running, t);
    case LastSnapshot(i) => SnappedNodes(w, i, Leaving, t);
    case Remove(i) => RemoveKeepsNodes(env, cap, w, i, t);
  }

  /** In every state of every run, every node of every session that holds a fact or a decision is active. */
  lemma {:induction false} PinnedActiveEverywhere(env: Env, cap: nat, ws: seq<World>, steps: seq<Step>, k: nat,
                                                  sid: SID)
    requires IsRun(env, cap, ws, steps) && k < |ws|
    ensures PinnedAreActive(NodesOf(ws[k], sid))
  {
    if k > 0 {
      PinnedActiveEverywhere(env, cap, ws, steps, k - 1, sid);
      WorldInvAlways(env, cap, ws, steps, k - 1);
      assert TransitionAt(env, cap, ws, steps, k - 1);
      TransitionKeepsPinned(env, cap, ws[k - 1], steps[k - 1], ws[k], sid);
    }
  }

  /** What is known about a session, at work or not. */
  lemma SessionIsHealthy(env: Env, cap: nat, w: World, sid: SID) returns (s: Session)
    requires WorldInv(env, cap, w) && (sid in w.sessions || sid in w.retired)
    ensures s.tree.nodes == NodesOf(w, sid) && Healthy(env, sid, s, StoreAt(w, sid).records, |LogAt(w, sid)|)
  {
    assert TableOk(w, sid) && RestingOk(env, w, sid);
    if sid in w.sessions {
      assert InstanceOk(env, cap, w, w.sessions[sid]);
      s := w.instances[w.sessions[sid]].s;
    } else {
      s := w.retired[sid];
    }
  }

  /** Across evictions and restores too, every node that has a parent is among its parent's children. */
  lemma LinkedEverywhere(env: Env, cap: nat, ws: seq<World>, steps: seq<Step>, k: nat, sid: SID, id: NodeID)
    requires IsRun(env, cap, ws, steps) && k < |ws| && id in NodesOf(ws[k], sid)
    ensures Linked(NodesOf(ws[k], sid), id)
  {
    WorldInvAlways(env, cap, ws, steps, k);
    var s := SessionIsHealthy(env, cap, ws[k], sid);
  }

  lemma LoggedIsKnown(env: Env, cap: nat, w: World, sid: SID)
    requires WorldInv(env, cap, w) && LogAt(w, sid) != []
    ensures sid in w.sessions || sid in w.retired
  {
    assert RestingOk(env, w, sid);
  }

  lemma LatestNodeIsThere(env: Env, cap: nat, w: World, sid: SID)
    requires WorldInv(env, cap, w) && LogAt(w, sid) != []
    ensures EventNodeID(sid, |LogAt(w, sid)|) in NodesOf(w, sid)
  {
    LoggedIsKnown(env, cap, w, sid);
    var s := SessionIsHealthy(env, cap, w, sid);
  }

  /** Every event ever handled for a session has its node there, at any later time. */
  lemma {:induction false} HandledEventsHaveNodes(env: Env, cap: nat, ws: seq<World>, steps: seq<Step>, k: nat,
                                                  sid: SID, turn: nat)
    requires IsRun(env, cap, ws, steps) && k < |ws| && 1 <= turn <= |LogAt(ws[k], sid)|
    ensures EventNodeID(sid, turn) in NodesOf(ws[k], sid)
  {
    WorldInvAlways(env, cap, ws, steps, k);
    if turn == |LogAt(ws[k], sid)| {
      LatestNodeIsThere(env, cap, ws[k], sid);
    } else if k > 0 {
      assert TransitionAt(env, cap, ws, steps, k - 1);
      LogGrowsByOne(env, cap, ws[k - 1], steps[k - 1], ws[k], sid);
      HandledEventsHaveNodes(env, cap, ws, steps, k - 1, sid, turn);
      NodesSurvive(env, cap, ws, steps, k - 1, k, sid, EventNodeID(sid, turn));
    }
  }

  lemma LogGrowsByOne(env: Env, cap: nat, w: World, step: Step, w': World, sid: SID)
    requires Transition(env, cap, w, step, w')
    ensures |LogAt(w', sid)| <= |LogAt(w, sid)| + 1
  {
  }

  // ---------------------------------------------------------------- what eviction can lose

  /** What no step changes about a stopped worker: it has handled what it has handled. */
  ghost predicate StaysStopped(w: World, w': World, i: nat) {
    InPhase(w, i, Stopped) ==>
      InPhase(w', i, Stopped) && w'.instances[i].handled == w.instances[i].handled
      && w.instances[i].accepted <= w'.instances[i].accepted
  }

  lemma SentStaysStopped(w: World, j: nat, ev: Event, i: nat)
    requires j < |w.instances|
    ensures StaysStopped(w, w.(instances := w.instances[j := Sent(w.instances[j], ev)]), i)
  {
  }

  lemma HandledStaysStopped(w: World, j: nat, c: Config, i: nat)
    requires InPhase(w, j, Running) && w.instances[j].queue != []
    ensures StaysStopped(w, Handled(w, j, c), i)
  {
  }

  lemma SnappedStaysStopped(w: World, j: nat, phase: Phase, i: nat)
    requires InPhase(w, j, Running)
    ensures StaysStopped(w, Snapped(w, j, phase), i)
  {
  }

  lemma NextKeepsStopped(env: Env, cap: nat, w: World, step: Step, w': World, i: nat)
    requires Transition(env, cap, w, step, w')
    ensures StaysStopped(w, w', i)
  {
    match step
    case Open(sid, s) =>
    case Send(j, ev) => SentStaysStopped(w, j, ev, i);
    case Handle(j, input) => HandledStaysStopped(w, j, Process(env, ConfigOf(w, j), input), i);
    case TakeSnapshot(j) => SnappedStaysStopped(w, j, Running, i);
    case LastSnapshot(j) => SnappedStaysStopped(w, j, Leaving, i);
    case Remove(j) =>
  }

  /** A stopped worker never handles anything again: what its object has in the queue, and what is sent
      to it later, is lost. So of the events accepted by then, all are handled exactly if the queue was
      empty at the removal. */
  lemma StoppedWorkersLoseTheirQueue(env: Env, cap: nat, ws: seq<World>, steps: seq<Step>, j: nat, k: nat, i: nat)
    requires IsRun(env, cap, ws, steps) && j <= k < |ws| && InPhase(ws[j], i, Stopped)
    ensures InPhase(ws[k], i, Stopped) && ws[j].instances[i].accepted <= ws[k].instances[i].accepted
    ensures ws[j].instances[i].accepted <= ws[k].instances[i].handled <==> ws[j].instances[i].queue == []
  {
    StoppedForGood(env, cap, ws, steps, j, k, i);
    WorldInvAlways(env, cap, ws, steps, j);
    assert InstanceOk(env, cap, ws[j], i);
  }

  lemma {:induction false} StoppedForGood(env: Env, cap: nat, ws: seq<World>, steps: seq<Step>, j: nat, k: nat, i: nat)
    requires IsRun(env, cap, ws, steps) && j <= k < |ws| && InPhase(ws[j], i, Stopped)
    ensures InPhase(ws[k], i, Stopped) && ws[k].instances[i].handled == ws[j].instances[i].handled
    ensures ws[j].instances[i].accepted <= ws[k].instances[i].accepted
  {
    if j < k {
      StoppedForGood(env, cap, ws, steps, j, k - 1, i);
      assert TransitionAt(env, cap, ws, steps, k - 1);
      NextKeepsStopped(env, cap, ws[k - 1], steps[k - 1], ws[k], i);
    }
  }

  // ---------------------------------------------------------------- a run that loses an event

  lemma FreshOpens(env: Env, sid: SID)
    ensures IsOpened(env, Durable(None, map[]), sid, NewSession(sid).s)
  {
    assert LoadActive(map[]) == map[] && LoadArchived(map[]) == map[];
    assert Rebuilt(env.dim, map[]) == map[];
  }

  /** A session is opened, accepts an event, finds itself idle before it takes the event, and stops. */
  lemma QueueCanBeLost(env: Env, cap: nat, sid: SID, ev: Event) returns (ws: seq<World>, steps: seq<Step>)
    requires cap >= 1
    ensures IsRun(env, cap, ws, steps) && |ws| == 5
    ensures InPhase(ws[4], 0, Stopped) && ws[4].instances[0].accepted == [ev] == ws[4].instances[0].queue
    ensures ws[4].instances[0].handled == [] && LogAt(ws[4], sid) == []
  {
    var s := NewSession(sid).s;
    FreshOpens(env, sid);
    var w1 := Opened(INITIAL, sid, s);
    var w2 := w1.(instances := w1.instances[0 := Sent(w1.instances[0], ev)]);
    var w3 := Snapped(w2, 0, Leaving);
    var w4 := Removed(w3, 0);
    ws, steps := [INITIAL, w1, w2, w3, w4], [Open(sid, s), Send(0, ev), LastSnapshot(0), Remove(0)];
    assert TransitionAt(env, cap, ws, steps, 0);
    assert TransitionAt(env, cap, ws, steps, 1);
    assert TransitionAt(env, cap, ws, steps, 2);
    assert TransitionAt(env, cap, ws, steps, 3);
  }
}
