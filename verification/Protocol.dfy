/** The session manager as a transition system: many sessions, one worker each, bounded queues, idle
    eviction and restore. A step is one channel operation, one locked section, one store access or the
    handling of one event; every interleaving of steps is a run. Store calls succeed. */
module Protocol {
  import opened Collections
  import opened Domain
  import opened StateTree
  import opened GrownTrees
  import opened Worker
  import opened SessionRuns

  type SID = string

  /** A worker handles events until it finds its session idle; then it takes a last snapshot, and only
      after that removes the session and stops. */
  datatype Phase = Running | Leaving | Stopped

  /** A session object and its worker. `accepted` and `handled` are histories. */
  datatype Instance = Instance(sid: SID, s: Session, queue: seq<Event>, accepted: seq<Event>, handled: seq<Event>,
                               phase: Phase)

  /** What the database holds about a session. */
  datatype Durable = Durable(snapshot: Option<Nodes>, records: Nodes)

  /** `sessions` is the manager's table, by index into `instances`. `log` is the history of all events
      handled for a session, `retired` what a session was when it was last removed. */
  datatype World = World(sessions: map<SID, nat>, instances: seq<Instance>, store: map<SID, Durable>,
                         log: map<SID, seq<Event>>, retired: map<SID, Session>)

  const INITIAL := World(map[], [], map[], map[], map[])

  function StoreAt(w: World, sid: SID): Durable { if sid in w.store then w.store[sid] else Durable(None, map[]) }

  function LogAt(w: World, sid: SID): seq<Event> { if sid in w.log then w.log[sid] else [] }

  // ---------------------------------------------------------------- steps

  datatype Step =
    | Open(sid: SID, s: Session)         // GetOrCreate; `s` is the session it builds if there is none
    | Send(i: nat, ev: Event)            // a send on the channel of a session object looked up earlier
    | Handle(i: nat, input: Input)       // the worker takes an event and processes it
    | TakeSnapshot(i: nat)               // on a tick
    | LastSnapshot(i: nat)               // on finding the session idle
    | Remove(i: nat)                     // the locked delete, and the end of the worker

  /** A session built from the store: restored from the snapshot if there is one with nodes in it. */
  ghost predicate IsOpened(env: Env, d: Durable, sid: SID, s: Session) {
    && s == Session(s.tree, Rebuilt(env.dim, LoadActive(d.records)), Rebuilt(env.dim, LoadArchived(d.records)),
                    [], 0, 0, 0, 0, 0)
    && if d.snapshot.Some? && |d.snapshot.value| > 0
       then IsRestored(s.tree, sid, d.snapshot.value)
       else s.tree == NewTreeState(sid)
  }

  function Opened(w: World, sid: SID, s: Session): World {
    w.(instances := w.instances + [Instance(sid, s, [], [], [], Running)], sessions := w.sessions[sid := |w.instances|])
  }

  function Sent(inst: Instance, ev: Event): Instance {
    inst.(queue := inst.queue + [ev], accepted := inst.accepted + [ev])
  }

  /** The head of the queue has been processed, with this configuration as the result. */
  function Handled(w: World, i: nat, c: Config): World
    requires i < |w.instances| && w.instances[i].queue != []
  {
    var inst := w.instances[i];
    var ev := inst.queue[0];
    w.(instances := w.instances[i := inst.(s := c.s, queue := inst.queue[1..], handled := inst.handled + [ev])],
       store := w.store[inst.sid := StoreAt(w, inst.sid).(records := c.db)],
       log := w.log[inst.sid := LogAt(w, inst.sid) + [ev]])
  }

  function ConfigOf(w: World, i: nat): Config
    requires i < |w.instances|
  {
    Config(w.instances[i].s, StoreAt(w, w.instances[i].sid).records)
  }

  function Snapped(w: World, i: nat, phase: Phase): World
    requires i < |w.instances|
  {
    var inst := w.instances[i];
    w.(instances := w.instances[i := inst.(phase := phase)],
       store := w.store[inst.sid := Durable(Some(inst.s.tree.nodes), StoreAt(w, inst.sid).records + inst.s.tree.nodes)])
  }

  function Removed(w: World, i: nat): World
    requires i < |w.instances|
  {
    var inst := w.instances[i];
    w.(instances := w.instances[i := inst.(phase := Stopped)], sessions := w.sessions - {inst.sid},
       retired := w.retired[inst.sid := inst.s])
  }

  ghost predicate InPhase(w: World, i: nat, phase: Phase) {
    i < |w.instances| && w.instances[i].phase == phase
  }

  /** One step. `cap` is the capacity of the queues; a send to a full queue drops the event. */
  ghost predicate Transition(env: Env, cap: nat, w: World, step: Step, w': World) {
    match step
    case Open(sid, s) =>
      if sid in w.sessions then w' == w
      else IsOpened(env, StoreAt(w, sid), sid, s) && w' == Opened(w, sid, s)
    case Send(i, ev) =>
      i < |w.instances|
      && w' == if |w.instances[i].queue| < cap then w.(instances := w.instances[i := Sent(w.instances[i], ev)]) else w
    case Handle(i, input) =>
      InPhase(w, i, Running) && w.instances[i].queue != [] && input.ev == w.instances[i].queue[0]
      && Allowed(env, w.instances[i].s, input) && w' == Handled(w, i, Process(env, ConfigOf(w, i), input))
    case TakeSnapshot(i) => InPhase(w, i, Running) && w' == Snapped(w, i, Running)
    case LastSnapshot(i) => InPhase(w, i, Running) && w' == Snapped(w, i, Leaving)
    case Remove(i) => InPhase(w, i, Leaving) && w' == Removed(w, i)
  }

  /** `ws` are the worlds before, between and after the steps. */
  ghost predicate IsRun(env: Env, cap: nat, ws: seq<World>, steps: seq<Step>) {
    |ws| == |steps| + 1 && ws[0] == INITIAL && forall k :: 0 <= k < |steps| ==> TransitionAt(env, cap, ws, steps, k)
  }

  ghost predicate TransitionAt(env: Env, cap: nat, ws: seq<World>, steps: seq<Step>, k: nat)
    requires |ws| == |steps| + 1 && k < |steps|
  {
    Transition(env, cap, ws[k], steps[k], ws[k + 1])
  }

  // ---------------------------------------------------------------- the invariant of one session

  /** The node of the latest turn is in the tree. */
  predicate AtTurn(st: TreeState, sid: SID, turns: nat) {
    st.session == sid && st.turns == turns && (turns == 0 || EventNodeID(sid, turns) in st.nodes)
  }

  ghost predicate Healthy(env: Env, sid: SID, s: Session, records: Nodes, turns: nat) {
    Inv(env, Config(s, records)) && AtTurn(s.tree, sid, turns)
  }

  lemma NewIsHealthy(env: Env, sid: SID, s: Session)
    requires IsOpened(env, Durable(None, map[]), sid, s)
    ensures Healthy(env, sid, s, map[], 0)
  {
    NewSessionHasInv(env, sid);
    assert LoadActive(map[]) == map[] && LoadArchived(map[]) == map[];
    assert Rebuilt(env.dim, map[]) == map[];
    assert s == NewSession(sid).s;
  }

  lemma LaterTurn(st: TreeState, s: Session, sid: SID, turns: nat)
    requires AtTurn(s.tree, sid, turns) && st.session == s.tree.session && st.turns == s.tree.turns + 1
    requires st.nodes.Keys == s.tree.nodes.Keys + {NewID(s)}
    ensures AtTurn(st, sid, turns + 1)
  {
    assert NewID(s) in st.nodes.Keys;
  }

  lemma ProcessAdvances(env: Env, c: Config, i: Input)
    ensures Process(env, c, i).s.tree.session == c.s.tree.session
    ensures Process(env, c, i).s.tree.turns == c.s.tree.turns + 1
  {
  }

  lemma HandleIsAtTurn(env: Env, c: Config, sid: SID, turns: nat, i: Input)
    requires Inv(env, c) && Allowed(env, c.s, i) && AtTurn(c.s.tree, sid, turns)
    ensures AtTurn(Process(env, c, i).s.tree, sid, turns + 1)
  {
    ProcessAdvances(env, c, i);
    ProcessedNodes(env, c, i);
    LaterTurn(Process(env, c, i).s.tree, c.s, sid, turns);
  }

  lemma HandleKeepsHealthy(env: Env, sid: SID, s: Session, records: Nodes, turns: nat, input: Input)
    requires Healthy(env, sid, s, records, turns) && Allowed(env, s, input)
    ensures var c := Process(env, Config(s, records), input); Healthy(env, sid, c.s, c.db, turns + 1)
  {
    var c := Config(s, records);
    ProcessKeepsInv(env, c, input);
    HandleIsAtTurn(env, c, sid, turns, input);
    var c' := Process(env, c, input);
    assert Config(c'.s, c'.db) == c';
  }

  lemma WritingAllMatches(nodes: Nodes, records: Nodes)
    requires RecordsMatch(nodes, records)
    ensures RecordsMatch(nodes, records + nodes)
  {
  }

  lemma SnapshotKeepsHealthy(env: Env, sid: SID, s: Session, records: Nodes, turns: nat)
    requires Healthy(env, sid, s, records, turns)
    ensures Healthy(env, sid, s, records + s.tree.nodes, turns)
  {
    WritingAllMatches(s.tree.nodes, records);
  }

  /** Restoring gives back the nodes, both indices and the turn count. */
  lemma RestoreIsHealthy(env: Env, sid: SID, before: Session, records: Nodes, turns: nat, s: Session)
    requires Healthy(env, sid, before, records, turns)
    requires IsOpened(env, Durable(Some(before.tree.nodes), records), sid, s)
    ensures Healthy(env, sid, s, records, turns)
    ensures s.tree.nodes == before.tree.nodes && s.active == before.active && s.archive == before.archive
  {
    HasNodes(before.tree);
    RestoredIsGrown(s.tree, before.tree);
    RecordsRebuildIndices(env, Config(before, records));
    RestoredTurns(s.tree, before.tree, sid, turns);
  }

  lemma HasNodes(st: TreeState)
    requires Grown(st)
    ensures |st.nodes| > 0
  {
    assert st.root in st.nodes;
  }

  lemma RestoredTurns(st: TreeState, before: TreeState, sid: SID, turns: nat)
    requires Grown(before) && AtTurn(before, sid, turns) && IsRestored(st, sid, before.nodes)
      && st.turns <= before.turns
    ensures AtTurn(st, sid, turns)
  {
    if turns > 0 {
      assert GrownNode(before, before.nodes[EventNodeID(sid, turns)]);
      assert GoodNode(before.nodes, before.turns, EventNodeID(sid, turns));
    }
  }

  // ---------------------------------------------------------------- the invariant of the world

  /** A session object whose worker has not stopped. */
  ghost predicate LiveOk(env: Env, w: World, i: nat, inst: Instance) {
    var d := StoreAt(w, inst.sid);
    && inst.sid in w.sessions && w.sessions[inst.sid] == i
    && Healthy(env, inst.sid, inst.s, d.records, |LogAt(w, inst.sid)|)
    && (inst.phase == Leaving ==> d.snapshot == Some(inst.s.tree.nodes))
  }

  ghost predicate QueueOk(cap: nat, inst: Instance) {
    inst.accepted == inst.handled + inst.queue && |inst.queue| <= cap
  }

  ghost predicate InstanceOk(env: Env, cap: nat, w: World, i: nat)
    requires i < |w.instances|
  {
    QueueOk(cap, w.instances[i]) && (w.instances[i].phase != Stopped ==> LiveOk(env, w, i, w.instances[i]))
  }

  /** The table leads to session objects that are at work. */
  ghost predicate TableOk(w: World, sid: SID) {
    sid in w.sessions ==>
      w.sessions[sid] < |w.instances| && w.instances[w.sessions[sid]].sid == sid
      && w.instances[w.sessions[sid]].phase != Stopped
  }

  /** A session that is not in the table can be restored from the store, or is unknown to it. */
  ghost predicate RestingOk(env: Env, w: World, sid: SID) {
    sid !in w.sessions ==>
      if sid in w.retired then
        Healthy(env, sid, w.retired[sid], StoreAt(w, sid).records, |LogAt(w, sid)|)
        && StoreAt(w, sid).snapshot == Some(w.retired[sid].tree.nodes)
      else StoreAt(w, sid) == Durable(None, map[]) && LogAt(w, sid) == []
  }

  ghost predicate WorldInv(env: Env, cap: nat, w: World) {
    && (forall i :: 0 <= i < |w.instances| ==> InstanceOk(env, cap, w, i))
    && (forall sid :: TableOk(w, sid)) && (forall sid :: RestingOk(env, w, sid))
  }

  lemma InitialInv(env: Env, cap: nat)
    ensures WorldInv(env, cap, INITIAL)
  {
  }

  /** An entry of the world that only depends on parts that did not change. */
  lemma LiveCarries(env: Env, w: World, w': World, i: nat, inst: Instance)
    requires LiveOk(env, w, i, inst) && inst.sid in w'.sessions && w'.sessions[inst.sid] == i
    requires StoreAt(w', inst.sid) == StoreAt(w, inst.sid) && LogAt(w', inst.sid) == LogAt(w, inst.sid)
    ensures LiveOk(env, w', i, inst)
  {
  }

  /** The session object at work and its entries in the store and the log fit together. */
  lemma WorkingIsLive(env: Env, w: World, i: nat, inst: Instance, records: Nodes, turns: nat)
    requires inst.sid in w.sessions && w.sessions[inst.sid] == i && Healthy(env, inst.sid, inst.s, records, turns)
    requires StoreAt(w, inst.sid).records == records && |LogAt(w, inst.sid)| == turns
    requires inst.phase == Leaving ==> StoreAt(w, inst.sid).snapshot == Some(inst.s.tree.nodes)
    ensures LiveOk(env, w, i, inst)
  {
  }

  /** Two workers that have not stopped never serve the same session. */
  lemma OneWorker(env: Env, cap: nat, w: World, i: nat, j: nat)
    requires WorldInv(env, cap, w) && i < |w.instances| && j < |w.instances|
    requires w.instances[i].phase != Stopped && w.instances[j].phase != Stopped
      && w.instances[i].sid == w.instances[j].sid
    ensures i == j
  {
    assert InstanceOk(env, cap, w, i) && InstanceOk(env, cap, w, j);
  }

  lemma OpenedIsHealthy(env: Env, cap: nat, w: World, sid: SID, s: Session)
    requires WorldInv(env, cap, w) && sid !in w.sessions && IsOpened(env, StoreAt(w, sid), sid, s)
    ensures Healthy(env, sid, s, StoreAt(w, sid).records, |LogAt(w, sid)|)
    ensures sid in w.retired ==>
      s.tree.nodes == w.retired[sid].tree.nodes && s.active == w.retired[sid].active
      && s.archive == w.retired[sid].archive
  {
    assert RestingOk(env, w, sid);
    if sid in w.retired {
      RestoreIsHealthy(env, sid, w.retired[sid], StoreAt(w, sid).records, |LogAt(w, sid)|, s);
    } else {
      NewIsHealthy(env, sid, s);
    }
  }

  lemma OpenKeepsInstance(env: Env, cap: nat, w: World, sid: SID, s: Session, i: nat)
    requires WorldInv(env, cap, w) && sid !in w.sessions && IsOpened(env, StoreAt(w, sid), sid, s)
    requires i < |Opened(w, sid, s).instances|
    ensures InstanceOk(env, cap, Opened(w, sid, s), i)
  {
    var w' := Opened(w, sid, s);
    if i < |w.instances| {
      assert InstanceOk(env, cap, w, i) && w'.instances[i] == w.instances[i];
      if w.instances[i].phase != Stopped {
        LiveCarries(env, w, w', i, w.instances[i]);
      }
    } else {
      OpenedIsHealthy(env, cap, w, sid, s);
      WorkingIsLive(env, w', i, w'.instances[i], StoreAt(w, sid).records, |LogAt(w, sid)|);
    }
  }

  lemma OpenKeepsInv(env: Env, cap: nat, w: World, sid: SID, s: Session)
    requires WorldInv(env, cap, w) && sid !in w.sessions && IsOpened(env, StoreAt(w, sid), sid, s)
    ensures WorldInv(env, cap, Opened(w, sid, s))
  {
    var w' := Opened(w, sid, s);
    forall i | 0 <= i < |w'.instances| ensures InstanceOk(env, cap, w', i) {
      OpenKeepsInstance(env, cap, w, sid, s, i);
    }
    forall t ensures TableOk(w', t) && RestingOk(env, w', t) {
      assert TableOk(w, t) && RestingOk(env, w, t);
    }
  }

  /** A step that changes the queue, the history or the phase of one session object only. */
  lemma SendKeepsInv(env: Env, cap: nat, w: World, i: nat, ev: Event)
    requires WorldInv(env, cap, w) && i < |w.instances| && |w.instances[i].queue| < cap
    ensures WorldInv(env, cap, w.(instances := w.instances[i := Sent(w.instances[i], ev)]))
  {
    var w' := w.(instances := w.instances[i := Sent(w.instances[i], ev)]);
    forall k | 0 <= k < |w'.instances| ensures InstanceOk(env, cap, w', k) {
      assert InstanceOk(env, cap, w, k);
      if w.instances[k].phase != Stopped {
        LiveCarries(env, w, w', k, w.instances[k]);
      }
      if k == i {
        SentIsOk(env, cap, w', i, w.instances[i], ev);
      }
    }
    forall t ensures TableOk(w', t) && RestingOk(env, w', t) {
      assert TableOk(w, t) && RestingOk(env, w, t);
    }
  }

  lemma SentIsOk(env: Env, cap: nat, w: World, i: nat, inst: Instance, ev: Event)
    requires QueueOk(cap, inst) && |inst.queue| < cap
    ensures QueueOk(cap, Sent(inst, ev))
    ensures LiveOk(env, w, i, inst) ==> LiveOk(env, w, i, Sent(inst, ev))
  {
  }

  /** What a step of worker `i` may do: change its own session object and what is stored and logged for
      its session, nothing else. */
  ghost predicate OwnStep(w: World, i: nat, w': World) {
    i < |w.instances| == |w'.instances| && w'.sessions == w.sessions && w'.retired == w.retired
    && w'.instances[i].sid == w.instances[i].sid && w'.instances[i].phase != Stopped
    && (forall k :: 0 <= k < |w.instances| && k != i ==> w'.instances[k] == w.instances[k])
    && (forall t :: t != w.instances[i].sid ==> StoreAt(w', t) == StoreAt(w, t) && LogAt(w', t) == LogAt(w, t))
  }

  lemma OwnStepKeepsInv(env: Env, cap: nat, w: World, i: nat, w': World)
    requires WorldInv(env, cap, w) && OwnStep(w, i, w') && w.instances[i].phase != Stopped
    requires QueueOk(cap, w'.instances[i]) && LiveOk(env, w', i, w'.instances[i])
    ensures WorldInv(env, cap, w')
  {
    var sid := w.instances[i].sid;
    assert InstanceOk(env, cap, w, i);
    forall k | 0 <= k < |w'.instances| ensures InstanceOk(env, cap, w', k) {
      assert InstanceOk(env, cap, w, k);
      if k != i && w.instances[k].phase != Stopped {
        assert w.instances[k].sid != sid;
        LiveCarries(env, w, w', k, w.instances[k]);
      }
    }
    forall t ensures TableOk(w', t) && RestingOk(env, w', t) {
      assert TableOk(w, t) && RestingOk(env, w, t);
    }
  }

  lemma HandleKeepsInv(env: Env, cap: nat, w: World, i: nat, input: Input)
    requires WorldInv(env, cap, w) && InPhase(w, i, Running) && w.instances[i].queue != []
    requires input.ev == w.instances[i].queue[0] && Allowed(env, w.instances[i].s, input)
    ensures WorldInv(env, cap, Handled(w, i, Process(env, ConfigOf(w, i), input)))
  {
    assert InstanceOk(env, cap, w, i);
    var inst := w.instances[i];
    HandleKeepsHealthy(env, inst.sid, inst.s, StoreAt(w, inst.sid).records, |LogAt(w, inst.sid)|, input);
    HandledKeepsInv(env, cap, w, i, Process(env, ConfigOf(w, i), input));
  }

  lemma HandledEffect(cap: nat, w: World, i: nat, c: Config)
    requires InPhase(w, i, Running) && w.instances[i].queue != [] && QueueOk(cap, w.instances[i])
    ensures var w', sid := Handled(w, i, c), w.instances[i].sid;
      && OwnStep(w, i, w') && QueueOk(cap, w'.instances[i])
      && w'.instances[i].s == c.s && w'.instances[i].phase == Running
      && StoreAt(w', sid).records == c.db && |LogAt(w', sid)| == |LogAt(w, sid)| + 1
  {
    var queue := w.instances[i].queue;
    assert queue == [queue[0]] + queue[1..];
  }

  lemma HandledKeepsInv(env: Env, cap: nat, w: World, i: nat, c: Config)
    requires WorldInv(env, cap, w) && InPhase(w, i, Running) && w.instances[i].queue != []
    requires Healthy(env, w.instances[i].sid, c.s, c.db, |LogAt(w, w.instances[i].sid)| + 1)
    ensures WorldInv(env, cap, Handled(w, i, c))
  {
    assert InstanceOk(env, cap, w, i);
    HandledEffect(cap, w, i, c);
    var w' := Handled(w, i, c);
    WorkingIsLive(env, w', i, w'.instances[i], c.db, |LogAt(w, w.instances[i].sid)| + 1);
    OwnStepKeepsInv(env, cap, w, i, w');
  }

  lemma SnappedEffect(cap: nat, w: World, i: nat, phase: Phase)
    requires InPhase(w, i, Running) && phase != Stopped && QueueOk(cap, w.instances[i])
    ensures var w', inst := Snapped(w, i, phase), w.instances[i];
      && OwnStep(w, i, w') && QueueOk(cap, w'.instances[i]) && w'.instances[i] == inst.(phase := phase)
      && StoreAt(w', inst.sid) == Durable(Some(inst.s.tree.nodes), StoreAt(w, inst.sid).records + inst.s.tree.nodes)
      && LogAt(w', inst.sid) == LogAt(w, inst.sid)
  {
  }

  lemma SnapKeepsInv(env: Env, cap: nat, w: World, i: nat, phase: Phase)
    requires WorldInv(env, cap, w) && InPhase(w, i, Running) && phase != Stopped
    ensures WorldInv(env, cap, Snapped(w, i, phase))
  {
    var inst, w' := w.instances[i], Snapped(w, i, phase);
    assert InstanceOk(env, cap, w, i);
    SnapshotKeepsHealthy(env, inst.sid, inst.s, StoreAt(w, inst.sid).records, |LogAt(w, inst.sid)|);
    SnappedEffect(cap, w, i, phase);
    WorkingIsLive(env, w', i, w'.instances[i], StoreAt(w', inst.sid).records, |LogAt(w, inst.sid)|);
    OwnStepKeepsInv(env, cap, w, i, w');
  }

  lemma RemoveKeepsInstance(env: Env, cap: nat, w: World, i: nat, k: nat)
    requires WorldInv(env, cap, w) && InPhase(w, i, Leaving) && k < |w.instances|
    ensures InstanceOk(env, cap, Removed(w, i), k)
  {
    assert InstanceOk(env, cap, w, i) && InstanceOk(env, cap, w, k);
    if k != i && w.instances[k].phase != Stopped {
      LiveCarries(env, w, Removed(w, i), k, w.instances[k]);
    }
  }

  lemma RemovedTable(w: World, i: nat, t: SID)
    requires i < |w.instances| && TableOk(w, t)
    ensures TableOk(Removed(w, i), t)
  {
  }

  lemma RemovedResting(env: Env, w: World, i: nat, t: SID)
    requires InPhase(w, i, Leaving) && LiveOk(env, w, i, w.instances[i]) && RestingOk(env, w, t)
    ensures RestingOk(env, Removed(w, i), t)
  {
  }

  lemma RemoveKeepsEntries(env: Env, cap: nat, w: World, i: nat, t: SID)
    requires WorldInv(env, cap, w) && InPhase(w, i, Leaving)
    ensures TableOk(Removed(w, i), t) && RestingOk(env, Removed(w, i), t)
  {
    assert InstanceOk(env, cap, w, i) && TableOk(w, t) && RestingOk(env, w, t);
    RemovedTable(w, i, t);
    RemovedResting(env, w, i, t);
  }

  lemma RemoveKeepsInv(env: Env, cap: nat, w: World, i: nat)
    requires WorldInv(env, cap, w) && InPhase(w, i, Leaving)
    ensures WorldInv(env, cap, Removed(w, i))
  {
    forall k | 0 <= k < |Removed(w, i).instances| ensures InstanceOk(env, cap, Removed(w, i), k) {
      RemoveKeepsInstance(env, cap, w, i, k);
    }
    forall t ensures TableOk(Removed(w, i), t) && RestingOk(env, Removed(w, i), t) {
      RemoveKeepsEntries(env, cap, w, i, t);
    }
  }

  /** Every step of every interleaving keeps the invariant. */
  lemma NextKeepsInv(env: Env, cap: nat, w: World, step: Step, w': World)
    requires WorldInv(env, cap, w) && Transition(env, cap, w, step, w')
    ensures WorldInv(env, cap, w')
  {
    match step
    case Open(sid, s) => if sid !in w.sessions { OpenKeepsInv(env, cap, w, sid, s); }
    case Send(i, ev) => if |w.instances[i].queue| < cap { SendKeepsInv(env, cap, w, i, ev); }
    case Handle(i, input) => HandleKeepsInv(env, cap, w, i, input);
    case TakeSnapshot(i) => SnapKeepsInv(env, cap, w, i, Running);
    case LastSnapshot(i) => SnapKeepsInv(env, cap, w, i, Leaving);
    case Remove(i) => RemoveKeepsInv(env, cap, w, i);
  }

  lemma {:induction false} WorldInvAlways(env: Env, cap: nat, ws: seq<World>, steps: seq<Step>, k: nat)
    requires IsRun(env, cap, ws, steps) && k < |ws|
    ensures WorldInv(env, cap, ws[k])
  {
    if k == 0 {
      InitialInv(env, cap);
    } else {
      WorldInvAlways(env, cap, ws, steps, k - 1);
      assert TransitionAt(env, cap, ws, steps, k - 1);
      NextKeepsInv(env, cap, ws[k - 1], steps[k - 1], ws[k]);
    }
  }
}
