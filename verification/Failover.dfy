/** Failover: once a tick has found a node dead, draining the key queue takes every claim
    with a living owner off it and moves no claim that sits on a live node. */
module Failover {
  import opened WorkQueue
  import opened QueueRuns
  import opened Cluster
  import opened ClaimNames
  import opened Soundness
  import opened Liveness

  // ----- The key queue -----

  /** The worker processes the one key it has taken. */
  ghost predicate KeysInOrder(w: World) {
    && Exclusive(w.keys) && !w.keys.closed
    && w.keys.processing == if w.stage.NoKey? then {} else {w.stage.key}
  }

  lemma AddKeepsKeysInOrder(w: World, key: string)
    requires KeysInOrder(w)
    ensures KeysInOrder(w.(keys := Added(w.keys, key)))
    ensures Added(w.keys, key).added == w.keys.added + {key}
  {
    StepKeepsOrder(w.keys, Add(key));
  }

  lemma {:induction false} AddedAllKeepsOrder(s: State<string>, xs: seq<string>)
    requires Exclusive(s) && !s.closed
    ensures var t := AddedAll(s, xs);
            Exclusive(t) && !t.closed && t.processing == s.processing && t.added == s.added + Elements(xs)
    decreases |xs|
  {
    if xs != [] {
      StepKeepsOrder(s, Add(xs[0]));
      AddedAllKeepsOrder(Added(s, xs[0]), xs[1..]);
      ElementsOfCons(xs);
    }
  }

  /** A tick finds the node dead: its revision has not advanced. */
  predicate IsDead(w: World, n: Node) {
    n.revision <= Observed(w.observed, n.name)
  }

  lemma AddingLabelled(w: World, order: seq<string>, name: string)
    requires KeysInOrder(w)
    ensures var t := w.(keys := AddedAll(w.keys, Labelled(w.claims, order, name)));
            KeysInOrder(t) && t.keys.added == w.keys.added + Elements(Labelled(w.claims, order, name))
  {
    AddedAllKeepsOrder(w.keys, Labelled(w.claims, order, name));
  }

  /** Seeing one node adds keys, and leaves what is remembered of the others. */
  lemma SeenQueues(w: World, order: seq<string>, node: Node)
    requires KeysInOrder(w)
    ensures var t := NodeSeen(w, order, node);
            && KeysInOrder(t) && w.keys.added <= t.keys.added && t.claims == w.claims
            && (IsDead(w, node) ==> Elements(Labelled(w.claims, order, node.name)) <= t.keys.added)
            && forall n: Node | n.name != node.name :: IsDead(t, n) == IsDead(w, n)
  {
    if IsDead(w, node) {
      AddingLabelled(w, order, node.name);
    }
  }

  /** A tick queues the claims labelled with the nodes it finds dead, on top of what is due. */
  lemma {:induction false} TickQueues(w: World, order: seq<string>, nodes: seq<Node>)
    requires KeysInOrder(w) && UniqueNames(nodes)
    ensures var t := Ticked(w, order, nodes); KeysInOrder(t) && w.keys.added <= t.keys.added
    ensures forall i | 0 <= i < |nodes| && IsDead(w, nodes[i]) ::
              Elements(Labelled(w.claims, order, nodes[i].name)) <= Ticked(w, order, nodes).keys.added
    decreases |nodes|
  {
    if nodes != [] {
      var t, rest := NodeSeen(w, order, nodes[0]), nodes[1..];
      SeenQueues(w, order, nodes[0]);
      ListedOnce(nodes);
      TickQueues(t, order, rest);
      forall i | 0 <= i < |nodes| && IsDead(w, nodes[i])
        ensures Elements(Labelled(w.claims, order, nodes[i].name)) <= Ticked(w, order, nodes).keys.added
      {
        if i > 0 {
          assert rest[i - 1] == nodes[i] && nodes[0].name != nodes[i].name;
        }
      }
    }
  }

  lemma KeyWorkerKeepsOrder(w: World, step: Step)
    requires KeysInOrder(w) && KeyStep(step) && Enabled(w, step) && ValidPools(w.pools)
    ensures KeysInOrder(Do(w, step))
  {
    if step.TakeKey? {
      TakenFromExclusive(w.keys);
    } else if step.ProcessKey? {
      if w.stage.key in w.cache {
        ProcessedLeavesMonitor(w, w.stage.key);
        StepKeepsOrder(w.keys, Add(w.stage.key));
      }
    } else {
      StepKeepsOrder(w.keys, Done(w.stage.key));
    }
  }

  lemma StepKeepsKeysInOrder(w: World, step: Step)
    requires KeysInOrder(w) && Enabled(w, step) && ValidPools(w.pools) && (step.Tick? ==> UniqueNames(w.nodes))
    requires step.HandleChange? ==> Serviceable(w)
    ensures KeysInOrder(Do(w, step))
  {
    if KeyStep(step) {
      KeyWorkerKeepsOrder(w, step);
    } else if step.ServiceEvent? {
      ServiceHandledLeavesMonitor(w, step.key, step.cur);
    } else if step.SyncClaim? || step.ResyncClaim? {
      AddKeepsKeysInOrder(w, step.name);
    } else if step.Tick? {
      TickQueues(w, step.order, w.nodes);
    }
  }

  /** On every run no key is queued twice or taken while the worker is still on it. */
  lemma {:induction false} KeysStayInOrder(ws: seq<World>, steps: seq<Step>, offer: Offers, k: nat)
    requires IsRun(ws, steps, offer) && ProperListings(ws) && KeysInOrder(ws[0]) && k < |ws|
    ensures KeysInOrder(ws[k])
  {
    if k > 0 {
      KeysStayInOrder(ws, steps, offer, k - 1);
      StepOfRun(ws, steps, offer, k);
      StepKeepsKeysInOrder(ws[k - 1], steps[k - 1]);
    }
  }

  // ----- Runs of the two workers -----

  predicate Working(step: Step) {
    step.TakeChange? || step.HandleChange? || KeyStep(step)
  }

  predicate KeyStep(step: Step) {
    step.TakeKey? || step.ProcessKey? || step.FinishKey?
  }

  ghost predicate Works(ws: seq<World>, steps: seq<Step>, i: nat)
    requires |ws| == |steps| + 1 && i < |steps|
  {
    Working(steps[i]) && Goes(ws[i], steps[i], ws[i + 1])
  }

  ghost predicate WorkerRun(ws: seq<World>, steps: seq<Step>) {
    |ws| == |steps| + 1 && forall i :: 0 <= i < |steps| ==> Works(ws, steps, i)
  }

  predicate NoKeysLeft(w: World) {
    w.stage.NoKey? && w.keys.queue == []
  }

  predicate OnLive(w: World, c: Claim) {
    c.node != "" && c.node in w.live
  }

  predicate Alive(w: World, c: Claim) {
    OwnersAlive(w, c.owners) != []
  }

  predicate Due(w: World, key: string) {
    key in w.keys.added || w.stage == KeyTaken(key)
  }

  /** Everything that a step of the workers keeps in place, some live node being listed. */
  ghost predicate Steady(w: World, offer: Offers) {
    && Sound(w, offer) && KeysInOrder(w) && LiveNodes(w.nodes, w.live) != []
    && forall n | n in w.nodes :: n.name != ""
  }

  /** What workers never change. */
  predicate SameSetting(w: World, t: World) {
    && t.services == w.services && t.existing == w.existing && t.nodes == w.nodes && t.live == w.live
    && t.cache.Keys == w.cache.Keys
  }

  lemma {:induction false} AllAliveStay(w: World, owners: seq<string>)
    requires forall k | k in owners :: OwnerAlive(w, k)
    ensures OwnersAlive(w, owners) == owners
  {
    if owners != [] {
      AllAliveStay(w, owners[1..]);
    }
  }

  // ----- Processing one key -----

  /** What one processing of a key makes of the cached claim: alive, it ends on a live node
      with living owners only, and keeps its node if that is live; nothing fails. */
  ghost predicate Improves(w: World, c: Claim, e: Claim) {
    if Alive(w, c) then
      && OnLive(w, e) && e.owners == OwnersAlive(w, c.owners) && (OnLive(w, c) ==> e.node == c.node)
      && e.name == c.name && e.version == c.version
    else e == c
  }

  lemma OutcomeImproves(w: World, offer: Offers, key: string)
    requires Steady(w, offer) && key in w.cache && Alive(w, w.cache[key])
    ensures Improves(w, w.cache[key], ClaimOutcome(w, key).0)
  {
    OwnersAliveKeepsOrder(w, w.cache[key].owners);
    var nodes := LiveNodes(w.nodes, w.live);
    assert Chosen(w, nodes) in nodes;
  }

  /** The cached claim after its key is processed. */
  ghost function Outcome(w: World, key: string): Claim
    requires key in w.cache && ValidPools(w.pools)
  {
    if Alive(w, w.cache[key]) then ClaimOutcome(w, key).0 else w.cache[key]
  }

  lemma AliveProcessed(w: World, key: string)
    requires key in w.cache && Alive(w, w.cache[key]) && ValidPools(w.pools) && LiveNodes(w.nodes, w.live) != []
    ensures var (t, err) := ClaimProcessed(w, key);
            !err && t == w.(cache := w.cache[key := Outcome(w, key)], changes := t.changes, next := t.next)
  {
    var (e, rs) := ClaimOutcome(w, key);
    SendAllChangesOnlyTheQueue(w.(cache := w.cache[key := e]), rs);
  }

  lemma OrphanProcessed(w: World, key: string)
    requires key in w.cache && !Alive(w, w.cache[key]) && ValidPools(w.pools)
    ensures var (t, err) := ClaimProcessed(w, key);
            !err && t == w.(changes := t.changes, next := t.next, pools := t.pools)
  {
  }

  /** `t` is `w` after its worker processed its key; nothing failed. */
  ghost predicate Processing(w: World, key: string, t: World) {
    && w.stage == KeyTaken(key) && ValidPools(w.pools)
    && t == w.(cache := t.cache, changes := t.changes, next := t.next, pools := t.pools, stage := KeyHandled(key))
    && t.cache == if key in w.cache then w.cache[key := Outcome(w, key)] else w.cache
  }

  lemma ProcessingSucceeds(w: World)
    requires w.stage.KeyTaken? && ValidPools(w.pools) && LiveNodes(w.nodes, w.live) != []
    ensures Processing(w, w.stage.key, KeyProcessed(w))
  {
    var key := w.stage.key;
    if key in w.cache {
      if Alive(w, w.cache[key]) {
        AliveProcessed(w, key);
      } else {
        OrphanProcessed(w, key);
        assert w.cache == w.cache[key := w.cache[key]];
      }
    }
  }

  // ----- One step -----

  /** What a step of the workers does to the world apart from pools and requests. */
  lemma WorkingTouches(w: World, offer: Offers, step: Step, t: World)
    requires Steady(w, offer) && Working(step) && Goes(w, step, t)
    ensures SameSetting(w, t) && t.mask == w.mask && t.strict == w.strict && t.filter == w.filter
    ensures step.ProcessKey? || t.cache == w.cache
    ensures !KeyStep(step) ==> t.keys == w.keys && t.stage == w.stage
    ensures KeyStep(step) ==> t.claims == w.claims
  {
    if step.HandleChange? {
      HandlingPops(w);
    } else if step.ProcessKey? {
      ProcessingSucceeds(w);
    }
  }

  /** What is due stays due until it is processed. */
  lemma KeyStepKeepsDue(w: World, offer: Offers, step: Step, t: World)
    requires Steady(w, offer) && Working(step) && Goes(w, step, t)
    ensures KeysInOrder(t)
    ensures forall k | Due(w, k) :: Due(t, k) || (step.ProcessKey? && w.stage == KeyTaken(k))
    ensures Work(t) == if KeyStep(step) then Work(w) - 1 else Work(w)
  {
    if step.TakeKey? {
      TakenFromExclusive(w.keys);
      assert w.keys.queue[0] in w.keys.queue;
    } else if step.ProcessKey? {
      ProcessingSucceeds(w);
    } else if step.FinishKey? {
      StepKeepsOrder(w.keys, Done(w.stage.key));
    } else {
      WorkingTouches(w, offer, step, t);
    }
  }

  /** The steps that the key worker still has to make. */
  function Work(w: World): nat {
    3 * |w.keys.added| + match w.stage case NoKey => 0 case KeyTaken(_) => 2 case KeyHandled(_) => 1
  }

  lemma WorkingIsSteady(w: World, offer: Offers, step: Step, t: World)
    requires Steady(w, offer) && Working(step) && Goes(w, step, t)
    ensures Steady(t, offer)
  {
    StepIsSound(w, offer, step);
    WorkingTouches(w, offer, step, t);
    KeyStepKeepsDue(w, offer, step, t);
  }

  /** How far claim `k` has come since `w0`. */
  ghost predicate Progress(w0: World, w: World, k: string) {
    && k in w0.cache && k in w.cache && SameSetting(w0, w)
    && Alive(w, w.cache[k]) == Alive(w, w0.cache[k])
    && (OnLive(w, w0.cache[k]) ==> w.cache[k].node == w0.cache[k].node)
    && (Due(w0, k) && Alive(w, w0.cache[k]) ==> OnLive(w, w.cache[k]) || Due(w, k))
  }

  lemma OutcomeProgresses(w0: World, w: World, offer: Offers, k: string)
    requires Steady(w, offer) && Progress(w0, w, k)
    ensures var e := Outcome(w, k);
            && Alive(w, e) == Alive(w, w0.cache[k])
            && (OnLive(w, w0.cache[k]) ==> e.node == w0.cache[k].node)
            && (Alive(w, w0.cache[k]) ==> OnLive(w, e))
  {
    if Alive(w, w.cache[k]) {
      OutcomeImproves(w, offer, k);
      AllAliveStay(w, Outcome(w, k).owners);
    }
  }

  lemma IdleProgresses(w0: World, w: World, t: World, k: string)
    requires Progress(w0, w, k) && SameSetting(w, t) && t.cache == w.cache && (Due(w, k) ==> Due(t, k))
    ensures Progress(w0, t, k)
  {
    SameOwners(w, t, w0.cache[k].owners);
    SameOwners(w, t, t.cache[k].owners);
  }

  lemma ProcessingProgresses(w0: World, w: World, offer: Offers, t: World, k: string)
    requires Steady(w, offer) && Progress(w0, w, k) && SameSetting(w, t)
    requires w.stage.KeyTaken? && Processing(w, w.stage.key, t)
    requires Due(w, k) ==> Due(t, k) || w.stage.key == k
    ensures Progress(w0, t, k)
  {
    SameOwners(w, t, w0.cache[k].owners);
    SameOwners(w, t, t.cache[k].owners);
    if w.stage.key == k {
      OutcomeProgresses(w0, w, offer, k);
    }
  }

  lemma WorkingProgresses(w0: World, w: World, offer: Offers, step: Step, t: World, k: string)
    requires Steady(w, offer) && Working(step) && Goes(w, step, t) && Progress(w0, w, k)
    ensures Progress(w0, t, k)
  {
    WorkingTouches(w, offer, step, t);
    KeyStepKeepsDue(w, offer, step, t);
    if step.ProcessKey? {
      ProcessingSucceeds(w);
      ProcessingProgresses(w0, w, offer, t, k);
    } else {
      IdleProgresses(w0, w, t, k);
    }
  }

  // ----- Runs -----

  /** From point n - 1 to point n. */
  lemma StepOfWorkers(ws: seq<World>, steps: seq<Step>, n: nat)
    requires WorkerRun(ws, steps) && 0 < n <= |steps|
    ensures Working(steps[n - 1]) && Goes(ws[n - 1], steps[n - 1], ws[n])
  {
    assert Works(ws, steps, n - 1);
  }

  lemma SteadyProgress(w0: World, w: World, offer: Offers, step: Step, t: World, k: string)
    requires Steady(w, offer) && Working(step) && Goes(w, step, t) && Progress(w0, w, k)
    ensures Steady(t, offer) && Progress(w0, t, k)
  {
    WorkingIsSteady(w, offer, step, t);
    WorkingProgresses(w0, w, offer, step, t, k);
  }

  ghost predicate Going(w0: World, w: World, offer: Offers, k: string) {
    Steady(w, offer) && Progress(w0, w, k)
  }

  /** From point n - 1 to point n. */
  lemma GoesOn(w0: World, ws: seq<World>, steps: seq<Step>, offer: Offers, k: string, n: nat)
    requires WorkerRun(ws, steps) && 0 < n <= |steps| && Going(w0, ws[n - 1], offer, k)
    ensures Going(w0, ws[n], offer, k)
  {
    StepOfWorkers(ws, steps, n);
    SteadyProgress(w0, ws[n - 1], offer, steps[n - 1], ws[n], k);
  }

  lemma {:induction false} RunProgresses(w0: World, ws: seq<World>, steps: seq<Step>, offer: Offers,
                                         k: string, n: nat)
    requires WorkerRun(ws, steps) && Going(w0, ws[0], offer, k) && n <= |steps|
    ensures Going(w0, ws[n], offer, k)
  {
    if n > 0 {
      RunProgresses(w0, ws, steps, offer, k, n - 1);
      GoesOn(w0, ws, steps, offer, k, n);
    }
  }

  lemma NothingDueAtTheEnd(w: World, k: string)
    requires KeysInOrder(w) && NoKeysLeft(w)
    ensures !Due(w, k)
  {
  }

  // ----- Termination of the drain -----

  function KeySteps(steps: seq<Step>, n: nat): nat
    requires n <= |steps|
  {
    if n == 0 then 0 else KeySteps(steps, n - 1) + Bit(KeyStep(steps[n - 1]))
  }

  /** Some steps of a run have brought the drain nearer by the key steps among them. */
  ghost predicate Nearer(first: nat, w: World, offer: Offers, done: nat) {
    Steady(w, offer) && Work(w) + done == first
  }

  lemma OneStepNearer(first: nat, ws: seq<World>, steps: seq<Step>, offer: Offers, n: nat, done: nat)
    requires WorkerRun(ws, steps) && 0 < n <= |steps| && Nearer(first, ws[n - 1], offer, done)
    ensures Nearer(first, ws[n], offer, done + Bit(KeyStep(steps[n - 1])))
  {
    StepOfWorkers(ws, steps, n);
    WorkingIsSteady(ws[n - 1], offer, steps[n - 1], ws[n]);
    KeyStepKeepsDue(ws[n - 1], offer, steps[n - 1], ws[n]);
  }

  /** Every key step brings the drain one step nearer, and nothing else delays it. */
  lemma {:induction false} DrainIsBounded(first: nat, ws: seq<World>, steps: seq<Step>, offer: Offers, n: nat)
    requires WorkerRun(ws, steps) && Nearer(first, ws[0], offer, 0) && n <= |steps|
    ensures Nearer(first, ws[n], offer, KeySteps(steps, n))
  {
    if n > 0 {
      DrainIsBounded(first, ws, steps, offer, n - 1);
      OneStepNearer(first, ws, steps, offer, n, KeySteps(steps, n - 1));
    }
  }

  /** The key worker can go on exactly until it has drained the queue. */
  lemma DrainEnds(w: World, offer: Offers)
    requires Steady(w, offer)
    ensures Work(w) == 0 <==> NoKeysLeft(w)
    ensures Work(w) > 0 <==> Enabled(w, TakeKey) || Enabled(w, ProcessKey) || Enabled(w, FinishKey)
  {
    TakenFromExclusive(w.keys);
    if w.keys.queue != [] {
      assert w.keys.queue[0] in w.keys.added;
    }
    assert NoKeysLeft(w) ==> w.keys.added == {};
  }

  // ----- Failover -----

  /** The situation: cache and API agree, then a tick, and some listed node is found live. */
  ghost predicate AfterTick(w: World, order: seq<string>, t: World, offer: Offers) {
    && Sound(w, offer) && KeysInOrder(w) && w.cache == w.claims
    && UniqueNames(w.nodes) && (forall n | n in w.nodes :: n.name != "")
    && (forall k | k in w.claims :: k in order)
    && t == Ticked(w, order, w.nodes) && LiveNodes(t.nodes, t.live) != []
  }

  /** The claim is on a node the tick finds dead. */
  predicate Stranded(w: World, c: Claim) {
    exists n | n in w.nodes :: n.name == c.node && IsDead(w, n)
  }

  lemma TickIsSteady(w: World, order: seq<string>, t: World, offer: Offers)
    requires AfterTick(w, order, t, offer)
    ensures Steady(t, offer) && t.cache == w.cache
  {
    StepIsSound(w, offer, Step.Tick(order));
    TickedTouchesOnlyKeys(w, order, w.nodes);
    TickQueues(w, order, w.nodes);
  }

  /** The claims of a node that a tick finds dead. */
  lemma DeadNodeIsDue(w: World, order: seq<string>, n: Node, k: string)
    requires KeysInOrder(w) && UniqueNames(w.nodes) && n in w.nodes && IsDead(w, n)
    requires k in Labelled(w.claims, order, n.name)
    ensures k in Ticked(w, order, w.nodes).keys.added && n.name !in Ticked(w, order, w.nodes).live
  {
    var i :| 0 <= i < |w.nodes| && w.nodes[i] == n;
    TickQueues(w, order, w.nodes);
    assert k in Elements(Labelled(w.claims, order, w.nodes[i].name));
    TickDecides(w, order, w.nodes, n.name);
  }

  lemma StrandedIsDue(w: World, order: seq<string>, t: World, offer: Offers, k: string)
    requires AfterTick(w, order, t, offer) && k in w.claims && Stranded(w, w.claims[k])
    ensures Due(t, k) && !OnLive(t, w.claims[k])
  {
    var c := w.claims[k];
    var n :| n in w.nodes && n.name == c.node && IsDead(w, n);
    assert GoodClaim(c, w.mask, offer);
    assert k in Labelled(w.claims, order, n.name);
    DeadNodeIsDue(w, order, n, k);
  }

  /** After the tick and a drain of the key queue, in the scheduler's cache: every claim with a
      living owner that sat on a node found dead is on a live node, and no claim that sat on a
      live node has moved.  It does not matter which key was in process at the tick. */
  lemma FailoverIsComplete(w: World, order: seq<string>, ws: seq<World>, steps: seq<Step>, offer: Offers, k: string)
    requires |ws| == |steps| + 1 && AfterTick(w, order, ws[0], offer)
    requires WorkerRun(ws, steps) && NoKeysLeft(ws[|steps|])
    requires k in w.claims
    ensures var t := ws[|steps|];
            && k in t.cache
            && (Stranded(w, w.claims[k]) && Alive(t, w.claims[k]) ==> OnLive(t, t.cache[k]))
            && (OnLive(t, w.claims[k]) ==> t.cache[k].node == w.claims[k].node)
  {
    TickIsSteady(w, order, ws[0], offer);
    RunProgresses(ws[0], ws, steps, offer, k, |steps|);
    NothingDueAtTheEnd(ws[|steps|], k);
    if Stranded(w, w.claims[k]) {
      StrandedIsDue(w, order, ws[0], offer, k);
    }
  }
}
