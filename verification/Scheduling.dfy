/** No claim is forgotten: what is delivered, what fails and what sits on a dead node is queued
    for the key worker, whether or not any node is live (pkg/scheduler/scheduler.go:274-337). */
module Scheduling {
  import opened Strings
  import opened WorkQueue
  import opened QueueRuns
  import opened Cluster
  import opened ClaimNames
  import opened Soundness
  import opened Liveness
  import opened Failover
  import opened FailoverInformed
  import opened ClaimProcessing
  import opened Events

  // ----- Delivery -----

  /** Delivering a claim that the API holds leaves the API's object in the cache and its key
      pending, at the back unless it was pending before or is being processed; it does not
      matter whether the claim was cached.  A claim that is gone is forgotten. */
  lemma DeliveryQueues(w: World, name: string)
    requires KeysInOrder(w)
    ensures var t := ClaimSynced(w, name);
            && KeysInOrder(t) && t == w.(cache := t.cache, keys := t.keys)
            && (forall n | n != name :: (n in t.cache <==> n in w.cache) && (n in w.cache ==> t.cache[n] == w.cache[n]))
            && if name in w.claims then
                 && name in t.cache && t.cache[name] == w.claims[name] && IsQueued(w.keys, name, t.keys)
               else name !in t.cache && t.keys == w.keys
  {
    AddQueues(w, name);
  }

  /** The periodic resync queues the key of a cached claim and changes nothing else. */
  lemma ResyncQueues(w: World, name: string)
    requires KeysInOrder(w)
    ensures var t := ClaimResynced(w, name);
            && KeysInOrder(t) && t == w.(keys := t.keys)
            && if name in w.cache then IsQueued(w.keys, name, t.keys) else t == w
  {
    AddQueues(w, name);
  }

  /** The item is pending; at the back, unless it was pending or is being processed. */
  ghost predicate IsQueued<T(!new)>(s: State<T>, x: T, t: State<T>) {
    && x in t.added && (forall y | y != x :: y in t.added <==> y in s.added)
    && t.processing == s.processing && t.closed == s.closed
    && t.queue == s.queue + (if x in s.added || x in s.processing then [] else [x])
  }

  lemma AddQueues(w: World, name: string)
    requires KeysInOrder(w)
    ensures KeysInOrder(w.(keys := Added(w.keys, name))) && IsQueued(w.keys, name, Added(w.keys, name))
  {
    AddKeepsKeysInOrder(w, name);
    assert w.keys.queue + [] == w.keys.queue;
  }

  // ----- Dead nodes -----

  /** The API lists the claim, and its label names a node that the tick finds dead. */
  predicate OnDead(w: World, order: seq<string>, nodes: seq<Node>, k: string) {
    && k in order && k in w.claims && "ipnode" in w.claims[k].labels
    && exists n | n in nodes :: n.name == w.claims[k].labels["ipnode"] && IsDead(w, n)
  }

  lemma SeenQueuesExactly(w: World, order: seq<string>, node: Node, k: string)
    requires KeysInOrder(w)
    ensures var t := NodeSeen(w, order, node);
            && KeysInOrder(t)
            && (k in t.keys.added <==> k in w.keys.added || OnDead(w, order, [node], k))
  {
    SeenQueues(w, order, node);
    assert node in [node];
    if IsDead(w, node) {
      AddingLabelled(w, order, node.name);
    }
  }

  /** The others of the list are judged as before. */
  lemma OnDeadOfCons(w: World, t: World, order: seq<string>, nodes: seq<Node>, k: string)
    requires UniqueNames(nodes) && nodes != [] && t.claims == w.claims
    requires forall n: Node | n.name != nodes[0].name :: IsDead(t, n) == IsDead(w, n)
    ensures OnDead(w, order, nodes, k) <==> OnDead(w, order, [nodes[0]], k) || OnDead(t, order, nodes[1..], k)
  {
    var first, rest := nodes[0], nodes[1..];
    assert nodes == [first] + rest && first in [first];
    forall n | n in rest ensures n.name != first.name {
      var i :| 0 <= i < |rest| && rest[i] == n;
      assert nodes[i + 1] == n;
    }
    if OnDead(w, order, nodes, k) {
      var n :| n in nodes && n.name == w.claims[k].labels["ipnode"] && IsDead(w, n);
      assert n in [first] || n in rest;
    }
    if OnDead(t, order, rest, k) {
      var n :| n in rest && n.name == w.claims[k].labels["ipnode"] && IsDead(t, n);
      assert n in nodes;
    }
  }

  /** A tick queues exactly the claims labelled with the nodes it finds dead, besides what was
      pending before. */
  lemma {:induction false} TickQueuesExactly(w: World, order: seq<string>, nodes: seq<Node>, k: string)
    requires KeysInOrder(w) && UniqueNames(nodes)
    ensures k in Ticked(w, order, nodes).keys.added <==> k in w.keys.added || OnDead(w, order, nodes, k)
    decreases |nodes|
  {
    if nodes != [] {
      var t := NodeSeen(w, order, nodes[0]);
      SeenQueues(w, order, nodes[0]);
      SeenQueuesExactly(w, order, nodes[0], k);
      OnDeadOfCons(w, t, order, nodes, k);
      ListedOnce(nodes);
      TickQueuesExactly(t, order, nodes[1..], k);
    }
  }

  // ----- Retry -----

  /** The claim has an owner but no live node to sit on or go to. */
  ghost predicate Fails(w: World, key: string) {
    key in w.cache && !Orphaned(w, w.cache[key]) && !OnLive(w, w.cache[key]) && !SomeUsable(w)
  }

  lemma FailingIsProcessed(w: World)
    requires ValidPools(w.pools) && w.stage.KeyTaken?
    ensures var t := KeyProcessed(w);
            && t.stage == KeyHandled(w.stage.key)
            && t.keys == if Fails(w, w.stage.key) then Added(w.keys, w.stage.key) else w.keys
  {
    var key := w.stage.key;
    if key in w.cache {
      KeepsThoseThatStand(w, w.cache[key].owners);
      ProcessedLeavesMonitor(w, key);
      if OwnersAlive(w, w.cache[key].owners) != [] {
        assert OwnersAlive(w, w.cache[key].owners)[0] in w.cache[key].owners;
        OutcomeSettles(w, key);
      }
    }
  }

  /** The item in process is done with; it is queued again if it is pending. */
  lemma DoneOnQueue<T(!new)>(s: State<T>, x: T)
    requires Exclusive(s) && s.processing == {x}
    ensures Exclusive(Finished(s, x))
    ensures Finished(s, x) == State(s.added, {}, s.closed, s.queue + if x in s.added then [x] else [])
  {
    assert x !in s.queue && s.processing - {x} == {};
    StepKeepsOrder(s, Done(x));
    assert s.queue + [] == s.queue;
  }

  lemma AddInProcess<T(!new)>(s: State<T>, x: T)
    requires Exclusive(s) && !s.closed && x in s.processing
    ensures Added(s, x) == s.(added := s.added + {x}) && Exclusive(Added(s, x))
  {
    StepKeepsOrder(s, Add(x));
  }

  /** Once a key is processed and finished, it is pending again, at the back, exactly if its
      claim has an owner but no live node to sit on or go to, or if it was added meanwhile. */
  lemma FailedKeyIsRetried(w: World)
    requires KeysInOrder(w) && ValidPools(w.pools) && w.stage.KeyTaken? && KeyProcessed(w).stage.KeyHandled?
    ensures var key, u := w.stage.key, KeyFinished(KeyProcessed(w));
            var again := Fails(w, key) || key in w.keys.added;
            && KeysInOrder(u) && u.stage == NoKey
            && u.keys.added == w.keys.added + (if again then {key} else {})
            && u.keys.queue == w.keys.queue + (if again then [key] else [])
  {
    FailingIsProcessed(w);
    AddInProcess(w.keys, w.stage.key);
    DoneOnQueue(KeyProcessed(w).keys, w.stage.key);
  }

  // ----- What is due stays due -----

  /** The key is processed, and its claim is not cached, or given up, or on a live node then. */
  predicate Cleared(w: World, step: Step, t: World, k: string) {
    && step.ProcessKey? && w.stage == KeyTaken(k)
    && (k !in w.cache || Orphaned(w, w.cache[k]) || (k in t.cache && t.cache[k].node in t.live))
  }

  lemma ProcessingClears(w: World, offer: Offers, t: World, k: string)
    requires Sound(w, offer) && KeysInOrder(w) && Goes(w, ProcessKey, t) && Due(w, k)
    ensures Due(t, k) || Cleared(w, ProcessKey, t, k)
  {
    FailingIsProcessed(w);
    AddKeepsKeysInOrder(w, w.stage.key);
    if w.stage.key == k && k in w.cache && !Orphaned(w, w.cache[k]) && !Fails(w, k) {
      ProcessingKeepsIff(w);
      KeptIsPlaced(w, k, w.cache[k], t);
    }
  }

  lemma KeptIsPlaced(w: World, k: string, c: Claim, t: World)
    requires Kept(w, k, c, t) && (OnLive(w, c) || SomeUsable(w))
    ensures k in t.cache && t.cache[k].node in w.live
  {
  }

  lemma StepKeepsDue(w: World, offer: Offers, step: Step, t: World, k: string)
    requires Sound(w, offer) && KeysInOrder(w) && Goes(w, step, t) && (step.Tick? ==> UniqueNames(w.nodes)) && Due(w, k)
    ensures Due(t, k) || Cleared(w, step, t, k)
  {
    if step.ProcessKey? {
      ProcessingClears(w, offer, t, k);
    } else if step.Tick? {
      TickQueues(w, step.order, w.nodes);
      TickedTouchesOnlyKeys(w, step.order, w.nodes);
    } else if KeyStep(step) || Delivering(step) {
      QueueingKeepsDue(w, step, k);
    } else if step.HandleChange? {
      HandlingLeavesMonitor(w);
    } else if step.ServiceEvent? {
      ServiceHandledLeavesMonitor(w, step.key, step.cur);
    }
  }

  lemma QueueingKeepsDue(w: World, step: Step, k: string)
    requires KeysInOrder(w) && Enabled(w, step) && ValidPools(w.pools) && Due(w, k)
    requires step.TakeKey? || step.FinishKey? || Delivering(step)
    ensures Due(Do(w, step), k)
  {
    if step.TakeKey? {
      TakenFromExclusive(w.keys);
    } else if step.FinishKey? {
      StepKeepsOrder(w.keys, Done(w.stage.key));
    } else {
      AddKeepsKeysInOrder(w, step.name);
    }
  }

  /** The step from point n clears the key. */
  predicate ClearedAt(ws: seq<World>, steps: seq<Step>, k: string, n: nat)
    requires |ws| == |steps| + 1 && n < |steps|
  {
    Cleared(ws[n], steps[n], ws[n + 1], k)
  }

  /** On every run, with live nodes or without, a key that is due stays due until it is
      processed and its claim is not cached, or given up, or on a live node then. */
  lemma {:induction false} DueUntilCleared(ws: seq<World>, steps: seq<Step>, offer: Offers, k: string, i: nat, j: nat)
    requires IsRun(ws, steps, offer) && ProperListings(ws) && KeysInOrder(ws[0]) && i <= j <= |steps| && Due(ws[i], k)
    ensures Due(ws[j], k) || exists n: nat :: i <= n < j && ClearedAt(ws, steps, k, n)
    decreases j
  {
    if i < j {
      DueUntilCleared(ws, steps, offer, k, i, j - 1);
      if Due(ws[j - 1], k) {
        StepOfRun(ws, steps, offer, j);
        KeysStayInOrder(ws, steps, offer, j - 1);
        StepKeepsDue(ws[j - 1], offer, steps[j - 1], ws[j], k);
        assert Due(ws[j], k) || ClearedAt(ws, steps, k, j - 1);
      }
    }
  }

  // ----- Every claim is attended to -----

  /** A pending update of the claim that the API will accept. */
  ghost predicate Coming(w: World, k: string) {
    exists r | r in Pending(w) :: IsUpdate(r, k) && Accepted(w, r)
  }

  /** A cached claim is the API's, up to an accepted update; and it is on a node that counts as
      live, or its key is due, or an update is about to be accepted. */
  ghost predicate Attended(w: World, k: string) {
    k in w.cache ==>
      && k in w.claims && w.cache[k].version == w.claims[k].version
      && (w.cache[k].node == w.claims[k].node || Coming(w, k))
      && (OnLive(w, w.cache[k]) || Due(w, k) || Coming(w, k))
  }

  /** The step changes the API's claim, or gives up the cached one. */
  predicate Unsettles(w: World, step: Step, k: string) {
    || (step.HandleChange? && w.busy.Some? && w.busy.value.request.claim.name == k)
    || (step.ProcessKey? && w.stage == KeyTaken(k) && k in w.cache && Orphaned(w, w.cache[k]))
  }

  lemma StillComing(w: World, t: World, k: string)
    requires Coming(w, k) && t.strict == w.strict
    requires k in w.claims ==> k in t.claims && t.claims[k].version == w.claims[k].version
    requires forall r | r in Pending(w) && IsUpdate(r, k) :: r in Pending(t)
    ensures Coming(t, k)
  {
    var r :| r in Pending(w) && IsUpdate(r, k) && Accepted(w, r);
    assert r in Pending(t) && Accepted(t, r);
  }

  /** Nothing that concerns the claim differs, but that more may be due and pending. */
  lemma StaysAttended(w: World, t: World, k: string)
    requires Attended(w, k) && t.strict == w.strict && t.live == w.live
    requires k in t.cache ==> k in w.cache && t.cache[k] == w.cache[k] && (Due(w, k) ==> Due(t, k))
    requires k in w.claims ==> k in t.claims && t.claims[k] == w.claims[k]
    requires forall r | r in Pending(w) && IsUpdate(r, k) :: r in Pending(t)
    ensures Attended(t, k)
  {
    if Coming(w, k) {
      StillComing(w, t, k);
    }
  }

  lemma DeliveringAttends(w: World, name: string, k: string)
    requires KeysInOrder(w) && (name == k || Attended(w, k))
    ensures Attended(ClaimSynced(w, name), k)
  {
    var t := ClaimSynced(w, name);
    DeliveryQueues(w, name);
    assert Pending(t) == Pending(w);
    if name == k {
      ItIsDelivered(w, t, k);
    } else {
      StaysAttended(w, t, k);
    }
  }

  lemma ItIsDelivered(w: World, t: World, k: string)
    requires t.claims == w.claims
    requires k in t.cache ==> k in w.claims && t.cache[k] == w.claims[k] && Due(t, k)
    ensures Attended(t, k)
  {
  }

  lemma HandlingAttends(w: World, offer: Offers, t: World, k: string)
    requires Sound(w, offer) && Goes(w, HandleChange, t) && Attended(w, k) && !Unsettles(w, HandleChange, k)
    ensures Attended(t, k)
  {
    var r := w.busy.value.request;
    HandlingPops(w);
    AppliedStores(w, r);
    HandlingLeavesMonitor(w);
    OtherRequestAttends(w, r, t, k);
  }

  lemma OtherRequestAttends(w: World, r: Request, t: World, k: string)
    requires Attended(w, k) && r.claim.name != k && Pending(w) != [] && Pending(w)[0] == r
    requires t.claims == StoredAfter(w.claims, w.strict, r) && t.cache == w.cache && t.strict == w.strict
    requires t.live == w.live && (Due(w, k) ==> Due(t, k)) && Pending(w)[1..] <= Pending(t)
    ensures Attended(t, k)
  {
    assert Pending(w) == [r] + Pending(w)[1..];
    StaysAttended(w, t, k);
  }

  lemma EventAttends(w: World, offer: Offers, key: string, cur: Option<Service>, k: string)
    requires Sound(w, offer) && Enabled(w, ServiceEvent(key, cur)) && Attended(w, k)
    ensures Attended(ServiceHandled(w, key, cur), k)
  {
    var rs := EventAsks(w, offer, key, cur);
    ServiceHandledLeavesMonitor(w, key, cur);
    StaysAttended(w, ServiceHandled(w, key, cur), k);
  }

  /** The claim's own key is processed, and its owner stands: it stays, fails, or is placed. */
  lemma ItsKeyProcessed(w: World, t: World, k: string, e: Claim, rs: seq<Request>)
    requires Attended(w, k) && k in w.cache && KeptBy(w, k, w.cache[k], e, rs, t)
    requires t.claims == w.claims && t.strict == w.strict && t.live == w.live && (Fails(w, k) ==> Due(t, k))
    requires !Orphaned(w, w.cache[k]) && w.cache[k].name == k
    ensures Attended(t, k)
  {
    if Coming(w, k) {
      StillComing(w, t, k);
    }
    if !OnLive(w, w.cache[k]) && SomeUsable(w) {
      assert rs[|rs| - 1] in rs && rs[|rs| - 1] in Pending(t);
      assert IsUpdate(rs[|rs| - 1], k) && Accepted(t, rs[|rs| - 1]);
    }
  }

  lemma KeyAttends(w: World, offer: Offers, t: World, k: string)
    requires Sound(w, offer) && KeysInOrder(w) && Goes(w, ProcessKey, t) && Attended(w, k)
    requires !Unsettles(w, ProcessKey, k)
    ensures Attended(t, k)
  {
    var key := w.stage.key;
    FailingIsProcessed(w);
    AddKeepsKeysInOrder(w, key);
    if key in w.cache {
      ProcessingKeepsIff(w);
      CachedKeyAttends(w, t, key, k);
    } else {
      MissingKeyIsSkipped(w);
      MissingKeyAttends(w, t, key, k);
    }
  }

  lemma MissingKeyAttends(w: World, t: World, key: string, k: string)
    requires Attended(w, k) && key !in w.cache && t == w.(stage := KeyHandled(key)) && w.stage == KeyTaken(key)
    ensures Attended(t, k)
  {
    assert Pending(t) == Pending(w);
    StaysAttended(w, t, k);
  }

  lemma CachedKeyAttends(w: World, t: World, key: string, k: string)
    requires Attended(w, k) && key in w.cache && w.cache[key].name == key
    requires if Orphaned(w, w.cache[key]) then GivenUp(w, w.cache[key], t) && key != k
             else Kept(w, key, w.cache[key], t)
    requires t.claims == w.claims && t.strict == w.strict && t.live == w.live && (Fails(w, key) ==> Due(t, key))
    requires Due(w, k) ==> Due(t, k) || key == k
    ensures Attended(t, k)
  {
    if Orphaned(w, w.cache[key]) {
      var d :| GivesUpBy(w, w.cache[key], d, t);
      StaysAttended(w, t, k);
    } else {
      var e, rs :| KeptBy(w, key, w.cache[key], e, rs, t);
      if key == k {
        ItsKeyProcessed(w, t, k, e, rs);
      } else {
        StaysAttended(w, t, k);
      }
    }
  }

  /** The API lists every claim it holds. */
  predicate ListsClaims(w: World, step: Step) {
    step.Tick? ==> forall n | n in w.claims :: n in step.order
  }

  lemma TickAttends(w: World, offer: Offers, order: seq<string>, k: string)
    requires Sound(w, offer) && KeysInOrder(w) && UniqueNames(w.nodes) && ListsClaims(w, Tick(order)) && Attended(w, k)
    ensures Attended(Ticked(w, order, w.nodes), k)
  {
    var t := Ticked(w, order, w.nodes);
    TickQueues(w, order, w.nodes);
    TickedTouchesOnlyKeys(w, order, w.nodes);
    assert Pending(t) == Pending(w);
    if Coming(w, k) {
      StillComing(w, t, k);
    }
    if k in w.cache && !Coming(w, k) && OnLive(w, w.cache[k]) && !OnLive(t, w.cache[k]) {
      LostNodeIsDue(w, offer, order, k);
    }
  }

  /** A tick finds the node of a claim dead: the API's claim is labelled with it. */
  lemma LostNodeIsDue(w: World, offer: Offers, order: seq<string>, k: string)
    requires Sound(w, offer) && KeysInOrder(w) && UniqueNames(w.nodes) && k in w.claims && k in order
    requires OnLive(w, w.claims[k]) && !OnLive(Ticked(w, order, w.nodes), w.claims[k])
    ensures k in Ticked(w, order, w.nodes).keys.added
  {
    var node := w.claims[k].node;
    TickDecides(w, order, w.nodes, node);
    var i :| 0 <= i < |w.nodes| && w.nodes[i] == Node(node, RevisionOf(w.nodes, node).value);
    assert GoodClaim(w.claims[k], w.mask, offer);
    assert k in Labelled(w.claims, order, node);
    DeadNodeIsDue(w, order, w.nodes[i], k);
  }

  lemma QuietAttends(w: World, offer: Offers, step: Step, t: World, k: string)
    requires Sound(w, offer) && KeysInOrder(w) && Goes(w, step, t) && Attended(w, k)
    requires step.TakeChange? || step.ResyncClaim? || step.TakeKey? || step.FinishKey? || step.ApiChanges?
    ensures Attended(t, k)
  {
    if Due(w, k) {
      StepKeepsDue(w, offer, step, t, k);
    }
    QuietStepAsks(w, offer, step, t);
    StaysAttended(w, t, k);
  }

  lemma QuietStepAsks(w: World, offer: Offers, step: Step, t: World)
    requires Sound(w, offer) && Goes(w, step, t)
    requires step.TakeChange? || step.ResyncClaim? || step.TakeKey? || step.FinishKey? || step.ApiChanges?
    ensures Pending(t) == Pending(w) && t.claims == w.claims && t.cache == w.cache
    ensures t.strict == w.strict && t.live == w.live
  {
    if step.TakeChange? {
      TakenFromExclusive(w.changes);
      TakingKeepsPending(w);
    } else {
      QuietStepTouches(w, step);
    }
  }

  lemma StepAttends(w: World, offer: Offers, step: Step, t: World, k: string)
    requires Sound(w, offer) && KeysInOrder(w) && Goes(w, step, t)
    requires (step.Tick? ==> UniqueNames(w.nodes)) && ListsClaims(w, step)
    requires step == SyncClaim(k) || (Attended(w, k) && !Unsettles(w, step, k))
    ensures Attended(t, k)
  {
    match step
    case SyncClaim(name) => DeliveringAttends(w, name, k);
    case HandleChange => HandlingAttends(w, offer, t, k);
    case ServiceEvent(key, cur) => EventAttends(w, offer, key, cur, k);
    case ProcessKey => KeyAttends(w, offer, t, k);
    case Tick(order) => TickAttends(w, offer, order, k);
    case _ => QuietAttends(w, offer, step, t, k);
  }

  // ----- Runs -----

  /** The informer has delivered the claim since it was last changed or given up. */
  predicate Delivered(ws: seq<World>, steps: seq<Step>, k: string, i: nat)
    requires |ws| == |steps| + 1 && i <= |steps|
  {
    i == 0 || steps[i - 1] == SyncClaim(k)
    || (Delivered(ws, steps, k, i - 1) && !Unsettles(ws[i - 1], steps[i - 1], k))
  }

  /** Whenever the API lists claims, it lists all that it holds. */
  ghost predicate FullListings(ws: seq<World>, steps: seq<Step>)
    requires |ws| == |steps| + 1
  {
    forall i :: 0 <= i < |steps| ==> ListsClaims(ws[i], steps[i])
  }

  /** From point i - 1 to point i. */
  lemma NextAttended(ws: seq<World>, steps: seq<Step>, offer: Offers, k: string, i: nat)
    requires IsRun(ws, steps, offer) && ProperListings(ws) && FullListings(ws, steps) && KeysInOrder(ws[0])
    requires 0 < i <= |steps| && Delivered(ws, steps, k, i)
    requires Delivered(ws, steps, k, i - 1) ==> Attended(ws[i - 1], k)
    ensures Attended(ws[i], k)
  {
    StepOfRun(ws, steps, offer, i);
    KeysStayInOrder(ws, steps, offer, i - 1);
    assert ListsClaims(ws[i - 1], steps[i - 1]);
    StepAttends(ws[i - 1], offer, steps[i - 1], ws[i], k);
  }

  /** On every run from an empty cache, with live nodes or without: a cached claim that the
      informer has delivered since it was last changed or given up is on a node that counts as
      live, or its key is due, or an update of it is about to be accepted. */
  lemma {:induction false} EveryClaimIsAttended(ws: seq<World>, steps: seq<Step>, offer: Offers, k: string, i: nat)
    requires IsRun(ws, steps, offer) && ProperListings(ws) && FullListings(ws, steps) && KeysInOrder(ws[0])
    requires ws[0].cache == map[] && i <= |steps| && Delivered(ws, steps, k, i)
    ensures Attended(ws[i], k)
  {
    if i > 0 {
      if Delivered(ws, steps, k, i - 1) {
        EveryClaimIsAttended(ws, steps, offer, k, i - 1);
      }
      NextAttended(ws, steps, offer, k, i);
    }
  }

  /** So with nothing pending it is the API's claim, and on a live node or due. */
  lemma SettledOrDue(ws: seq<World>, steps: seq<Step>, offer: Offers, k: string, i: nat)
    requires IsRun(ws, steps, offer) && ProperListings(ws) && FullListings(ws, steps) && KeysInOrder(ws[0])
    requires ws[0].cache == map[] && i <= |steps| && Delivered(ws, steps, k, i)
    requires Pending(ws[i]) == [] && k in ws[i].cache
    ensures k in ws[i].claims && ws[i].cache[k].node == ws[i].claims[k].node
    ensures OnLive(ws[i], ws[i].cache[k]) || Due(ws[i], k)
  {
    EveryClaimIsAttended(ws, steps, offer, k, i);
  }
}
