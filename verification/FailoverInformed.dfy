/** Failover while the claim informer delivers what the workers write: the cache may fall back
    to older versions of a claim and requests may be rejected as stale, but no claim is lost. */
module FailoverInformed {
  import opened Strings
  import opened Naming
  import opened QueueRuns
  import opened Cluster
  import opened ClaimNames
  import opened Soundness
  import opened Failover

  // ----- Runs of workers and informer -----

  predicate Delivering(step: Step) {
    step.SyncClaim? || step.ResyncClaim?
  }

  ghost predicate Moves(w: World, step: Step, t: World) {
    (Working(step) || Delivering(step)) && Goes(w, step, t)
  }

  ghost predicate MovesAt(ws: seq<World>, steps: seq<Step>, i: nat)
    requires |ws| == |steps| + 1 && i < |steps|
  {
    Moves(ws[i], steps[i], ws[i + 1])
  }

  ghost predicate InformedRun(ws: seq<World>, steps: seq<Step>) {
    |ws| == |steps| + 1 && forall i :: 0 <= i < |steps| ==> MovesAt(ws, steps, i)
  }

  /** What these steps leave alone. */
  predicate SameScene(w: World, t: World) {
    && t.services == w.services && t.existing == w.existing && t.nodes == w.nodes && t.live == w.live
    && t.strict == w.strict && t.mask == w.mask
  }

  lemma SceneStays(w: World, offer: Offers, step: Step, t: World)
    requires Steady(w, offer) && Moves(w, step, t)
    ensures SameScene(w, t)
  {
    if Working(step) {
      WorkingTouches(w, offer, step, t);
    } else {
      QuietStepTouches(w, step);
    }
  }

  lemma StaysSteady(w: World, offer: Offers, step: Step, t: World)
    requires Steady(w, offer) && Moves(w, step, t)
    ensures Steady(t, offer)
  {
    if Working(step) {
      WorkingIsSteady(w, offer, step, t);
    } else {
      StepIsSound(w, offer, step);
      StepKeepsKeysInOrder(w, step);
    }
  }

  // ----- Copies of a claim -----

  /** A version of the claim: it is alive as the original is, and on the original's node if
      that is live. */
  predicate Copy(w: World, c: Claim, v: Claim) {
    v.name == c.name && (Alive(w, v) <==> Alive(w, c)) && (OnLive(w, c) ==> v.node == c.node)
  }

  /** No request creates the claim; updates carry versions on live nodes. */
  predicate CopyRequest(w: World, c: Claim, r: Request) {
    r.claim.name == c.name ==>
      !r.change.Create? && (r.change.Update? ==> Copy(w, c, r.claim) && OnLive(w, r.claim))
  }

  /** API, cache and requests hold nothing but versions of the claim. */
  ghost predicate Copies(w: World, c: Claim) {
    && (c.name in w.claims ==> c.name in w.cache && Copy(w, c, w.claims[c.name]))
    && (c.name in w.cache ==> Copy(w, c, w.cache[c.name]))
    && forall r | r in Pending(w) :: CopyRequest(w, c, r)
  }

  lemma SameCopy(w: World, t: World, c: Claim, v: Claim)
    requires SameScene(w, t)
    ensures Copy(t, c, v) == Copy(w, c, v) && OnLive(t, v) == OnLive(w, v) && Alive(t, v) == Alive(w, v)
  {
    SameOwners(w, t, c.owners);
    SameOwners(w, t, v.owners);
  }

  predicate IsUpdate(r: Request, name: string) {
    r.claim.name == name && r.change.Update?
  }

  /** The claim in the API still waits for its first update, which will be accepted. */
  ghost predicate Waiting(w: World, name: string)
    requires name in w.claims && name in w.cache
  {
    && w.cache[name].version == w.claims[name].version
    && (forall r | r in Pending(w) && IsUpdate(r, name) :: r.claim.version == w.claims[name].version)
    && ((exists r | r in Pending(w) :: IsUpdate(r, name)) || (Due(w, name) && !OnLive(w, w.cache[name])))
  }

  /** What is known of a claim whose owners live: the cached one is on a live node or its key is
      due, and the API's one is on a live node or waits. */
  ghost predicate Rescued(w: World, c: Claim) {
    && Copies(w, c)
    && (Alive(w, c) && c.name in w.cache ==> OnLive(w, w.cache[c.name]) || Due(w, c.name))
    && (Alive(w, c) && c.name in w.claims ==> OnLive(w, w.claims[c.name]) || Waiting(w, c.name))
  }

  // ----- Steps -----

  /** Everything about the claim itself is the same, deletions that are asked for apart. */
  lemma SameButFor(w: World, t: World, c: Claim)
    requires Rescued(w, c) && SameScene(w, t)
    requires c.name in t.claims <==> c.name in w.claims
    requires c.name in w.claims ==> t.claims[c.name] == w.claims[c.name]
    requires c.name in t.cache <==> c.name in w.cache
    requires c.name in w.cache ==> t.cache[c.name] == w.cache[c.name]
    requires forall r: Request | r.claim.name == c.name && !r.change.Delete? :: r in Pending(t) <==> r in Pending(w)
    requires Due(w, c.name) ==> Due(t, c.name)
    ensures Rescued(t, c)
  {
    SameOwners(w, t, c.owners);
    forall v: Claim ensures Copy(t, c, v) == Copy(w, c, v) && OnLive(t, v) == OnLive(w, v) {
      SameCopy(w, t, c, v);
    }
    if r :| r in Pending(w) && IsUpdate(r, c.name) {
      assert r in Pending(t);
    }
  }

  /** The cache catches up, perhaps with an older version: then the key becomes due. */
  lemma DeliveredStays(w: World, name: string, t: World, c: Claim)
    requires KeysInOrder(w) && Rescued(w, c) && t == ClaimSynced(w, name)
    ensures Rescued(t, c)
  {
    AddKeepsKeysInOrder(w, name);
    assert Pending(t) == Pending(w);
    if name != c.name {
      SameButFor(w, t, c);
    } else if name in w.claims {
      ItsVersionDelivered(w, t, c);
    } else {
      ItIsForgotten(w, t, c);
    }
  }

  lemma ItsVersionDelivered(w: World, t: World, c: Claim)
    requires Rescued(w, c) && SameScene(w, t) && t.claims == w.claims && Pending(t) == Pending(w)
    requires c.name in w.claims && t.cache == w.cache[c.name := w.claims[c.name]] && Due(t, c.name)
    ensures Rescued(t, c)
  {
    SameOwners(w, t, c.owners);
    forall v: Claim ensures Copy(t, c, v) == Copy(w, c, v) && OnLive(t, v) == OnLive(w, v) {
      SameCopy(w, t, c, v);
    }
  }

  lemma ItIsForgotten(w: World, t: World, c: Claim)
    requires Rescued(w, c) && SameScene(w, t) && t.claims == w.claims && Pending(t) == Pending(w)
    requires c.name !in w.claims && c.name !in t.cache
    ensures Rescued(t, c)
  {
    forall v: Claim ensures Copy(t, c, v) == Copy(w, c, v) && OnLive(t, v) == OnLive(w, v) {
      SameCopy(w, t, c, v);
    }
  }

  /** A request for another claim is carried out. */
  lemma OtherHandled(w: World, r: Request, t: World, c: Claim, rest: seq<Request>, us: seq<Request>)
    requires Rescued(w, c) && SameScene(w, t) && Pending(w) == [r] + rest && Pending(t) == rest + us
    requires r.claim.name != c.name && forall u | u in us :: u.claim.name != c.name
    requires c.name in t.claims <==> c.name in w.claims
    requires c.name in w.claims ==> t.claims[c.name] == w.claims[c.name]
    requires t.cache == w.cache && (Due(w, c.name) ==> Due(t, c.name))
    ensures Rescued(t, c)
  {
    SameButFor(w, t, c);
  }

  /** What a request for the claim leaves pending. */
  lemma CopiesLeft(w: World, r: Request, t: World, c: Claim, rest: seq<Request>)
    requires Rescued(w, c) && SameScene(w, t) && Pending(w) == [r] + rest && Pending(t) == rest
    ensures forall q | q in Pending(t) :: CopyRequest(t, c, q)
    ensures forall v: Claim :: Copy(t, c, v) == Copy(w, c, v) && OnLive(t, v) == OnLive(w, v)
    ensures Alive(t, c) == Alive(w, c)
  {
    SameOwners(w, t, c.owners);
    forall v: Claim ensures Copy(t, c, v) == Copy(w, c, v) && OnLive(t, v) == OnLive(w, v) {
      SameCopy(w, t, c, v);
    }
    forall q | q in Pending(t) ensures CopyRequest(t, c, q) {
      assert q in Pending(w) && CopyRequest(w, c, q);
    }
  }

  lemma DeletionHandled(w: World, r: Request, t: World, c: Claim, rest: seq<Request>)
    requires Rescued(w, c) && SameScene(w, t) && Pending(w) == [r] + rest && Pending(t) == rest
    requires c.name !in t.claims && t.cache == w.cache && (Due(w, c.name) ==> Due(t, c.name))
    ensures Rescued(t, c)
  {
    CopiesLeft(w, r, t, c, rest);
  }

  lemma UpdateAccepted(w: World, r: Request, t: World, c: Claim, rest: seq<Request>)
    requires Rescued(w, c) && SameScene(w, t) && Pending(w) == [r] + rest && Pending(t) == rest
    requires IsUpdate(r, c.name) && Accepted(w, r) && t.claims == StoredAfter(w.claims, w.strict, r)
    requires t.cache == w.cache && (Due(w, c.name) ==> Due(t, c.name))
    ensures Rescued(t, c)
  {
    CopiesLeft(w, r, t, c, rest);
    assert CopyRequest(w, c, r);
    var v := t.claims[c.name];
    assert v == r.claim.(version := v.version) && Copy(w, c, v) && OnLive(w, v);
  }

  /** An update that is rejected finds a claim that no longer waits. */
  lemma UpdateRejected(w: World, r: Request, t: World, c: Claim, rest: seq<Request>)
    requires Rescued(w, c) && SameScene(w, t) && Pending(w) == [r] + rest && Pending(t) == rest
    requires IsUpdate(r, c.name) && c.name in w.claims && !Accepted(w, r) && t.claims == w.claims
    requires t.cache == w.cache && (Due(w, c.name) ==> Due(t, c.name))
    ensures Rescued(t, c)
  {
    CopiesLeft(w, r, t, c, rest);
    assert r in Pending(w) && (Alive(w, c) ==> OnLive(w, w.claims[c.name]));
  }

  lemma ItsRequestHandled(w: World, r: Request, t: World, c: Claim, rest: seq<Request>)
    requires Rescued(w, c) && SameScene(w, t) && Pending(w) == [r] + rest && Pending(t) == rest
    requires r.claim.name == c.name && t.claims == StoredAfter(w.claims, w.strict, r)
    requires t.cache == w.cache && (Due(w, c.name) ==> Due(t, c.name))
    ensures Rescued(t, c)
  {
    assert r in Pending(w) && CopyRequest(w, c, r);
    if r.change.Delete? || c.name !in w.claims {
      DeletionHandled(w, r, t, c, rest);
    } else if Accepted(w, r) {
      UpdateAccepted(w, r, t, c, rest);
    } else {
      UpdateRejected(w, r, t, c, rest);
    }
  }

  lemma HandledStays(w: World, offer: Offers, c: Claim)
    requires Sound(w, offer) && w.busy.Some? && Rescued(w, c)
    ensures Serviceable(w) && Rescued(ChangeHandled(w), c)
  {
    SoundIsServiceable(w, offer);
    HandlingPops(w);
    var r, t := w.busy.value.request, ChangeHandled(w);
    AppliedStores(w, r);
    OneHandled(w, r, t, c, Pending(w)[1..]);
  }

  lemma OneHandled(w: World, r: Request, t: World, c: Claim, rest: seq<Request>)
    requires Rescued(w, c) && (r.change.Create? ==> r.claim.owners != [])
    requires forall n | n in w.claims :: w.claims[n].name == n
    requires Pending(w) == [r] + rest && Pending(t) == rest + Reaction(w, r)
    requires t == w.(claims := StoredAfter(w.claims, w.strict, r), changes := t.changes, next := t.next, busy := None)
    ensures Rescued(t, c)
  {
    assert r in Pending(w) && CopyRequest(w, c, r);
    if r.claim.name != c.name {
      OtherHandled(w, r, t, c, rest, Reaction(w, r));
    } else {
      assert Reaction(w, r) == [] && rest + [] == rest;
      ItsRequestHandled(w, r, t, c, rest);
    }
  }

  // ----- Processing a key -----

  /** Another key was processed: requests were added that concern the claim only as deletions. */
  lemma OtherProcessed(w: World, t: World, c: Claim, rs: seq<Request>)
    requires Rescued(w, c) && SameScene(w, t) && t.claims == w.claims && Pending(t) == Pending(w) + rs
    requires c.name in t.cache <==> c.name in w.cache
    requires c.name in w.cache ==> t.cache[c.name] == w.cache[c.name]
    requires forall r | r in rs :: r.claim.name == c.name ==> r.change.Delete?
    requires Due(w, c.name) ==> Due(t, c.name)
    ensures Rescued(t, c)
  {
    SameButFor(w, t, c);
  }

  /** The claim's own key was processed, its owners being alive. */
  lemma ItIsProcessed(w: World, t: World, c: Claim, e: Claim, rs: seq<Request>)
    requires Rescued(w, c) && SameScene(w, t) && t.claims == w.claims && Pending(t) == Pending(w) + rs
    requires c.name in w.cache && t.cache == w.cache[c.name := e]
    requires Copy(w, c, e) && OnLive(w, e) && e.version == w.cache[c.name].version
    requires forall r | r in rs :: r == Request(Update, e)
    requires !OnLive(w, w.cache[c.name]) ==> rs != []
    ensures Rescued(t, c)
  {
    SameOwners(w, t, c.owners);
    forall v: Claim ensures Copy(t, c, v) == Copy(w, c, v) && OnLive(t, v) == OnLive(w, v) {
      SameCopy(w, t, c, v);
    }
    if c.name in w.claims && Alive(w, c) && !OnLive(w, w.claims[c.name]) {
      StillWaits(w, t, c, e, rs);
    }
  }

  lemma StillWaits(w: World, t: World, c: Claim, e: Claim, rs: seq<Request>)
    requires SameScene(w, t) && t.claims == w.claims && Pending(t) == Pending(w) + rs
    requires c.name in w.claims && c.name in w.cache && t.cache == w.cache[c.name := e] && Waiting(w, c.name)
    requires e.name == c.name && e.version == w.cache[c.name].version
    requires forall r | r in rs :: r == Request(Update, e)
    requires !OnLive(w, w.cache[c.name]) ==> rs != []
    ensures Waiting(t, c.name)
  {
    if r :| r in Pending(w) && IsUpdate(r, c.name) {
      assert r in Pending(t);
    } else {
      assert rs[0] in rs && rs[0] in Pending(t) && IsUpdate(rs[0], c.name);
    }
  }

  /** The claim that processing leaves is one more version. */
  lemma OutcomeIsCopy(w: World, offer: Offers, c: Claim)
    requires Steady(w, offer) && c.name in w.cache && Copy(w, c, w.cache[c.name]) && Alive(w, w.cache[c.name])
    ensures var (e, rs) := ClaimOutcome(w, c.name);
            && Copy(w, c, e) && OnLive(w, e) && e.version == w.cache[c.name].version
            && (!OnLive(w, w.cache[c.name]) ==> rs != [])
  {
    OutcomeImproves(w, offer, c.name);
    AllAliveStay(w, ClaimOutcome(w, c.name).0.owners);
  }

  lemma AliveAsks(w: World, key: string)
    requires GoodQueue(w) && ValidPools(w.pools) && key in w.cache && Alive(w, w.cache[key])
    ensures Pending(ClaimProcessed(w, key).0) == Pending(w) + ClaimOutcome(w, key).1
  {
    var (e, rs) := ClaimOutcome(w, key);
    var u := w.(cache := w.cache[key := e]);
    assert Pending(u) == Pending(w);
    SendAllAppends(u, rs);
  }

  lemma DeadAsks(w: World, key: string)
    requires GoodQueue(w) && ValidPools(w.pools) && key in w.cache && !Alive(w, w.cache[key])
    ensures var r := ReleaseRequest(w.pools, w.mask, AddressOf(w.cache[key].cidr));
            r.change.Delete? && Pending(ClaimProcessed(w, key).0) == Pending(w) + [r]
  {
    var r := ReleaseRequest(w.pools, w.mask, AddressOf(w.cache[key].cidr));
    SendAppends(w, r);
    assert Pending(ClaimProcessed(w, key).0) == Pending(Send(w, r));
  }

  /** What processing a cached claim asks for. */
  lemma ProcessedAsks(w: World, offer: Offers, key: string) returns (rs: seq<Request>)
    requires Steady(w, offer) && w.stage == KeyTaken(key) && key in w.cache
    ensures Pending(KeyProcessed(w)) == Pending(w) + rs
    ensures if Alive(w, w.cache[key]) then rs == ClaimOutcome(w, key).1
            else forall r | r in rs :: r.change.Delete?
  {
    if Alive(w, w.cache[key]) {
      AliveAsks(w, key);
      rs := ClaimOutcome(w, key).1;
    } else {
      DeadAsks(w, key);
      rs := [ReleaseRequest(w.pools, w.mask, AddressOf(w.cache[key].cidr))];
    }
    assert Pending(KeyProcessed(w)) == Pending(ClaimProcessed(w, key).0);
  }

  lemma KeyProcessedStays(w: World, offer: Offers, t: World, c: Claim)
    requires Steady(w, offer) && w.stage.KeyTaken? && t == KeyProcessed(w) && SameScene(w, t) && Rescued(w, c)
    requires Due(w, c.name) ==> Due(t, c.name) || w.stage.key == c.name
    ensures Rescued(t, c)
  {
    var key := w.stage.key;
    ProcessingSucceeds(w);
    if key in w.cache {
      var rs := ProcessedAsks(w, offer, key);
      if key == c.name && Alive(w, w.cache[key]) {
        OutcomeIsCopy(w, offer, c);
        ItIsProcessed(w, t, c, ClaimOutcome(w, key).0, rs);
      } else if key == c.name {
        DeadOneProcessed(w, t, c, rs);
      } else {
        assert w.cache[key].name == key;
        OtherProcessed(w, t, c, rs);
      }
    } else {
      assert Pending(t) == Pending(w);
      MissingOneProcessed(w, t, c);
    }
  }

  lemma DeadOneProcessed(w: World, t: World, c: Claim, rs: seq<Request>)
    requires Rescued(w, c) && SameScene(w, t) && t.claims == w.claims && t.cache == w.cache
    requires Pending(t) == Pending(w) + rs && forall r | r in rs :: r.change.Delete?
    requires c.name in w.cache && !Alive(w, w.cache[c.name])
    ensures Rescued(t, c)
  {
    SameOwners(w, t, c.owners);
    forall v: Claim ensures Copy(t, c, v) == Copy(w, c, v) && OnLive(t, v) == OnLive(w, v) {
      SameCopy(w, t, c, v);
    }
  }

  lemma MissingOneProcessed(w: World, t: World, c: Claim)
    requires Rescued(w, c) && SameScene(w, t) && t.claims == w.claims && t.cache == w.cache && Pending(t) == Pending(w)
    requires (Due(w, c.name) ==> Due(t, c.name)) || c.name !in w.cache
    ensures Rescued(t, c)
  {
    SameOwners(w, t, c.owners);
    forall v: Claim ensures Copy(t, c, v) == Copy(w, c, v) && OnLive(t, v) == OnLive(w, v) {
      SameCopy(w, t, c, v);
    }
  }

  // ----- All steps -----

  lemma QuietWorkStays(w: World, offer: Offers, step: Step, t: World, c: Claim)
    requires Steady(w, offer) && Goes(w, step, t) && SameScene(w, t) && Rescued(w, c)
    requires step.TakeChange? || step.TakeKey? || step.FinishKey?
    ensures Rescued(t, c)
  {
    KeyStepKeepsDue(w, offer, step, t);
    if step.TakeChange? {
      TakenFromExclusive(w.changes);
      TakingKeepsPending(w);
    }
    assert Pending(t) == Pending(w);
    SameButFor(w, t, c);
  }

  lemma ResyncedStays(w: World, name: string, t: World, c: Claim)
    requires KeysInOrder(w) && Rescued(w, c) && t == ClaimResynced(w, name)
    ensures Rescued(t, c)
  {
    AddKeepsKeysInOrder(w, name);
    assert Pending(t) == Pending(w);
    SameButFor(w, t, c);
  }

  /** No step of workers and informer loses the claim. */
  lemma StepRescues(w: World, offer: Offers, step: Step, t: World, c: Claim)
    requires Steady(w, offer) && Moves(w, step, t) && Rescued(w, c)
    ensures Rescued(t, c)
  {
    SceneStays(w, offer, step, t);
    if step.SyncClaim? {
      DeliveredStays(w, step.name, t, c);
    } else if step.ResyncClaim? {
      ResyncedStays(w, step.name, t, c);
    } else if step.HandleChange? {
      HandledStays(w, offer, c);
    } else if step.ProcessKey? {
      KeyStepKeepsDue(w, offer, step, t);
      KeyProcessedStays(w, offer, t, c);
    } else {
      QuietWorkStays(w, offer, step, t, c);
    }
  }

  // ----- Runs -----

  /** All that is kept on the way. */
  ghost predicate OnTheWay(w0: World, w: World, offer: Offers, c: Claim) {
    Steady(w, offer) && SameScene(w0, w) && Rescued(w, c)
  }

  lemma WayGoesOn(w0: World, w: World, offer: Offers, step: Step, t: World, c: Claim)
    requires OnTheWay(w0, w, offer, c) && Moves(w, step, t)
    ensures OnTheWay(w0, t, offer, c)
  {
    StaysSteady(w, offer, step, t);
    SceneStays(w, offer, step, t);
    StepRescues(w, offer, step, t, c);
  }

  /** From point n - 1 to point n. */
  lemma NextOnTheWay(w0: World, ws: seq<World>, steps: seq<Step>, offer: Offers, c: Claim, n: nat)
    requires InformedRun(ws, steps) && 0 < n <= |steps| && OnTheWay(w0, ws[n - 1], offer, c)
    ensures OnTheWay(w0, ws[n], offer, c)
  {
    assert MovesAt(ws, steps, n - 1);
    WayGoesOn(w0, ws[n - 1], offer, steps[n - 1], ws[n], c);
  }

  lemma {:induction false} RunRescues(w0: World, ws: seq<World>, steps: seq<Step>, offer: Offers, c: Claim, n: nat)
    requires InformedRun(ws, steps) && OnTheWay(w0, ws[0], offer, c) && n <= |steps|
    ensures OnTheWay(w0, ws[n], offer, c)
  {
    if n > 0 {
      RunRescues(w0, ws, steps, offer, c, n - 1);
      NextOnTheWay(w0, ws, steps, offer, c, n);
    }
  }

  lemma {:induction false} RunKeepsScene(ws: seq<World>, steps: seq<Step>, offer: Offers, n: nat)
    requires InformedRun(ws, steps) && Steady(ws[0], offer) && n <= |steps|
    ensures Steady(ws[n], offer) && SameScene(ws[0], ws[n])
  {
    if n > 0 {
      RunKeepsScene(ws, steps, offer, n - 1);
      assert MovesAt(ws, steps, n - 1);
      StaysSteady(ws[n - 1], offer, steps[n - 1], ws[n]);
      SceneStays(ws[n - 1], offer, steps[n - 1], ws[n]);
    }
  }

  /** Right after the tick a stranded claim is due as well, and one on a live node is safe. */
  lemma TickStarts(w: World, order: seq<string>, t: World, offer: Offers, k: string)
    requires AfterTick(w, order, t, offer) && Pending(w) == [] && k in w.claims
    requires Stranded(w, w.claims[k]) || OnLive(t, w.claims[k]) || Due(t, k)
    ensures Steady(t, offer) && Rescued(t, w.claims[k])
  {
    TickIsSteady(w, order, t, offer);
    TickedTouchesOnlyKeys(w, order, w.nodes);
    assert Pending(t) == [] && w.claims[k].name == k;
    if Stranded(w, w.claims[k]) {
      StrandedIsDue(w, order, t, offer, k);
    }
  }

  /** Failover with a live informer: after a tick with nothing pending and a drain of both
      queues, in whatever order claims are delivered, processed and written, every claim that
      the API still holds and whose owners live is on a live node if it sat on a node found
      dead or its key was due, and where it was if it sat on a live node; and so is every cached
      claim once the keys are drained. */
  lemma FailoverSurvivesTheInformer(w: World, order: seq<string>, ws: seq<World>, steps: seq<Step>, offer: Offers,
                                    k: string)
    requires |ws| == |steps| + 1 && AfterTick(w, order, ws[0], offer) && Pending(w) == []
    requires InformedRun(ws, steps) && NoKeysLeft(ws[|steps|]) && k in w.claims
    requires Stranded(w, w.claims[k]) || OnLive(ws[0], w.claims[k]) || Due(ws[0], k)
    ensures var t, c := ws[|steps|], w.claims[k];
            && SameScene(ws[0], t)
            && (k in t.claims ==> (Alive(t, t.claims[k]) <==> Alive(t, c)))
            && (k in t.cache && Alive(t, c) ==> OnLive(t, t.cache[k]))
            && (k in t.cache && OnLive(t, c) ==> t.cache[k].node == c.node)
            && (k in t.claims && Alive(t, c) && Pending(t) == [] ==> OnLive(t, t.claims[k]))
            && (k in t.claims && OnLive(t, c) ==> t.claims[k].node == c.node)
  {
    TickStarts(w, order, ws[0], offer, k);
    RunRescues(ws[0], ws, steps, offer, w.claims[k], |steps|);
    NothingDueAtTheEnd(ws[|steps|], k);
    assert w.claims[k].name == k;
  }
}
