/** Failover reaches the API: once the change queue has drained too, every claim the API still
    holds is stored on the node the scheduler chose for it. */
module FailoverWritten {
  import opened Naming
  import opened QueueRuns
  import opened Cluster
  import opened ClaimNames
  import opened Soundness
  import opened Failover

  /** An update of claim `k` waits to be carried out. */
  predicate UpdateOf(r: Request, k: string) {
    r.change.Update? && r.claim.name == k
  }

  /** The API and the cache hold the same claim and nobody is about to write it. */
  ghost predicate Untouched(w: World, k: string)
    requires k in w.cache && k in w.claims
  {
    w.claims[k] == w.cache[k] && forall r | r in Pending(w) :: !UpdateOf(r, k)
  }

  /** The claim needs no further change, and the API has its node or is about to accept it. */
  ghost predicate Written(w: World, k: string)
    requires k in w.cache && k in w.claims
  {
    var c := w.cache[k];
    && OnLive(w, c) && Alive(w, c) && (forall o | o in c.owners :: OwnerAlive(w, o))
    && (forall r | r in Pending(w) && UpdateOf(r, k) :: r.claim == c)
    && (w.claims[k].node == c.node || (Request(Update, c) in Pending(w) && c.version == w.claims[k].version))
  }

  ghost predicate Agreeing(w: World, k: string) {
    && (forall r | r in Pending(w) :: !r.change.Create?)
    && (k in w.claims ==> k in w.cache && w.cache[k].name == k && (Untouched(w, k) || Written(w, k)))
  }

  /** `t` is `w` with other requests pending, and the same claims. */
  ghost predicate SameClaims(w: World, t: World) {
    && t.services == w.services && t.existing == w.existing && t.live == w.live && t.strict == w.strict
    && t.claims == w.claims && t.cache == w.cache
  }

  lemma SameClaimsAgree(w: World, t: World, k: string, more: seq<Request>)
    requires SameClaims(w, t) && Agreeing(w, k) && Pending(t) == Pending(w) + more
    requires forall r | r in more :: r.change.Delete?
    ensures Agreeing(t, k)
  {
    if k in w.claims {
      SameOwners(w, t, w.cache[k].owners);
    }
  }

  // ----- The change worker -----

  /** The first pending request concerns another claim: it changes nothing for this one. */
  lemma OtherApplied(w: World, t: World, k: string, r: Request, rest: seq<Request>)
    requires Agreeing(w, k) && Pending(w) == [r] + rest && Pending(t) == rest && !r.change.Create? && r.claim.name != k
    requires SameClaims(w.(claims := t.claims), t)
    requires (k in t.claims <==> k in w.claims) && (k in w.claims ==> t.claims[k] == w.claims[k])
    ensures Agreeing(t, k)
  {
    assert forall q | q in rest :: q in Pending(w);
    assert forall q | q in Pending(w) && q != r :: q in rest;
    if k in t.claims {
      SameOwners(w, t, w.cache[k].owners);
      assert w.cache[k].name == k && Request(Update, w.cache[k]) != r;
    }
  }

  lemma UpdateApplied(w: World, t: World, k: string, r: Request, rest: seq<Request>)
    requires Agreeing(w, k) && Pending(w) == [r] + rest && Pending(t) == rest && r.claim.name == k && r.change.Update?
    requires SameClaims(w.(claims := t.claims), t) && t.claims == Applied(w, r).claims && k in t.claims
    ensures Agreeing(t, k)
  {
    assert r in Pending(w);
    assert forall q | q in rest :: q in Pending(w);
    assert UpdateOf(r, k) && Written(w, k) && r.claim == w.cache[k];
    SameOwners(w, t, w.cache[k].owners);
    assert t.claims[k].node == w.cache[k].node;
  }

  lemma DeleteApplied(w: World, t: World, k: string, r: Request, rest: seq<Request>)
    requires Agreeing(w, k) && Pending(w) == [r] + rest && Pending(t) == rest && k !in t.claims
    ensures Agreeing(t, k)
  {
    assert forall q | q in rest :: q in Pending(w);
  }

  lemma AppliedAgrees(w: World, t: World, k: string, r: Request, rest: seq<Request>)
    requires Agreeing(w, k) && Pending(w) == [r] + rest && Pending(t) == rest && !r.change.Create?
    requires SameClaims(w.(claims := t.claims), t) && t.claims == Applied(w, r).claims
    ensures Agreeing(t, k)
  {
    if r.claim.name != k {
      OtherApplied(w, t, k, r, rest);
    } else if k !in t.claims {
      DeleteApplied(w, t, k, r, rest);
    } else {
      UpdateApplied(w, t, k, r, rest);
    }
  }

  lemma ChangeHandledAgrees(w: World, offer: Offers, k: string)
    requires Steady(w, offer) && w.busy.Some? && Serviceable(w) && Agreeing(w, k)
    ensures Agreeing(ChangeHandled(w), k)
  {
    var r, rest := w.busy.value.request, Pending(w)[1..];
    HandlingPops(w);
    assert Pending(w) == [r] + rest;
    assert r in Pending(w);
    assert rest + [] == rest;
    AppliedAgrees(w, ChangeHandled(w), k, r, rest);
  }

  // ----- The key worker -----

  /** What processing a claim with a living owner asks for. */
  lemma ProcessingAsks(w: World, offer: Offers, key: string)
    requires Steady(w, offer) && key in w.cache && Alive(w, w.cache[key])
    ensures Pending(ClaimProcessed(w, key).0) == Pending(w) + ClaimOutcome(w, key).1
  {
    var (e, rs) := ClaimOutcome(w, key);
    SameKeysSound(w, w.(cache := w.cache[key := e]));
    SendAllAppends(w.(cache := w.cache[key := e]), rs);
  }

  lemma SameKeysSound(w: World, t: World)
    requires GoodQueue(w) && t == w.(cache := t.cache)
    ensures GoodQueue(t) && Pending(t) == Pending(w)
  {
  }

  /** Nothing is asked for exactly when the claim stays as it is. */
  lemma SettledAsksNothing(w: World, key: string)
    requires key in w.cache && Alive(w, w.cache[key]) && ValidPools(w.pools) && LiveNodes(w.nodes, w.live) != []
    ensures ClaimOutcome(w, key).1 == [] ==> ClaimOutcome(w, key).0 == w.cache[key]
    ensures OnLive(w, w.cache[key]) && OwnersAlive(w, w.cache[key].owners) == w.cache[key].owners ==>
              ClaimOutcome(w, key) == (w.cache[key], [])
  {
  }

  lemma ReleasingAsks(w: World, offer: Offers, key: string) returns (r: Request)
    requires Steady(w, offer) && key in w.cache && !Alive(w, w.cache[key])
    ensures r.change.Delete? && Pending(ClaimProcessed(w, key).0) == Pending(w) + [r]
  {
    var ip := AddressOf(w.cache[key].cidr);
    r := ReleaseRequest(w.pools, w.mask, ip);
    SendAppends(w, r);
    assert Pending(Released(w, ip)) == Pending(Send(w, r));
  }

  /** The claim that was processed becomes `e`, asked for by `rs`. */
  lemma OutcomeAgrees(w: World, t: World, k: string, e: Claim, rs: seq<Request>)
    requires Agreeing(w, k) && k in w.cache && SameClaims(w.(cache := t.cache), t) && t.cache == w.cache[k := e]
    requires Pending(t) == Pending(w) + rs && forall r | r in rs :: r == Request(Update, e)
    requires e.name == w.cache[k].name && e.version == w.cache[k].version
    requires OnLive(w, e) && Alive(w, e) && forall o | o in e.owners :: OwnerAlive(w, o)
    requires rs == [] ==> e == w.cache[k]
    requires k in w.claims && Written(w, k) ==> e == w.cache[k] && rs == []
    ensures Agreeing(t, k)
  {
    if k in w.claims {
      SameOwners(w, t, e.owners);
      if rs == [] {
        assert Pending(t) == Pending(w);
      } else {
        assert rs[0] in Pending(t);
      }
    }
  }

  lemma OthersAgree(w: World, t: World, k: string, key: string, rs: seq<Request>)
    requires Agreeing(w, k) && k != key && SameClaims(w.(cache := t.cache), t)
    requires k in w.cache ==> k in t.cache && t.cache[k] == w.cache[k]
    requires Pending(t) == Pending(w) + rs && forall r | r in rs :: r.change.Update? && r.claim.name == key
    ensures Agreeing(t, k)
  {
    if k in w.claims {
      SameOwners(w, t, w.cache[k].owners);
    }
  }

  lemma AliveKeyAgrees(w: World, offer: Offers, k: string, t: World)
    requires Steady(w, offer) && w.stage.KeyTaken? && w.stage.key in w.cache && Alive(w, w.cache[w.stage.key])
    requires Agreeing(w, k) && t == KeyProcessed(w)
    ensures Agreeing(t, k)
  {
    var key := w.stage.key;
    var (e, rs) := ClaimOutcome(w, key);
    ProcessingAsks(w, offer, key);
    ProcessingSucceeds(w);
    assert Pending(t) == Pending(ClaimProcessed(w, key).0);
    assert w.cache[key].name == key;
    if k == key {
      OutcomeImproves(w, offer, key);
      SettledAsksNothing(w, key);
      AllAliveStay(w, e.owners);
      if key in w.claims && Written(w, key) {
        AllAliveStay(w, w.cache[key].owners);
      }
      OutcomeAgrees(w, t, k, e, rs);
    } else {
      OthersAgree(w, t, k, key, rs);
    }
  }

  lemma KeyProcessedAgrees(w: World, offer: Offers, k: string)
    requires Steady(w, offer) && w.stage.KeyTaken? && Agreeing(w, k)
    ensures Agreeing(KeyProcessed(w), k)
  {
    var key, t := w.stage.key, KeyProcessed(w);
    ProcessingSucceeds(w);
    if key !in w.cache {
      assert Pending(t) == Pending(w) + [];
      SameClaimsAgree(w, t, k, []);
    } else if Alive(w, w.cache[key]) {
      AliveKeyAgrees(w, offer, k, t);
    } else {
      var r := ReleasingAsks(w, offer, key);
      assert Pending(t) == Pending(ClaimProcessed(w, key).0);
      assert w.cache[key := w.cache[key]] == w.cache;
      SameClaimsAgree(w, t, k, [r]);
    }
  }

  lemma WorkingAgrees(w: World, offer: Offers, step: Step, t: World, k: string)
    requires Steady(w, offer) && Working(step) && Goes(w, step, t) && Agreeing(w, k)
    ensures Steady(t, offer) && Agreeing(t, k)
  {
    WorkingIsSteady(w, offer, step, t);
    if step.HandleChange? {
      ChangeHandledAgrees(w, offer, k);
    } else if step.ProcessKey? {
      KeyProcessedAgrees(w, offer, k);
    } else {
      if step.TakeChange? {
        TakenFromExclusive(w.changes);
        TakingKeepsPending(w);
      }
      assert Pending(t) == Pending(w) + [];
      SameClaimsAgree(w, t, k, []);
    }
  }

  lemma AgreesOn(ws: seq<World>, steps: seq<Step>, offer: Offers, k: string, n: nat)
    requires WorkerRun(ws, steps) && 0 < n <= |steps| && Steady(ws[n - 1], offer) && Agreeing(ws[n - 1], k)
    ensures Steady(ws[n], offer) && Agreeing(ws[n], k)
  {
    StepOfWorkers(ws, steps, n);
    WorkingAgrees(ws[n - 1], offer, steps[n - 1], ws[n], k);
  }

  lemma {:induction false} RunAgrees(ws: seq<World>, steps: seq<Step>, offer: Offers, k: string, n: nat)
    requires WorkerRun(ws, steps) && Steady(ws[0], offer) && Agreeing(ws[0], k) && n <= |steps|
    ensures Steady(ws[n], offer) && Agreeing(ws[n], k)
  {
    if n > 0 {
      RunAgrees(ws, steps, offer, k, n - 1);
      AgreesOn(ws, steps, offer, k, n);
    }
  }

  /** After the tick and a drain of both queues, in the API: no claim with a living owner that
      the API still holds is stored on a node found dead, and no claim that sat on a live node
      has moved. */
  lemma FailoverIsWritten(w: World, order: seq<string>, ws: seq<World>, steps: seq<Step>, offer: Offers, k: string)
    requires |ws| == |steps| + 1 && AfterTick(w, order, ws[0], offer) && Pending(w) == []
    requires WorkerRun(ws, steps) && NoKeysLeft(ws[|steps|]) && Pending(ws[|steps|]) == []
    requires k in w.claims && k in ws[|steps|].claims
    ensures var t := ws[|steps|];
            && k in t.cache && t.claims[k].node == t.cache[k].node
            && (Stranded(w, w.claims[k]) && Alive(t, w.claims[k]) ==> OnLive(t, t.claims[k]))
            && (OnLive(t, w.claims[k]) ==> t.claims[k].node == w.claims[k].node)
  {
    TickIsSteady(w, order, ws[0], offer);
    TickedTouchesOnlyKeys(w, order, w.nodes);
    assert Pending(ws[0]) == [];
    assert w.cache[k].name == k;
    RunAgrees(ws, steps, offer, k, |steps|);
    FailoverIsComplete(w, order, ws, steps, offer, k);
  }
}
