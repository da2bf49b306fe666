/** What every step of the scheduler keeps, and the steps themselves. */
module Soundness {
  import opened Strings
  import opened Naming
  import opened WorkQueue
  import opened QueueRuns
  import opened Cluster
  import opened ClaimNames

  // ----- Steps -----

  datatype Step =
    | ServiceEvent(key: string, cur: Option<Service>)  // added, updated or deleted
    | TakeChange
    | HandleChange
    | SyncClaim(name: string)                          // the claim informer catches up
    | ResyncClaim(name: string)                        // the claim informer's periodic resync
    | TakeKey
    | ProcessKey
    | FinishKey
    | Tick(order: seq<string>)                         // the API lists claims in this order
    | ApiChanges(existing: set<string>, nodes: seq<Node>)

  predicate Enabled(w: World, step: Step) {
    match step
    case ServiceEvent(_, cur) => cur.Some? ==> forall ip | ip in cur.value.ips :: Plain(ip)
    case TakeChange => w.busy.None? && Taken(w.changes).0.Item?
    case HandleChange => w.busy.Some?
    case TakeKey => w.stage.NoKey? && Taken(w.keys).0.Item?
    case ProcessKey => w.stage.KeyTaken?
    case FinishKey => w.stage.KeyHandled?
    case _ => true
  }

  ghost function Do(w: World, step: Step): World
    requires Enabled(w, step) && ValidPools(w.pools)
    requires step.HandleChange? ==> Serviceable(w)
  {
    match step
    case ServiceEvent(key, cur) => ServiceHandled(w, key, cur)
    case TakeChange => ChangeTaken(w)
    case HandleChange => ChangeHandled(w)
    case SyncClaim(name) => ClaimSynced(w, name)
    case ResyncClaim(name) => ClaimResynced(w, name)
    case TakeKey => KeyTakenFrom(w)
    case ProcessKey => KeyProcessed(w)
    case FinishKey => KeyFinished(w)
    case Tick(order) => Ticked(w, order, w.nodes)
    case ApiChanges(existing, nodes) => w.(existing := existing, nodes := nodes)
  }

  // ----- Good claims -----

  /** No owner twice; a scheduled claim carries its node as label; and name and CIDR are
      those of one address, with the default mask unless a pool offers the address. */
  ghost predicate GoodClaim(c: Claim, mask: string, offer: Offers) {
    && NoDuplicates(c.owners)
    && (c.node != "" ==> "ipnode" in c.labels && c.labels["ipnode"] == c.node)
    && |Split(c.cidr, '/')| == 2
    && var ip, m := AddressOf(c.cidr), MaskOf(c.cidr);
       && Plain(ip) && Plain(m) && c.name == ClaimName(ip, m)
       && (m == mask || !Outside(offer, ip))
  }

  ghost predicate GoodRequest(r: Request, mask: string, offer: Offers) {
    GoodClaim(r.claim, mask, offer) && (r.change.Create? ==> |r.claim.owners| == 1)
  }

  ghost predicate GoodClaims(claims: map<string, Claim>, mask: string, offer: Offers) {
    forall n | n in claims :: claims[n].name == n && GoodClaim(claims[n], mask, offer)
  }

  ghost predicate Sound(w: World, offer: Offers) {
    && GoodQueue(w) && PoolsAre(w.pools, offer) && PlainWorld(w)
    && (forall r | r in Pending(w) :: GoodRequest(r, w.mask, offer))
    && GoodClaims(w.claims, w.mask, offer) && GoodClaims(w.cache, w.mask, offer)
  }

  lemma MakeClaimIsGood(ip: string, m: string, owners: seq<string>, mask: string, offer: Offers)
    requires Plain(ip) && Plain(m) && NoDuplicates(owners) && (m == mask || !Outside(offer, ip))
    ensures GoodClaim(MakeClaim(ip, m, owners), mask, offer)
  {
    CidrRoundTrip(ip, m);
  }

  lemma SoundIsServiceable(w: World, offer: Offers)
    requires Sound(w, offer) && w.busy.Some?
    ensures Serviceable(w) && GoodRequest(w.busy.value.request, w.mask, offer)
  {
    assert Pending(w)[0] == w.busy.value.request;
    assert w.busy.value.request in Pending(w);
  }

  // ----- Sending -----

  lemma SendIsSound(w: World, offer: Offers, r: Request)
    requires Sound(w, offer) && GoodRequest(r, w.mask, offer)
    ensures Sound(Send(w, r), offer)
  {
    SendAppends(w, r);
  }

  lemma {:induction false} SendAllIsSound(w: World, offer: Offers, rs: seq<Request>)
    requires Sound(w, offer) && forall r | r in rs :: GoodRequest(r, w.mask, offer)
    ensures Sound(SendAll(w, rs), offer)
    decreases |rs|
  {
    if rs != [] {
      SendIsSound(w, offer, rs[0]);
      SendAllIsSound(Send(w, rs[0]), offer, rs[1..]);
    }
  }

  lemma {:induction false} ClaimRequestsAreGood(w: World, offer: Offers, key: string, ips: seq<string>)
    requires Plain(w.mask) && forall ip | ip in ips :: Plain(ip)
    ensures forall r | r in ClaimRequests(w.pools, w.mask, key, ips) ::
              r.change.Create? && GoodRequest(r, w.mask, offer)
    ensures forall r | r in ClaimRequests(w.pools, w.mask, key, ips) :: r.claim.owners == [key]
    decreases |ips|
  {
    if ips != [] {
      ClaimRequestsAreGood(w, offer, key, ips[1..]);
      MakeClaimIsGood(ips[0], w.mask, [key], w.mask, offer);
    }
  }

  lemma InOfferIsInside(offer: Offers, i: nat, ip: string)
    requires i < |offer| && ip in offer[i]
    ensures !Outside(offer, ip)
  {
  }

  lemma AllocateIsSound(w: World, offer: Offers, key: string, i: nat, ip: string)
    requires Sound(w, offer) && key in w.services && i < |w.pools| && HasMask(w.pools[i].spec) && ip in offer[i]
    ensures Sound(Allocate(w, key, i, ip), offer)
  {
    assert PoolIs(w.pools[i], offer[i]);
    InOfferIsInside(offer, i, ip);
    MakeClaimIsGood(ip, PoolMask(w.pools[i]), [key], w.mask, offer);
    var claim := GrantClaim(w.pools[i], ip, key);
    var t := Send(w, Request(Create, claim));
    SendIsSound(w, offer, Request(Create, claim));
    AllocatingKeepsPools(w.pools, offer, i, ip, claim.name);
    assert Pending(Allocate(w, key, i, ip)) == Pending(t);
  }

  lemma ReleasedIsSound(w: World, offer: Offers, ip: string)
    requires Sound(w, offer) && Plain(ip)
    ensures Sound(Released(w, ip), offer)
  {
    var i := PoolOf(w.pools, ip);
    if i.Some? {
      assert PoolIs(w.pools[i.value], offer[i.value]);
      InOfferIsInside(offer, i.value, ip);
    }
    MakeClaimIsGood(ip, if i.Some? then PoolMask(w.pools[i.value]) else w.mask, [], w.mask, offer);
    var r := ReleaseRequest(w.pools, w.mask, ip);
    SendIsSound(w, offer, r);
    ReleasingKeepsPools(w.pools, offer, ip);
    assert Pending(Released(w, ip)) == Pending(Send(w, r));
  }

  lemma {:induction false} DroppedIsSound(w: World, offer: Offers, ips: seq<string>, refs: set<string>)
    requires Sound(w, offer) && forall ip | ip in ips :: Plain(ip)
    ensures Sound(Dropped(w, ips, refs), offer)
    decreases |ips|
  {
    if ips != [] {
      if ips[0] in refs {
        DroppedIsSound(w, offer, ips[1..], refs);
      } else {
        ReleasedIsSound(w, offer, ips[0]);
        DroppedIsSound(Released(w, ips[0]), offer, ips[1..], refs);
      }
    }
  }

  lemma ExternalIPsProcessedIsSound(w: World, offer: Offers, key: string)
    requires Sound(w, offer) && key in w.services
    ensures Sound(ExternalIPsProcessed(w, key), offer)
  {
    var svc := w.services[key];
    var rs := ClaimRequests(w.pools, w.mask, key, svc.ips);
    ClaimRequestsAreGood(w, offer, key, svc.ips);
    SendAllIsSound(w, offer, rs);
    SendAllChangesOnlyTheQueue(w, rs);
    if GrantFor(w.pools, svc).Some? {
      var (i, ip) := GrantFor(w.pools, svc).value;
      GrantIsOffered(w.pools, offer, svc);
      AllocateIsSound(SendAll(w, rs), offer, key, i, ip);
    }
  }

  lemma StoredIsSound(w: World, offer: Offers, key: string, cur: Option<Service>)
    requires Sound(w, offer) && Enabled(w, ServiceEvent(key, cur))
    ensures Sound(Stored(w, key, cur), offer)
  {
    var t := Stored(w, key, cur);
    assert Pending(t) == Pending(w);
  }

  lemma OldIPsArePlain(w: World, key: string)
    requires PlainWorld(w)
    ensures forall ip | ip in OldIPs(w, key) :: Plain(ip)
  {
  }

  lemma ServiceHandledIsSound(w: World, offer: Offers, key: string, cur: Option<Service>)
    requires Sound(w, offer) && Enabled(w, ServiceEvent(key, cur))
    ensures Sound(ServiceHandled(w, key, cur), offer)
  {
    var t := Stored(w, key, cur);
    StoredIsSound(w, offer, key, cur);
    var u := if cur.Some? then ExternalIPsProcessed(t, key) else t;
    if cur.Some? {
      ExternalIPsProcessedIsSound(t, offer, key);
    }
    OldIPsArePlain(w, key);
    DroppedIsSound(u, offer, OldIPs(w, key), Listed(u.services));
  }

  // ----- The change worker -----

  lemma AnotherOwnerIsGood(c: Claim, owner: string, mask: string, offer: Offers)
    requires GoodClaim(c, mask, offer) && owner !in c.owners
    ensures GoodClaim(c.(owners := c.owners + [owner]), mask, offer)
  {
  }

  lemma StoredAfterIsGood(claims: map<string, Claim>, strict: bool, r: Request, mask: string, offer: Offers)
    requires GoodClaims(claims, mask, offer) && GoodRequest(r, mask, offer)
    ensures GoodClaims(StoredAfter(claims, strict, r), mask, offer)
  {
    var name, after := r.claim.name, StoredAfter(claims, strict, r);
    forall n | n in after ensures after[n].name == n && GoodClaim(after[n], mask, offer) {
      if n == name && !(n in claims && after[n] == claims[n]) {
        assert after[n] == r.claim.(version := after[n].version);
      }
    }
  }

  lemma ReactionIsGood(w: World, offer: Offers, r: Request)
    requires GoodClaims(w.claims, w.mask, offer) && GoodRequest(r, w.mask, offer)
    ensures forall u | u in Reaction(w, r) :: GoodRequest(u, w.mask, offer)
  {
    var name := r.claim.name;
    if Reaction(w, r) != [] {
      AnotherOwnerIsGood(w.claims[name], r.claim.owners[0], w.mask, offer);
    }
  }

  lemma AppliedIsGood(w: World, offer: Offers, r: Request)
    requires GoodClaims(w.claims, w.mask, offer) && GoodRequest(r, w.mask, offer)
    ensures GoodClaims(Applied(w, r).claims, w.mask, offer)
    ensures forall u | u in Reaction(w, r) :: GoodRequest(u, w.mask, offer)
  {
    AppliedStores(w, r);
    StoredAfterIsGood(w.claims, w.strict, r, w.mask, offer);
    ReactionIsGood(w, offer, r);
  }

  lemma ChangeTakenIsSound(w: World, offer: Offers)
    requires Sound(w, offer) && Enabled(w, TakeChange)
    ensures Sound(ChangeTaken(w), offer)
  {
    if w.changes.queue == [] {
      TakenFromExclusive(w.changes);
      assert false;
    }
    TakingKeepsPending(w);
  }

  lemma ChangeHandledIsSound(w: World, offer: Offers)
    requires Sound(w, offer) && w.busy.Some?
    ensures Serviceable(w) && Sound(ChangeHandled(w), offer)
  {
    SoundIsServiceable(w, offer);
    HandlingPops(w);
    AppliedIsGood(w, offer, w.busy.value.request);
  }

  // ----- Claims -----

  lemma {:induction false} OwnersAliveKeepsOrder(w: World, owners: seq<string>)
    requires NoDuplicates(owners)
    ensures NoDuplicates(OwnersAlive(w, owners))
    ensures OwnersAlive(w, owners) == owners || |OwnersAlive(w, owners)| < |owners|
  {
    if owners != [] {
      OwnersAliveKeepsOrder(w, owners[1..]);
      HeadOccursOnce(owners);
      assert owners == [owners[0]] + owners[1..];
    }
  }

  lemma {:induction false} SameOwners(w: World, t: World, owners: seq<string>)
    requires t.services == w.services && t.existing == w.existing
    ensures OwnersAlive(t, owners) == OwnersAlive(w, owners)
  {
    if owners != [] {
      SameOwners(w, t, owners[1..]);
    }
  }

  lemma ClaimProcessedIsSound(w: World, offer: Offers, key: string)
    requires Sound(w, offer) && key in w.cache
    ensures Sound(ClaimProcessed(w, key).0, offer)
  {
    var c := w.cache[key];
    var alive := OwnersAlive(w, c.owners);
    if alive == [] {
      ReleasedIsSound(w, offer, AddressOf(c.cidr));
    } else {
      var (e, rs) := ClaimOutcome(w, key);
      var t := w.(cache := w.cache[key := e]);
      OutcomeIsGood(w, offer, key);
      SameChangesSameSoundness(w, t, offer);
      SendAllIsSound(t, offer, rs);
    }
  }

  lemma OutcomeIsGood(w: World, offer: Offers, key: string)
    requires GoodClaims(w.cache, w.mask, offer) && ValidPools(w.pools)
    requires key in w.cache && OwnersAlive(w, w.cache[key].owners) != []
    ensures var (e, rs) := ClaimOutcome(w, key);
            && GoodClaim(e, w.mask, offer) && forall r | r in rs :: GoodRequest(r, w.mask, offer)
  {
    OwnersAliveKeepsOrder(w, w.cache[key].owners);
    var c, e := w.cache[key], ClaimOutcome(w, key).0;
    assert GoodClaim(c, w.mask, offer);
    assert NoDuplicates(e.owners);
  }

  /** What soundness is about. */
  lemma SameChangesSameSoundness(w: World, t: World, offer: Offers)
    requires Sound(w, offer) && GoodClaims(t.cache, w.mask, offer)
    requires t.mask == w.mask && t.services == w.services && t.pools == w.pools && t.claims == w.claims
    requires t.changes == w.changes && t.next == w.next && t.busy == w.busy
    ensures Sound(t, offer)
  {
    assert Pending(t) == Pending(w);
  }

  /** The cached claim and the requests that processing leaves, owners being alive. */
  ghost function ClaimOutcome(w: World, key: string): (r: (Claim, seq<Request>))
    requires key in w.cache && OwnersAlive(w, w.cache[key].owners) != [] && ValidPools(w.pools)
    ensures ClaimProcessed(w, key).0 == SendAll(w.(cache := w.cache[key := r.0]), r.1)
    ensures forall q | q in r.1 :: q == Request(Update, r.0)
    ensures r.0.owners == OwnersAlive(w, w.cache[key].owners) || r.0.owners == w.cache[key].owners
    ensures r.0.name == w.cache[key].name && r.0.cidr == w.cache[key].cidr && r.0.version == w.cache[key].version
    ensures r.0 == Placed(r.0, r.0.node) || (r.0.labels == w.cache[key].labels && r.0.node == w.cache[key].node)
  {
    var c := w.cache[key];
    var alive := OwnersAlive(w, c.owners);
    var pruned := |alive| < |c.owners|;
    var d := if pruned then c.(owners := alive) else c;
    var nodes := LiveNodes(w.nodes, w.live);
    var stays := c.node != "" && c.node in w.live;
    var e := if stays || nodes == [] then d else Placed(d, Chosen(w, nodes).name);
    var update := Request(Update, e);
    (e, (if pruned then [update] else []) + (if stays || nodes == [] then [] else [update]))
  }

  lemma {:induction false} TickedTouchesOnlyKeys(w: World, order: seq<string>, nodes: seq<Node>)
    ensures var t := Ticked(w, order, nodes);
            t == w.(observed := t.observed, live := t.live, keys := t.keys)
    decreases |nodes|
  {
    if nodes != [] {
      TickedTouchesOnlyKeys(NodeSeen(w, order, nodes[0]), order, nodes[1..]);
    }
  }

  /** Every step keeps the invariant. */
  lemma StepIsSound(w: World, offer: Offers, step: Step)
    requires Sound(w, offer) && Enabled(w, step)
    ensures step.HandleChange? ==> Serviceable(w)
    ensures Sound(Do(w, step), offer)
  {
    if step.ServiceEvent? {
      ServiceHandledIsSound(w, offer, step.key, step.cur);
    } else if step.TakeChange? {
      ChangeTakenIsSound(w, offer);
    } else if step.HandleChange? {
      ChangeHandledIsSound(w, offer);
    } else if step.ProcessKey? {
      KeyProcessedIsSound(w, offer);
    } else {
      QuietStepTouches(w, step);
      var t := Do(w, step);
      assert GoodClaims(t.cache, w.mask, offer);
      SameChangesSameSoundness(w, t, offer);
    }
  }

  predicate Quiet(step: Step) {
    || step.SyncClaim? || step.ResyncClaim? || step.TakeKey? || step.FinishKey? || step.Tick?
    || step.ApiChanges?
  }

  /** Steps that neither change the API's claims nor ask for a change. */
  lemma QuietStepTouches(w: World, step: Step)
    requires Quiet(step) && Enabled(w, step) && ValidPools(w.pools)
    ensures var t := Do(w, step);
            && t == w.(cache := t.cache, keys := t.keys, stage := t.stage, observed := t.observed, live := t.live,
                       existing := t.existing, nodes := t.nodes)
            && forall n | n in t.cache :: (n in w.claims && t.cache[n] == w.claims[n])
                                         || (n in w.cache && t.cache[n] == w.cache[n])
  {
    if step.Tick? {
      TickedTouchesOnlyKeys(w, step.order, w.nodes);
    }
  }

  lemma KeyProcessedIsSound(w: World, offer: Offers)
    requires Sound(w, offer) && w.stage.KeyTaken?
    ensures Sound(KeyProcessed(w), offer)
  {
    var key := w.stage.key;
    if key in w.cache {
      ClaimProcessedIsSound(w, offer, key);
      assert Pending(KeyProcessed(w)) == Pending(ClaimProcessed(w, key).0);
    } else {
      assert Pending(KeyProcessed(w)) == Pending(w);
    }
  }

  // ----- Runs -----

  /** A run starts soundly and goes on step by step. */
  ghost predicate IsRun(ws: seq<World>, steps: seq<Step>, offer: Offers) {
    |ws| == |steps| + 1 && forall i :: 0 <= i < |ws| ==> Reached(ws, steps, offer, i)
  }

  ghost predicate Reached(ws: seq<World>, steps: seq<Step>, offer: Offers, i: nat)
    requires |ws| == |steps| + 1 && i < |ws|
  {
    if i == 0 then Sound(ws[0], offer) else Goes(ws[i - 1], steps[i - 1], ws[i])
  }

  ghost predicate Goes(w: World, step: Step, w': World) {
    && Enabled(w, step) && ValidPools(w.pools) && (step.HandleChange? ==> Serviceable(w))
    && w' == Do(w, step)
  }

  /** A scheduler starts sound when nothing has been claimed yet. */
  lemma StartIsSound(w: World, offer: Offers)
    requires w.changes == Empty() && w.busy.None? && w.claims == map[] && w.cache == map[]
    requires PlainWorld(w) && PoolsAre(w.pools, offer)
    ensures Sound(w, offer)
  {
    assert Pending(w) == [];
  }

  /** On every run, at every point: no claim, cached, stored or about to be written, has an
      owner twice, and every scheduled claim is labelled with the node it is on. */
  lemma {:induction false} EveryRunIsSound(ws: seq<World>, steps: seq<Step>, offer: Offers, k: nat)
    requires IsRun(ws, steps, offer) && k < |ws|
    ensures Sound(ws[k], offer)
  {
    assert Reached(ws, steps, offer, k);
    if k > 0 {
      EveryRunIsSound(ws, steps, offer, k - 1);
      StepIsSound(ws[k - 1], offer, steps[k - 1]);
    }
  }

  /** From point k - 1 to point k. */
  lemma StepOfRun(ws: seq<World>, steps: seq<Step>, offer: Offers, k: nat)
    requires IsRun(ws, steps, offer) && 0 < k <= |steps|
    ensures Sound(ws[k - 1], offer) && Goes(ws[k - 1], steps[k - 1], ws[k])
  {
    EveryRunIsSound(ws, steps, offer, k - 1);
    assert Reached(ws, steps, offer, k);
  }
}
