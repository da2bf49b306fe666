/** The claim of a granted address keeps the service it was granted to as an owner, when the
    change queue drains between events and the cache equals the API. */
module Grantees {
  import opened Strings
  import opened Naming
  import opened QueueRuns
  import opened Cluster
  import opened ClaimNames
  import opened Soundness
  import opened ClaimSet
  import opened Ownership
  import opened Grants

  /** The claim of a grant records the service, or is about to. */
  ghost predicate Kept(w: World, g: Grant, last: string) {
    NamedFor(g.claim, g.ip) && Keeps(w, g.claim, {g.service}, last)
  }

  ghost predicate AllKept(w: World, held: set<Grant>, last: string) {
    forall g | g in held :: Kept(w, g, last)
  }

  // ----- Service events -----

  lemma {:induction false} CreatesOthers(pools: seq<Pool>, mask: string, key: string, ips: seq<string>, name: string,
                                         ip: string)
    requires Plain(mask) && (forall i | i in ips :: Plain(i)) && NamedFor(name, ip) && PoolOf(pools, ip).Some?
    ensures forall r | r in ClaimRequests(pools, mask, key, ips) :: r.claim.name != name
    decreases |ips|
  {
    if ips != [] {
      CreatesOthers(pools, mask, key, ips[1..], name, ip);
      if ips[0] != ip {
        OtherAddressOtherName(name, ip, ips[0], mask);
      }
    }
  }

  /** The first half of an event, starting without requests: creations for its service. */
  lemma FirstHalfSends(w: World, offer: Offers, key: string, cur: Option<Service>)
    returns (u: World, cs: seq<Request>)
    requires Sound(w, offer) && Enabled(w, ServiceEvent(key, cur)) && Pending(w) == []
    ensures Sound(u, offer) && Pending(u) == cs && u.claims == w.claims
    ensures ServiceHandled(w, key, cur) == Dropped(u, OldIPs(w, key), Listed(u.services))
    ensures cs == if cur.None? then []
                  else ClaimRequests(w.pools, w.mask, key, cur.value.ips) + GrantRequests(Stored(w, key, cur), key)
  {
    u, cs := Stored(w, key, cur), [];
    StoredIsSound(w, offer, key, cur);
    StoringTouches(w, key, cur);
    if cur.Some? {
      ExternalIPsProcessedIsSound(u, offer, key);
      ExternalIPsPending(u, key);
      cs := ClaimRequests(u.pools, u.mask, key, cur.value.ips) + GrantRequests(u, key);
      assert [] + cs == cs;
      u := ExternalIPsProcessed(u, key);
    }
    HandledInHalves(w, key, cur, u);
  }

  /** The requests of an event: creations for its service, and deletions. */
  lemma EventSends(w: World, offer: Offers, key: string, cur: Option<Service>, name: string, ip: string)
    returns (cs: seq<Request>, ds: seq<Request>)
    requires Sound(w, offer) && Enabled(w, ServiceEvent(key, cur)) && Pending(w) == [] && NamedFor(name, ip)
    requires ip in Listed(ServiceHandled(w, key, cur).services)
    ensures Pending(ServiceHandled(w, key, cur)) == cs + ds && ServiceHandled(w, key, cur).claims == w.claims
    ensures cs == if cur.None? then []
                  else ClaimRequests(w.pools, w.mask, key, cur.value.ips) + GrantRequests(Stored(w, key, cur), key)
    ensures forall d | d in ds :: d.change.Delete? && d.claim.name != name
  {
    var u;
    u, cs := FirstHalfSends(w, offer, key, cur);
    var ips, refs := OldIPs(w, key), Listed(u.services);
    ds := Deletions(u.pools, u.mask, ips, refs);
    DroppedSends(u, ips, refs);
    OldIPsArePlain(w, key);
    DeletionsSpareListed(u.pools, offer, u.mask, ips, refs, name, ip);
  }

  /** With disjoint offers the address granted by an event is not one that is held. */
  lemma GrantsOther(w: World, offer: Offers, key: string, g: Grant)
    requires PoolsAre(w.pools, offer) && DisjointOffers(offer) && key in w.services && Plain(g.ip)
    requires Allocated(w.pools, g.pool, g.ip, g.claim) && NamedFor(g.claim, g.ip)
    ensures forall r | r in GrantRequests(w, key) :: r.claim.name != g.claim
  {
    var svc := w.services[key];
    if GrantFor(w.pools, svc).Some? {
      var (i, ip) := GrantFor(w.pools, svc).value;
      GrantIsOffered(w.pools, offer, svc);
      FreeInItsPoolIsFree(w.pools, offer, i, ip);
      assert PoolIs(w.pools[i], offer[i]);
      OtherAddressOtherName(g.claim, g.ip, ip, PoolMask(w.pools[i]));
    }
  }

  /** No request of an event concerns the claim of an earlier grant. */
  lemma EventSpares(w: World, offer: Offers, key: string, cur: Option<Service>, g: Grant)
    requires Sound(w, offer) && Enabled(w, ServiceEvent(key, cur)) && Pending(w) == [] && DisjointOffers(offer)
    requires NamedFor(g.claim, g.ip) && Allocated(w.pools, g.pool, g.ip, g.claim)
    requires g.ip in Listed(ServiceHandled(w, key, cur).services)
    ensures ServiceHandled(w, key, cur).claims == w.claims
    ensures forall r | r in Pending(ServiceHandled(w, key, cur)) :: r.claim.name != g.claim
  {
    var cs, ds := EventSends(w, offer, key, cur, g.claim, g.ip);
    if cur.Some? {
      CreationsSpare(w, offer, key, cur.value, g);
    }
  }

  lemma CreationsSpare(w: World, offer: Offers, key: string, cur: Service, g: Grant)
    requires Sound(w, offer) && Enabled(w, ServiceEvent(key, Some(cur))) && DisjointOffers(offer)
    requires NamedFor(g.claim, g.ip) && Allocated(w.pools, g.pool, g.ip, g.claim)
    ensures forall r | r in ClaimRequests(w.pools, w.mask, key, cur.ips) :: r.claim.name != g.claim
    ensures forall r | r in GrantRequests(Stored(w, key, Some(cur)), key) :: r.claim.name != g.claim
  {
    CreatesOthers(w.pools, w.mask, key, cur.ips, g.claim, g.ip);
    GrantsOther(Stored(w, key, Some(cur)), offer, key, g);
  }

  lemma NoRequestsKeep(w: World, t: World, name: string, keys: set<string>, last: string, last': string)
    requires Keeps(w, name, keys, last) && Pending(w) == [] && t.claims == w.claims
    requires forall r | r in Pending(t) :: r.claim.name != name
    ensures Keeps(t, name, keys, last')
  {
    forall k | k in keys ensures Owned(t, name, k) {
      assert Owned(w, name, k);
    }
  }

  /** An event keeps the owner of an earlier grant. */
  lemma EventKeepsOwner(w: World, offer: Offers, key: string, cur: Option<Service>, g: Grant, last: string)
    requires Sound(w, offer) && Enabled(w, ServiceEvent(key, cur)) && Pending(w) == [] && DisjointOffers(offer)
    requires Kept(w, g, last) && Allocated(w.pools, g.pool, g.ip, g.claim)
    requires g.ip in Listed(ServiceHandled(w, key, cur).services)
    ensures Kept(ServiceHandled(w, key, cur), g, key)
  {
    EventSpares(w, offer, key, cur, g);
    NoRequestsKeep(w, ServiceHandled(w, key, cur), g.claim, {g.service}, last, key);
  }

  lemma GrantIsNamed(w: World, offer: Offers, step: Step, g: Grant)
    requires PoolsAre(w.pools, offer) && g in Granted(w, step)
    ensures NamedFor(g.claim, g.ip) && g.service == step.key
    ensures Request(Create, GrantClaim(w.pools[g.pool], g.ip, step.key)).claim.name == g.claim
  {
    GrantIsOffered(w.pools, offer, step.cur.value);
    assert PoolIs(w.pools[g.pool], offer[g.pool]);
  }

  lemma GrantRequestIs(w: World, key: string, cur: Option<Service>, g: Grant)
    requires ValidPools(w.pools) && g in Granted(w, ServiceEvent(key, cur))
    ensures g.pool < |w.pools| && HasMask(w.pools[g.pool].spec)
    ensures GrantRequests(Stored(w, key, cur), key) == [Request(Create, GrantClaim(w.pools[g.pool], g.ip, key))]
  {
  }

  /** Creations for one service, one of them under the name, and no deletion of it. */
  lemma CreationKeeps(t: World, name: string, key: string, cs: seq<Request>, ds: seq<Request>, r: Request)
    requires Pending(t) == cs + ds && forall c | c in cs :: c.change.Create? && c.claim.owners == [key]
    requires forall d | d in ds :: d.change.Delete? && d.claim.name != name
    requires r in cs && r.claim.name == name
    ensures Keeps(t, name, {key}, key)
  {
    assert r in Pending(t) && Records(t, r, name, key);
  }

  /** All creations of an event name its service as the only owner. */
  lemma EventCreations(w: World, offer: Offers, key: string, cur: Option<Service>, cs: seq<Request>)
    requires Sound(w, offer) && Enabled(w, ServiceEvent(key, cur)) && cur.Some?
    requires cs == ClaimRequests(w.pools, w.mask, key, cur.value.ips) + GrantRequests(Stored(w, key, cur), key)
    ensures forall c | c in cs :: c.change.Create? && c.claim.owners == [key]
  {
    ClaimRequestsAreGood(w, offer, key, cur.value.ips);
  }

  /** The creations of an event that makes the grant `g`: the last one is for it. */
  ghost predicate CreatesFor(w: World, g: Grant, cs: seq<Request>) {
    && g.pool < |w.pools| && HasMask(w.pools[g.pool].spec) && NamedFor(g.claim, g.ip)
    && |cs| > 0 && cs[|cs| - 1] == Request(Create, GrantClaim(w.pools[g.pool], g.ip, g.service))
    && cs[|cs| - 1].claim.name == g.claim && forall c | c in cs :: c.change.Create? && c.claim.owners == [g.service]
  }

  lemma GrantIsCreated(w: World, offer: Offers, key: string, cur: Option<Service>, g: Grant, cs: seq<Request>)
    requires Sound(w, offer) && Enabled(w, ServiceEvent(key, cur)) && g in Granted(w, ServiceEvent(key, cur))
    requires cs == ClaimRequests(w.pools, w.mask, key, cur.value.ips) + GrantRequests(Stored(w, key, cur), key)
    ensures CreatesFor(w, g, cs) && g.service == key
  {
    GrantIsNamed(w, offer, ServiceEvent(key, cur), g);
    GrantRequestIs(w, key, cur, g);
    EventCreations(w, offer, key, cur, cs);
  }

  /** The claim of a new grant is asked for with the service as its owner. */
  lemma EventKeepsNewOwner(w: World, offer: Offers, key: string, cur: Option<Service>, g: Grant)
    requires Sound(w, offer) && Enabled(w, ServiceEvent(key, cur)) && Pending(w) == []
    requires g in Granted(w, ServiceEvent(key, cur)) && g.ip in Listed(ServiceHandled(w, key, cur).services)
    ensures Kept(ServiceHandled(w, key, cur), g, key)
  {
    GrantIsNamed(w, offer, ServiceEvent(key, cur), g);
    var cs, ds := EventSends(w, offer, key, cur, g.claim, g.ip);
    GrantIsCreated(w, offer, key, cur, g, cs);
    NewOwnerKept(ServiceHandled(w, key, cur), w, g, cs, ds);
  }

  lemma NewOwnerKept(t: World, w: World, g: Grant, cs: seq<Request>, ds: seq<Request>)
    requires CreatesFor(w, g, cs) && Pending(t) == cs + ds
    requires forall d | d in ds :: d.change.Delete? && d.claim.name != g.claim
    ensures Kept(t, g, g.service)
  {
    CreationKeeps(t, g.claim, g.service, cs, ds, cs[|cs| - 1]);
  }

  // ----- Processing a claim -----

  lemma UpdatingKeepsOwner(w: World, offer: Offers, key: string, g: Grant, last: string)
    requires Sound(w, offer) && Pending(w) == [] && Kept(w, g, last) && ListedBy(w.services, g.service, g.ip)
    requires key in w.cache && key in w.claims && w.cache[key] == w.claims[key]
    requires OwnersAlive(w, w.cache[key].owners) != []
    ensures Kept(ClaimProcessed(w, key).0, g, last)
  {
    var (e, rs) := ClaimOutcome(w, key);
    var u := w.(cache := w.cache[key := e]);
    assert Pending(u) == Pending(w);
    SendAllAppends(u, rs);
    SendAllChangesOnlyTheQueue(u, rs);
    assert Owned(w, g.claim, g.service);
    assert e.name == g.claim ==> g.service in e.owners;
    QuietRequestsKeep(w, SendAll(u, rs), g.claim, {g.service}, last, rs);
  }

  lemma CollectingKeepsOwner(w: World, offer: Offers, ip: string, g: Grant, last: string)
    requires Sound(w, offer) && Pending(w) == [] && Kept(w, g, last) && Plain(ip) && ip != g.ip
    ensures Kept(Released(w, ip), g, last)
  {
    var d := ReleaseRequest(w.pools, w.mask, ip);
    ReleasedSends(w, ip);
    ReleaseNamesOther(w.pools, offer, w.mask, ip, g.claim, g.ip);
    assert Pending(w) + [d] == [d];
    QuietRequestsKeep(w, Released(w, ip), g.claim, {g.service}, last, [d]);
  }

  lemma ProcessingKeepsOwner(w: World, offer: Offers, held: set<Grant>, g: Grant, last: string)
    requires Sound(w, offer) && w.stage.KeyTaken? && Calm(w, ProcessKey) && SparesGrants(w, held, ProcessKey)
    requires g in held && Kept(w, g, last) && ListedBy(w.services, g.service, g.ip)
    ensures Kept(KeyProcessed(w), g, last)
  {
    var key := w.stage.key;
    var t := if key in w.cache then ClaimProcessed(w, key).0 else w;
    if key in w.cache {
      var c := w.cache[key];
      if OwnersAlive(w, c.owners) == [] {
        assert GoodClaim(c, w.mask, offer) && Collected(w, ProcessKey) == Some(AddressOf(c.cidr));
        CollectingKeepsOwner(w, offer, AddressOf(c.cidr), g, last);
      } else {
        UpdatingKeepsOwner(w, offer, key, g, last);
      }
    }
    assert Pending(KeyProcessed(w)) == Pending(t);
    SameKeeps(t, KeyProcessed(w), g.claim, {g.service}, last);
  }

  // ----- Runs -----

  lemma EventKeepsOwners(w: World, offer: Offers, held: set<Grant>, key: string, cur: Option<Service>, last: string)
    requires Sound(w, offer) && Enabled(w, ServiceEvent(key, cur)) && Pending(w) == [] && DisjointOffers(offer)
    requires InForce(w, held) && AllKept(w, held, last)
    requires var t := ServiceHandled(w, key, cur); InForce(t, Held(held, Granted(w, ServiceEvent(key, cur)), t))
    ensures var t := ServiceHandled(w, key, cur); AllKept(t, Held(held, Granted(w, ServiceEvent(key, cur)), t), key)
  {
    var t := ServiceHandled(w, key, cur);
    forall g | g in Held(held, Granted(w, ServiceEvent(key, cur)), t) ensures Kept(t, g, key) {
      assert ListedBy(t.services, g.service, g.ip);
      assert g.ip in Listed(t.services);
      if g in Granted(w, ServiceEvent(key, cur)) {
        EventKeepsNewOwner(w, offer, key, cur, g);
      } else {
        EventKeepsOwner(w, offer, key, cur, g, last);
      }
    }
  }

  lemma WorkerKeepsOwner(w: World, offer: Offers, step: Step, g: Grant, last: string)
    requires Sound(w, offer) && Enabled(w, step) && Kept(w, g, last) && (step.HandleChange? ==> Serviceable(w))
    requires !step.ServiceEvent? && !step.ProcessKey?
    ensures Kept(Do(w, step), g, last)
  {
    if step.HandleChange? {
      ChangeHandledKeeps(w, offer, g.claim, {g.service}, last);
    } else {
      if step.TakeChange? {
        TakenFromExclusive(w.changes);
        TakingKeepsPending(w);
      } else {
        QuietStepTouches(w, step);
      }
      assert Pending(Do(w, step)) == Pending(w);
      SameKeeps(w, Do(w, step), g.claim, {g.service}, last);
    }
  }

  lemma StepKeepsOwners(w: World, offer: Offers, held: set<Grant>, step: Step, last: string)
    requires Sound(w, offer) && Enabled(w, step) && (step.HandleChange? ==> Serviceable(w)) && Calm(w, step)
    requires DisjointOffers(offer) && InForce(w, held) && AllKept(w, held, last) && SparesGrants(w, held, step)
    requires ValidPools(Do(w, step).pools) && InForce(Do(w, step), Held(held, Granted(w, step), Do(w, step)))
    ensures AllKept(Do(w, step), Held(held, Granted(w, step), Do(w, step)),
                    if step.ServiceEvent? then step.key else last)
  {
    if step.ServiceEvent? {
      EventKeepsOwners(w, offer, held, step.key, step.cur, last);
    } else {
      forall g | g in held ensures Kept(Do(w, step), g, last) {
        if step.ProcessKey? {
          ProcessingKeepsOwner(w, offer, held, g, last);
        } else {
          WorkerKeepsOwner(w, offer, step, g, last);
        }
      }
    }
  }

  /** A calm run with disjoint pools, and the grants its steps make. */
  ghost predicate CalmGrants(ws: seq<World>, steps: seq<Step>, granted: seq<set<Grant>>, offer: Offers) {
    GrantRun(ws, steps, granted, offer) && CalmRun(ws, steps) && DisjointOffers(offer)
  }

  lemma CalmStepOfRun(ws: seq<World>, steps: seq<Step>, granted: seq<set<Grant>>, offer: Offers, k: nat)
    requires CalmGrants(ws, steps, granted, offer) && 0 < k <= |steps|
    ensures Sound(ws[k - 1], offer) && Goes(ws[k - 1], steps[k - 1], ws[k]) && Calm(ws[k - 1], steps[k - 1])
    ensures ValidPools(ws[k - 1].pools) && ValidPools(ws[k].pools)
    ensures granted[k - 1] == Granted(ws[k - 1], steps[k - 1])
  {
    StepOfRun(ws, steps, offer, k);
    assert GrantsAt(ws, steps, granted, k - 1) && GrantsAt(ws, steps, granted, k);
  }

  /** One step, with the grants held before and after. */
  lemma OwnersAfter(w: World, offer: Offers, step: Step, t: World, held: set<Grant>, held': set<Grant>, last: string)
    requires Sound(w, offer) && Goes(w, step, t) && Calm(w, step) && DisjointOffers(offer) && ValidPools(t.pools)
    requires InForce(w, held) && AllKept(w, held, last) && SparesGrants(w, held, step)
    requires held' == Held(held, Granted(w, step), t) && InForce(t, held')
    ensures AllKept(t, held', if step.ServiceEvent? then step.key else last)
  {
    StepKeepsOwners(w, offer, held, step, last);
  }

  /** From point k - 1 to point k. */
  lemma NextOwners(ws: seq<World>, steps: seq<Step>, granted: seq<set<Grant>>, offer: Offers, k: nat, last: string)
    requires CalmGrants(ws, steps, granted, offer) && 0 < k <= |steps| && SparedTo(ws, steps, granted, k)
    requires AllKept(ws[k - 1], HeldAt(ws, granted, k - 1), last)
    ensures AllKept(ws[k], HeldAt(ws, granted, k), if steps[k - 1].ServiceEvent? then steps[k - 1].key else last)
  {
    var held, held' := HeldAt(ws, granted, k - 1), HeldAt(ws, granted, k);
    ForceAt(ws, steps, granted, offer, k - 1);
    ForceAt(ws, steps, granted, offer, k);
    CalmStepOfRun(ws, steps, granted, offer, k);
    OwnersAfter(ws[k - 1], offer, steps[k - 1], ws[k], held, held', last);
  }

  lemma {:induction false} OwnersOfGrants(ws: seq<World>, steps: seq<Step>, granted: seq<set<Grant>>, offer: Offers,
                                          k: nat)
    requires CalmGrants(ws, steps, granted, offer) && k <= |steps| && SparedTo(ws, steps, granted, k)
    ensures AllKept(ws[k], HeldAt(ws, granted, k), LastAt(steps, k))
  {
    if k > 0 {
      OwnersOfGrants(ws, steps, granted, offer, k - 1);
      NextOwners(ws, steps, granted, offer, k, LastAt(steps, k - 1));
    }
  }

  /** On calm runs with disjoint pools, whenever nothing is pending, the claim of a grant in
      force exists and records the service it was granted to. */
  lemma GranteeIsRecorded(ws: seq<World>, steps: seq<Step>, granted: seq<set<Grant>>, offer: Offers, k: nat, g: Grant)
    requires CalmGrants(ws, steps, granted, offer) && k <= |steps| && SparedTo(ws, steps, granted, k)
    requires g in HeldAt(ws, granted, k) && Pending(ws[k]) == []
    ensures g.claim in ws[k].claims && g.service in ws[k].claims[g.claim].owners
  {
    OwnersOfGrants(ws, steps, granted, offer, k);
    assert Kept(ws[k], g, LastAt(steps, k));
    assert Owned(ws[k], g.claim, g.service);
  }

  /** A collected claim has no owner that is stored. */
  lemma CollectedHasNoOwner(w: World, key: string)
    requires Collected(w, ProcessKey).Some? && key in w.services
    ensures key !in w.cache[w.stage.key].owners
  {
    assert OwnerAlive(w, key);
  }

  /** So on calm runs a grant is only ever lost with another claim of its address: the claim
      made for it is not collected. */
  lemma OnlyOtherClaimsEndGrants(ws: seq<World>, steps: seq<Step>, granted: seq<set<Grant>>, offer: Offers, k: nat,
                                 g: Grant)
    requires CalmGrants(ws, steps, granted, offer) && k < |steps| && SparedTo(ws, steps, granted, k)
    requires g in HeldAt(ws, granted, k) && steps[k].ProcessKey? && Collected(ws[k], steps[k]).Some?
    ensures ws[k].stage.key != g.claim
  {
    GranteeIsRecorded(ws, steps, granted, offer, k, g);
    ForceAt(ws, steps, granted, offer, k);
    assert ListedBy(ws[k].services, g.service, g.ip);
    CollectedHasNoOwner(ws[k], g.service);
  }
}
