/** Addresses of pools: what is allocated, what is claimed and what is listed stay in step on
    every run, whatever is collected meanwhile. */
module PoolClaims {
  import opened Strings
  import opened Naming
  import opened Cluster
  import opened ClaimNames
  import opened Soundness
  import opened ClaimSet
  import opened Ownership
  import opened Grants
  import QueueRuns

  /** No pool has the default mask. */
  ghost predicate OwnMasks(w: World) {
    forall i :: 0 <= i < |w.pools| && HasMask(w.pools[i].spec) ==> PoolMask(w.pools[i]) != w.mask
  }

  predicate IsAllocated(pools: seq<Pool>, i: nat, ip: string) {
    i < |pools| && ip in pools[i].spec.allocations
  }

  /** The name of the claim that pool i asks for with an address. */
  function PoolName(pools: seq<Pool>, i: nat, ip: string): string
    requires i < |pools| && HasMask(pools[i].spec)
  {
    ClaimName(ip, PoolMask(pools[i]))
  }

  /** The pool's claim of the address is left in the end exactly if the address is allocated. */
  ghost predicate InStep(w: World, i: nat, ip: string) {
    i < |w.pools| && HasMask(w.pools[i].spec) ==>
      (Will(w, PoolName(w.pools, i, ip)) <==> IsAllocated(w.pools, i, ip))
  }

  ghost predicate PoolsFollow(w: World, offer: Offers) {
    forall i, ip | 0 <= i < |offer| && ip in offer[i] :: InStep(w, i, ip)
  }

  /** Every allocated address is listed by some stored service. */
  ghost predicate NoLeak(w: World) {
    forall i: nat, ip | IsAllocated(w.pools, i, ip) :: ip in Listed(w.services)
  }

  predicate SameCidrs(pools: seq<Pool>, pools': seq<Pool>) {
    |pools'| == |pools| && forall i :: 0 <= i < |pools| ==> pools'[i].spec.cidr == pools[i].spec.cidr
  }

  lemma OwnMasksStay(w: World, t: World)
    requires OwnMasks(w) && SameCidrs(w.pools, t.pools) && t.mask == w.mask
    ensures OwnMasks(t)
  {
  }

  // ----- Requests that concern other claims -----

  predicate Silent(rs: seq<Request>, name: string) {
    forall r | r in rs :: r.claim.name != name || r.change.Update?
  }

  lemma {:induction false} SilentVerdict(rs: seq<Request>, name: string)
    requires Silent(rs, name)
    ensures Verdict(name, rs) == None
  {
    if rs != [] {
      SilentVerdict(rs[..|rs| - 1], name);
    }
  }

  lemma SilentKeepsWill(w: World, t: World, rs: seq<Request>, name: string)
    requires Pending(t) == Pending(w) + rs && t.claims == w.claims && Silent(rs, name)
    ensures Will(t, name) == Will(w, name)
  {
    SilentVerdict(rs, name);
    VerdictOfConcat(name, Pending(w), rs);
  }

  lemma OneMoreWill(w: World, t: World, r: Request, name: string)
    requires Pending(t) == Pending(w) + [r] && t.claims == w.claims
    ensures Will(t, name) == After(r, name, Will(w, name))
  {
    VerdictOfSnoc(name, Pending(w), r);
  }

  /** Requests with the default mask do not concern the claims of pools. */
  lemma {:induction false} ClaimRequestsAreSilent(pools: seq<Pool>, mask: string, key: string, ips: seq<string>,
                                                  ip: string, m: string)
    requires Plain(mask) && Plain(ip) && Plain(m) && m != mask && forall x | x in ips :: Plain(x)
    ensures Silent(ClaimRequests(pools, mask, key, ips), ClaimName(ip, m))
    decreases |ips|
  {
    if ips != [] {
      ClaimRequestsAreSilent(pools, mask, key, ips[1..], ip, m);
      if ClaimName(ips[0], mask) == ClaimName(ip, m) {
        ClaimNameIsInjective(ips[0], mask, ip, m);
      }
    }
  }

  // ----- One address -----

  /** What the facts about one pool and one of its addresses rest on. */
  ghost predicate At(w: World, offer: Offers, i: nat, ip: string) {
    && PoolsAre(w.pools, offer) && DisjointOffers(offer) && OwnMasks(w) && Plain(w.mask)
    && i < |w.pools| && HasMask(w.pools[i].spec) && ip in offer[i]
  }

  lemma AtIsPlain(w: World, offer: Offers, i: nat, ip: string)
    requires At(w, offer, i, ip)
    ensures Plain(ip) && Plain(PoolMask(w.pools[i])) && PoolMask(w.pools[i]) != w.mask
  {
    assert PoolIs(w.pools[i], offer[i]);
  }

  /** Only one pool can have it. */
  lemma OnlyItsPool(w: World, offer: Offers, i: nat, ip: string, j: nat)
    requires At(w, offer, i, ip) && IsAllocated(w.pools, j, ip)
    ensures j == i
  {
    assert PoolIs(w.pools[j], offer[j]);
  }

  lemma ReleasedPools(w: World, offer: Offers, y: string)
    requires PoolsAre(w.pools, offer)
    ensures PoolsAre(PoolsWithout(w.pools, y), offer) && SameCidrs(w.pools, PoolsWithout(w.pools, y))
  {
    ReleasingKeepsPools(w.pools, offer, y);
  }

  /** Releasing another address. */
  lemma ReleasingOther(w: World, offer: Offers, y: string, i: nat, ip: string)
    requires At(w, offer, i, ip) && Plain(y) && y != ip
    ensures ReleaseRequest(w.pools, w.mask, y).claim.name != PoolName(w.pools, i, ip)
    ensures IsAllocated(PoolsWithout(w.pools, y), i, ip) <==> IsAllocated(w.pools, i, ip)
  {
    AtIsPlain(w, offer, i, ip);
    ReleaseNamesOther(w.pools, offer, w.mask, y, PoolName(w.pools, i, ip), ip);
  }

  /** Releasing the address itself: its claim is deleted if, and only if, it is allocated. */
  lemma ReleasingIt(w: World, offer: Offers, i: nat, ip: string)
    requires At(w, offer, i, ip)
    ensures ReleaseRequest(w.pools, w.mask, ip).claim.name == PoolName(w.pools, i, ip) <==> IsAllocated(w.pools, i, ip)
    ensures !IsAllocated(PoolsWithout(w.pools, ip), i, ip)
  {
    AtIsPlain(w, offer, i, ip);
    var j := PoolOf(w.pools, ip);
    if j.Some? {
      OnlyItsPool(w, offer, i, ip, j.value);
    } else if ClaimName(ip, w.mask) == PoolName(w.pools, i, ip) {
      ClaimNameIsInjective(ip, w.mask, ip, PoolMask(w.pools[i]));
    }
  }

  lemma ReleasingStaysInStep(w: World, offer: Offers, y: string, i: nat, ip: string)
    requires GoodQueue(w) && At(w, offer, i, ip) && Plain(y) && InStep(w, i, ip)
    ensures InStep(Released(w, y), i, ip)
  {
    ReleasedSends(w, y);
    ReleasedPools(w, offer, y);
    OneMoreWill(w, Released(w, y), ReleaseRequest(w.pools, w.mask, y), PoolName(w.pools, i, ip));
    if y == ip {
      ReleasingIt(w, offer, i, ip);
    } else {
      ReleasingOther(w, offer, y, i, ip);
    }
  }

  lemma ReleasedStaysAt(w: World, offer: Offers, y: string, i: nat, ip: string)
    requires At(w, offer, i, ip)
    ensures At(Released(w, y), offer, i, ip)
  {
    ReleasedPools(w, offer, y);
    OwnMasksStay(w, Released(w, y));
  }

  lemma {:induction false} DroppingStaysInStep(w: World, offer: Offers, ips: seq<string>, refs: set<string>,
                                               i: nat, ip: string)
    requires GoodQueue(w) && At(w, offer, i, ip) && InStep(w, i, ip) && forall y | y in ips :: Plain(y)
    ensures InStep(Dropped(w, ips, refs), i, ip)
    decreases |ips|
  {
    if ips != [] {
      if ips[0] in refs {
        DroppingStaysInStep(w, offer, ips[1..], refs, i, ip);
      } else {
        ReleasingStaysInStep(w, offer, ips[0], i, ip);
        ReleasedStaysAt(w, offer, ips[0], i, ip);
        ReleasedSends(w, ips[0]);
        DroppingStaysInStep(Released(w, ips[0]), offer, ips[1..], refs, i, ip);
      }
    }
  }

  /** A grant creates the claim with the allocation. */
  lemma AllocatingStaysInStep(t: World, offer: Offers, key: string, j: nat, y: string, i: nat, ip: string)
    requires GoodQueue(t) && At(t, offer, i, ip) && InStep(t, i, ip)
    requires key in t.services && j < |t.pools| && HasMask(t.pools[j].spec) && y in offer[j]
    ensures InStep(Allocate(t, key, j, y), i, ip) && SameCidrs(t.pools, Allocate(t, key, j, y).pools)
  {
    var u, r := Allocate(t, key, j, y), Request(Create, GrantClaim(t.pools[j], y, key));
    AllocateSends(t, key, j, y);
    OneMoreWill(t, u, r, PoolName(t.pools, i, ip));
    AtIsPlain(t, offer, i, ip);
    assert PoolIs(t.pools[j], offer[j]);
    if y != ip && r.claim.name == PoolName(t.pools, i, ip) {
      ClaimNameIsInjective(y, PoolMask(t.pools[j]), ip, PoolMask(t.pools[i]));
    }
  }

  lemma RequestingStaysInStep(t: World, offer: Offers, key: string, i: nat, ip: string) returns (u: World)
    requires Sound(t, offer) && At(t, offer, i, ip) && InStep(t, i, ip) && key in t.services
    ensures u == SendAll(t, ClaimRequests(t.pools, t.mask, key, t.services[key].ips))
    ensures GoodQueue(u) && At(u, offer, i, ip) && InStep(u, i, ip) && u == t.(changes := u.changes, next := u.next)
  {
    var rs := ClaimRequests(t.pools, t.mask, key, t.services[key].ips);
    u := SendAll(t, rs);
    SendAllAppends(t, rs);
    SendAllChangesOnlyTheQueue(t, rs);
    AtIsPlain(t, offer, i, ip);
    ClaimRequestsAreSilent(t.pools, t.mask, key, t.services[key].ips, ip, PoolMask(t.pools[i]));
    SilentKeepsWill(t, u, rs, PoolName(t.pools, i, ip));
  }

  lemma ProcessingStaysInStep(t: World, offer: Offers, key: string, i: nat, ip: string)
    requires Sound(t, offer) && At(t, offer, i, ip) && InStep(t, i, ip) && key in t.services
    ensures InStep(ExternalIPsProcessed(t, key), i, ip) && SameCidrs(t.pools, ExternalIPsProcessed(t, key).pools)
  {
    var u := RequestingStaysInStep(t, offer, key, i, ip);
    var grant := GrantFor(t.pools, t.services[key]);
    if grant.Some? {
      GrantIsOffered(t.pools, offer, t.services[key]);
      AllocatingStaysInStep(u, offer, key, grant.value.0, grant.value.1, i, ip);
    }
  }

  // ----- Steps -----

  lemma MasksAfterProcessing(t: World, key: string)
    requires key in t.services && ValidPools(t.pools)
    ensures var u := ExternalIPsProcessed(t, key);
            SameCidrs(t.pools, u.pools) && u.mask == t.mask && u.services - {key} == t.services - {key}
  {
    SendAllChangesOnlyTheQueue(t, ClaimRequests(t.pools, t.mask, key, t.services[key].ips));
  }

  lemma {:induction false} MasksAfterDropping(w: World, ips: seq<string>, refs: set<string>)
    requires ValidPools(w.pools)
    ensures var t := Dropped(w, ips, refs);
            && SameCidrs(w.pools, t.pools) && t == w.(pools := t.pools, changes := t.changes, next := t.next)
    decreases |ips|
  {
    if ips != [] {
      MasksAfterDropping(if ips[0] in refs then w else Released(w, ips[0]), ips[1..], refs);
    }
  }

  /** The first half of an event. */
  lemma FirstHalf(w: World, offer: Offers, key: string, cur: Option<Service>) returns (u: World)
    requires Sound(w, offer) && Enabled(w, ServiceEvent(key, cur))
    ensures u == if cur.Some? then ExternalIPsProcessed(Stored(w, key, cur), key) else Stored(w, key, cur)
    ensures Sound(u, offer) && SameCidrs(w.pools, u.pools) && u.mask == w.mask
    ensures u.services - {key} == w.services - {key}
    ensures ServiceHandled(w, key, cur) == Dropped(u, OldIPs(w, key), Listed(u.services))
  {
    u := Stored(w, key, cur);
    StoredIsSound(w, offer, key, cur);
    StoringTouches(w, key, cur);
    if cur.Some? {
      ExternalIPsProcessedIsSound(u, offer, key);
      MasksAfterProcessing(u, key);
      u := ExternalIPsProcessed(u, key);
    }
    HandledInHalves(w, key, cur, u);
  }

  lemma FirstHalfStaysInStep(w: World, offer: Offers, key: string, cur: Option<Service>, u: World, i: nat, ip: string)
    requires Sound(w, offer) && Enabled(w, ServiceEvent(key, cur)) && At(w, offer, i, ip) && InStep(w, i, ip)
    requires u == if cur.Some? then ExternalIPsProcessed(Stored(w, key, cur), key) else Stored(w, key, cur)
    ensures InStep(u, i, ip)
  {
    var t := Stored(w, key, cur);
    StoredIsSound(w, offer, key, cur);
    StoringTouches(w, key, cur);
    assert At(t, offer, i, ip) && InStep(t, i, ip);
    if cur.Some? {
      ProcessingStaysInStep(t, offer, key, i, ip);
    }
  }

  lemma EventStaysInStep(w: World, offer: Offers, key: string, cur: Option<Service>, i: nat, ip: string)
    requires Sound(w, offer) && Enabled(w, ServiceEvent(key, cur)) && At(w, offer, i, ip) && InStep(w, i, ip)
    ensures InStep(ServiceHandled(w, key, cur), i, ip)
  {
    var u := FirstHalf(w, offer, key, cur);
    FirstHalfStaysInStep(w, offer, key, cur, u, i, ip);
    OwnMasksStay(w, u);
    OldIPsArePlain(w, key);
    DroppingStaysInStep(u, offer, OldIPs(w, key), Listed(u.services), i, ip);
  }

  lemma SameStaysInStep(w: World, t: World, i: nat, ip: string)
    requires InStep(w, i, ip) && Pending(t) == Pending(w) && t.claims == w.claims && t.pools == w.pools
    ensures InStep(t, i, ip)
  {
  }

  lemma KeepingStaysInStep(w: World, key: string, i: nat, ip: string)
    requires GoodQueue(w) && ValidPools(w.pools) && InStep(w, i, ip)
    requires key in w.cache && OwnersAlive(w, w.cache[key].owners) != []
    ensures InStep(ClaimProcessed(w, key).0, i, ip)
  {
    var (e, rs) := ClaimOutcome(w, key);
    var u := w.(cache := w.cache[key := e]);
    assert Pending(u) == Pending(w);
    SendAllAppends(u, rs);
    SendAllChangesOnlyTheQueue(u, rs);
    if i < |w.pools| && HasMask(w.pools[i].spec) {
      SilentKeepsWill(w, SendAll(u, rs), rs, PoolName(w.pools, i, ip));
    }
  }

  lemma KeyProcessedStaysInStep(w: World, offer: Offers, i: nat, ip: string)
    requires Sound(w, offer) && w.stage.KeyTaken? && At(w, offer, i, ip) && InStep(w, i, ip)
    ensures InStep(KeyProcessed(w), i, ip)
  {
    var key := w.stage.key;
    var (u, err) := if key in w.cache then ClaimProcessed(w, key) else (w, false);
    if key in w.cache {
      if OwnersAlive(w, w.cache[key].owners) == [] {
        assert GoodClaim(w.cache[key], w.mask, offer);
        ReleasingStaysInStep(w, offer, AddressOf(w.cache[key].cidr), i, ip);
      } else {
        KeepingStaysInStep(w, key, i, ip);
      }
    }
    assert Pending(KeyProcessed(w)) == Pending(u);
    SameStaysInStep(u, KeyProcessed(w), i, ip);
  }

  lemma HandlingStaysInStep(w: World, i: nat, ip: string)
    requires GoodQueue(w) && Serviceable(w) && InStep(w, i, ip)
    ensures InStep(ChangeHandled(w), i, ip)
  {
    HandlingPops(w);
    if i < |w.pools| && HasMask(w.pools[i].spec) {
      HandlingKeepsWill(w, PoolName(w.pools, i, ip));
    }
  }

  lemma StepStaysInStep(w: World, offer: Offers, step: Step, t: World, i: nat, ip: string)
    requires Sound(w, offer) && Goes(w, step, t) && At(w, offer, i, ip) && InStep(w, i, ip)
    ensures InStep(t, i, ip)
  {
    if step.ServiceEvent? {
      EventStaysInStep(w, offer, step.key, step.cur, i, ip);
    } else if step.ProcessKey? {
      KeyProcessedStaysInStep(w, offer, i, ip);
    } else if step.HandleChange? {
      HandlingStaysInStep(w, i, ip);
    } else {
      if step.TakeChange? {
        TakenIsPending(w);
      } else {
        QuietStepTouches(w, step);
      }
      assert Pending(t) == Pending(w);
      SameStaysInStep(w, t, i, ip);
    }
  }

  lemma TakenIsPending(w: World)
    requires GoodQueue(w) && Enabled(w, TakeChange)
    ensures Pending(ChangeTaken(w)) == Pending(w)
  {
    QueueRuns.TakenFromExclusive(w.changes);
    TakingKeepsPending(w);
  }

  lemma StepKeepsMasks(w: World, offer: Offers, step: Step, t: World)
    requires Sound(w, offer) && Goes(w, step, t)
    ensures SameCidrs(w.pools, t.pools) && t.mask == w.mask
  {
    if step.ServiceEvent? {
      var u := FirstHalf(w, offer, step.key, step.cur);
      MasksAfterDropping(u, OldIPs(w, step.key), Listed(u.services));
    } else if step.ProcessKey? {
      KeyProcessedPools(w);
      KeyProcessedMask(w);
    } else if step.HandleChange? {
      HandlingPops(w);
    } else if !step.TakeChange? {
      QuietStepTouches(w, step);
    }
  }

  lemma KeyProcessedMask(w: World)
    requires w.stage.KeyTaken? && ValidPools(w.pools)
    ensures KeyProcessed(w).mask == w.mask
  {
    var key := w.stage.key;
    if key in w.cache && OwnersAlive(w, w.cache[key].owners) != [] {
      var (e, rs) := ClaimOutcome(w, key);
      SendAllChangesOnlyTheQueue(w.(cache := w.cache[key := e]), rs);
    }
  }

  /** Every step keeps the pools and their claims in step, collecting claims included. */
  lemma StepKeepsPoolsInStep(w: World, offer: Offers, step: Step, t: World)
    requires Sound(w, offer) && Goes(w, step, t) && DisjointOffers(offer) && OwnMasks(w) && PoolsFollow(w, offer)
    ensures OwnMasks(t) && PoolsFollow(t, offer)
  {
    StepKeepsMasks(w, offer, step, t);
    OwnMasksStay(w, t);
    forall i, ip | 0 <= i < |offer| && ip in offer[i] ensures InStep(t, i, ip) {
      assert InStep(w, i, ip);
      if HasMask(w.pools[i].spec) {
        StepStaysInStep(w, offer, step, t, i, ip);
      }
    }
  }

  // ----- Leaks -----

  /** What one release leaves allocated. */
  lemma ReleasedLeaves(w: World, offer: Offers, y: string, i: nat, ip: string)
    requires PoolsAre(w.pools, offer) && DisjointOffers(offer) && IsAllocated(PoolsWithout(w.pools, y), i, ip)
    ensures IsAllocated(w.pools, i, ip) && ip != y
  {
    if IsAllocated(w.pools, i, y) {
      ReleaseEndsAllocation(w.pools, offer, y, i, w.pools[i].spec.allocations[y]);
    }
  }

  /** What dropping old addresses leaves allocated is still listed or was not old. */
  lemma {:induction false} DroppedLeaves(w: World, offer: Offers, ips: seq<string>, refs: set<string>,
                                         i: nat, ip: string)
    requires PoolsAre(w.pools, offer) && DisjointOffers(offer) && IsAllocated(Dropped(w, ips, refs).pools, i, ip)
    ensures IsAllocated(w.pools, i, ip) && (ip in ips ==> ip in refs)
    decreases |ips|
  {
    if ips != [] {
      if ips[0] in refs {
        DroppedLeaves(w, offer, ips[1..], refs, i, ip);
      } else {
        ReleasingKeepsPools(w.pools, offer, ips[0]);
        DroppedLeaves(Released(w, ips[0]), offer, ips[1..], refs, i, ip);
        ReleasedLeaves(w, offer, ips[0], i, ip);
      }
    }
  }

  /** What processing a service leaves allocated was so before or is granted to it. */
  lemma ProcessedLeaves(t: World, key: string, i: nat, ip: string)
    requires key in t.services && ValidPools(t.pools) && IsAllocated(ExternalIPsProcessed(t, key).pools, i, ip)
    ensures IsAllocated(t.pools, i, ip) || ip in Listed(ExternalIPsProcessed(t, key).services)
  {
    SendAllChangesOnlyTheQueue(t, ClaimRequests(t.pools, t.mask, key, t.services[key].ips));
    var u, grant := ExternalIPsProcessed(t, key), GrantFor(t.pools, t.services[key]);
    if grant.Some? && ip == grant.value.1 {
      assert key in u.services && ip in u.services[key].ips;
    }
  }

  lemma StillListed(w: World, u: World, key: string, ip: string)
    requires ip in Listed(w.services) && ip !in OldIPs(w, key) && u.services - {key} == w.services - {key}
    ensures ip in Listed(u.services)
  {
    var k :| k in w.services && ip in w.services[k].ips;
    assert k in w.services - {key} && (w.services - {key})[k] == w.services[k];
    assert k in u.services - {key} && u.services[k] == (u.services - {key})[k];
  }

  lemma EventLeaksNothing(w: World, offer: Offers, key: string, cur: Option<Service>, i: nat, ip: string)
    requires Sound(w, offer) && Enabled(w, ServiceEvent(key, cur)) && DisjointOffers(offer) && NoLeak(w)
    requires IsAllocated(ServiceHandled(w, key, cur).pools, i, ip)
    ensures ip in Listed(ServiceHandled(w, key, cur).services)
  {
    var u := FirstHalf(w, offer, key, cur);
    MasksAfterDropping(u, OldIPs(w, key), Listed(u.services));
    DroppedLeaves(u, offer, OldIPs(w, key), Listed(u.services), i, ip);
    if ip !in Listed(u.services) {
      if cur.Some? {
        ProcessedLeaves(Stored(w, key, cur), key, i, ip);
      }
      assert IsAllocated(w.pools, i, ip);
      StillListed(w, u, key, ip);
    }
  }

  lemma KeyProcessedLeaksNothing(w: World, offer: Offers, i: nat, ip: string)
    requires PoolsAre(w.pools, offer) && DisjointOffers(offer) && NoLeak(w) && w.stage.KeyTaken?
    requires IsAllocated(KeyProcessed(w).pools, i, ip)
    ensures ip in Listed(KeyProcessed(w).services)
  {
    KeyProcessedPools(w);
    var y := Collected(w, ProcessKey);
    if y.Some? {
      ReleasedLeaves(w, offer, y.value, i, ip);
    }
    assert IsAllocated(w.pools, i, ip);
  }

  /** No step leaks an address. */
  lemma StepLeaksNothing(w: World, offer: Offers, step: Step, t: World)
    requires Sound(w, offer) && Goes(w, step, t) && DisjointOffers(offer) && NoLeak(w)
    ensures NoLeak(t)
  {
    if step.ServiceEvent? {
      forall i: nat, ip | IsAllocated(t.pools, i, ip) ensures ip in Listed(t.services) {
        EventLeaksNothing(w, offer, step.key, step.cur, i, ip);
      }
    } else if step.ProcessKey? {
      forall i: nat, ip | IsAllocated(t.pools, i, ip) ensures ip in Listed(t.services) {
        KeyProcessedLeaksNothing(w, offer, i, ip);
      }
    } else if step.HandleChange? {
      HandlingPops(w);
    } else if !step.TakeChange? {
      QuietStepTouches(w, step);
    }
  }

  // ----- Runs -----

  /** With disjoint pools, none with the default mask, at every point of every run the claims
      that pools ask for are in the end exactly those of their allocated addresses. */
  lemma {:induction false} PoolsStayInStep(ws: seq<World>, steps: seq<Step>, offer: Offers, k: nat)
    requires IsRun(ws, steps, offer) && DisjointOffers(offer) && k <= |steps|
    requires OwnMasks(ws[0]) && PoolsFollow(ws[0], offer)
    ensures OwnMasks(ws[k]) && PoolsFollow(ws[k], offer)
  {
    if k > 0 {
      PoolsStayInStep(ws, steps, offer, k - 1);
      StepOfRun(ws, steps, offer, k);
      StepKeepsPoolsInStep(ws[k - 1], offer, steps[k - 1], ws[k]);
    }
  }

  /** With disjoint pools, at every point of every run an allocated address is listed. */
  lemma {:induction false} NothingLeaks(ws: seq<World>, steps: seq<Step>, offer: Offers, k: nat)
    requires IsRun(ws, steps, offer) && DisjointOffers(offer) && NoLeak(ws[0]) && k <= |steps|
    ensures NoLeak(ws[k])
  {
    if k > 0 {
      NothingLeaks(ws, steps, offer, k - 1);
      StepOfRun(ws, steps, offer, k);
      StepLeaksNothing(ws[k - 1], offer, steps[k - 1], ws[k]);
    }
  }

  /** So when nothing is pending, a pool's claim exists exactly for its allocated addresses,
      and each of these is listed. */
  lemma DrainedPoolClaims(w: World, offer: Offers, i: nat, ip: string)
    requires PoolsFollow(w, offer) && NoLeak(w) && Pending(w) == []
    requires i < |offer| && ip in offer[i] && i < |w.pools| && HasMask(w.pools[i].spec)
    ensures PoolName(w.pools, i, ip) in w.claims <==> IsAllocated(w.pools, i, ip)
    ensures PoolName(w.pools, i, ip) in w.claims ==> ip in Listed(w.services)
  {
    assert InStep(w, i, ip);
    assert Will(w, PoolName(w.pools, i, ip)) == (PoolName(w.pools, i, ip) in w.claims);
  }

  lemma UntouchedPools(w: World, offer: Offers)
    requires Untouched(w) && forall i :: 0 <= i < |w.pools| ==> w.pools[i].spec.allocations == map[]
    ensures PoolsFollow(w, offer) && NoLeak(w)
  {
    assert forall n :: !Will(w, n);
  }
}
