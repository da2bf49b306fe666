/** Pool grants over whole runs: an address granted to a service stays recorded in its pool
    while the service lists it, so it is never granted a second time. */
module Grants {
  import opened Strings
  import opened Naming
  import opened Cluster
  import opened ClaimNames
  import opened Soundness
  import opened ClaimSet
  import PoolCapacity

  /** A pool, by its index, has granted an address to a service, under the name of a claim. */
  datatype Grant = Grant(service: string, ip: string, pool: nat, claim: string)

  /** No address is offered by two pools. */
  ghost predicate DisjointOffers(offer: Offers) {
    forall i, j, ip | 0 <= i < j < |offer| && ip in offer[i] :: ip !in offer[j]
  }

  /** Every allocation carries the name of its address's claim. */
  ghost predicate NamedAllocations(pools: seq<Pool>)
    requires ValidPools(pools)
  {
    forall i, ip | 0 <= i < |pools| && ip in pools[i].spec.allocations ::
      pools[i].spec.allocations[ip] == ClaimName(ip, PoolMask(pools[i]))
  }

  predicate Allocated(pools: seq<Pool>, i: nat, ip: string, claim: string) {
    i < |pools| && ip in pools[i].spec.allocations && pools[i].spec.allocations[ip] == claim
  }

  /** The grant of pool i to a service. */
  function GrantOf(pools: seq<Pool>, key: string, i: nat, ip: string): Grant
    requires i < |pools| && HasMask(pools[i].spec)
  {
    Grant(key, ip, i, ClaimName(ip, PoolMask(pools[i])))
  }

  /** The grants still in force are listed by their services and allocated in their pools. */
  ghost predicate InForce(w: World, held: set<Grant>) {
    forall g | g in held :: ListedBy(w.services, g.service, g.ip) && Allocated(w.pools, g.pool, g.ip, g.claim)
  }

  /** The grant an event makes. */
  function Granted(w: World, step: Step): set<Grant>
    requires ValidPools(w.pools)
  {
    if step.ServiceEvent? && step.cur.Some? && GrantFor(w.pools, step.cur.value).Some? then
      var (i, ip) := GrantFor(w.pools, step.cur.value).value;
      {GrantOf(w.pools, step.key, i, ip)}
    else {}
  }

  /** A grant ends when its service is gone or no longer lists the address. */
  function Held(held: set<Grant>, granted: set<Grant>, w': World): set<Grant> {
    (set g | g in held && ListedBy(w'.services, g.service, g.ip)) + granted
  }

  /** The step collects no claim of an address that a grant holds. */
  predicate SparesGrants(w: World, held: set<Grant>, step: Step) {
    Collected(w, step).Some? ==> forall g | g in held :: g.ip != Collected(w, step).value
  }

  // ----- Allocating and releasing -----

  lemma ReleaseKeepsOthers(pools: seq<Pool>, ip: string, j: nat, x: string, c: string)
    requires ValidPools(pools) && x != ip && Allocated(pools, j, x, c)
    ensures Allocated(PoolsWithout(pools, ip), j, x, c)
  {
  }

  /** With disjoint offers the pool that has an address is the one that releases it. */
  lemma ReleaseEndsAllocation(pools: seq<Pool>, offer: Offers, ip: string, j: nat, c: string)
    requires PoolsAre(pools, offer) && DisjointOffers(offer) && Allocated(pools, j, ip, c)
    ensures !Allocated(PoolsWithout(pools, ip), j, ip, c)
  {
    var i := PoolOf(pools, ip).value;
    assert PoolIs(pools[i], offer[i]) && PoolIs(pools[j], offer[j]);
    assert ip in offer[i] && ip in offer[j];
  }

  lemma ReleaseKeepsNames(pools: seq<Pool>, ip: string)
    requires ValidPools(pools) && NamedAllocations(pools)
    ensures NamedAllocations(PoolsWithout(pools, ip))
  {
  }

  /** Every allocation of an address in `xs` is kept. */
  ghost predicate KeepsAllocations(pools: seq<Pool>, pools': seq<Pool>, xs: set<string>) {
    forall j: nat, x, c | x in xs && Allocated(pools, j, x, c) :: Allocated(pools', j, x, c)
  }

  lemma {:induction false} DroppingKeepsListed(w: World, ips: seq<string>, refs: set<string>)
    requires ValidPools(w.pools) && NamedAllocations(w.pools)
    ensures var t := Dropped(w, ips, refs);
            && t == w.(changes := t.changes, next := t.next, pools := t.pools)
            && ValidPools(t.pools) && NamedAllocations(t.pools) && KeepsAllocations(w.pools, t.pools, refs)
    decreases |ips|
  {
    if ips != [] {
      if ips[0] in refs {
        DroppingKeepsListed(w, ips[1..], refs);
      } else {
        ReleaseKeepsNames(w.pools, ips[0]);
        forall j: nat, x, c | x in refs && Allocated(w.pools, j, x, c)
          ensures Allocated(PoolsWithout(w.pools, ips[0]), j, x, c)
        {
          ReleaseKeepsOthers(w.pools, ips[0], j, x, c);
        }
        DroppingKeepsListed(Released(w, ips[0]), ips[1..], refs);
      }
    }
  }

  /** Recording one more allocation under its claim's name. */
  lemma RecordingKeepsGrants(pools: seq<Pool>, i: nat, ip: string)
    requires ValidPools(pools) && NamedAllocations(pools) && i < |pools| && HasMask(pools[i].spec)
    requires ip !in pools[i].spec.allocations
    ensures var claim := ClaimName(ip, PoolMask(pools[i]));
            var pools' := pools[i := Pool(pools[i].name, PoolCapacity.Record(pools[i].spec, ip, claim))];
            && ValidPools(pools') && NamedAllocations(pools') && Allocated(pools', i, ip, claim)
            && forall j: nat, x, c | Allocated(pools, j, x, c) :: Allocated(pools', j, x, c)
  {
  }

  /** What processing a service does to the pools and to its addresses. */
  lemma ProcessingGrants(t: World, offer: Offers, key: string)
    requires PoolsAre(t.pools, offer) && NamedAllocations(t.pools) && key in t.services
    ensures var u, grant := ExternalIPsProcessed(t, key), GrantFor(t.pools, t.services[key]);
            && ValidPools(u.pools) && NamedAllocations(u.pools)
            && (forall j: nat, x, c | Allocated(t.pools, j, x, c) :: Allocated(u.pools, j, x, c))
            && (grant.Some? ==>
                  && ListedBy(u.services, key, grant.value.1)
                  && Allocated(u.pools, grant.value.0, grant.value.1,
                               ClaimName(grant.value.1, PoolMask(t.pools[grant.value.0]))))
  {
    var grant := GrantFor(t.pools, t.services[key]);
    SendAllChangesOnlyTheQueue(t, ClaimRequests(t.pools, t.mask, key, t.services[key].ips));
    if grant.Some? {
      GrantIsOffered(t.pools, offer, t.services[key]);
      RecordingKeepsGrants(t.pools, grant.value.0, grant.value.1);
    }
  }

  /** With disjoint offers an address that is free in the pool that offers it is allocated
      nowhere: the granting pool need not look at the others. */
  lemma FreeInItsPoolIsFree(pools: seq<Pool>, offer: Offers, i: nat, ip: string)
    requires PoolsAre(pools, offer) && DisjointOffers(offer) && i < |pools|
    requires ip in offer[i] && ip !in pools[i].spec.allocations
    ensures forall j: nat, c :: !Allocated(pools, j, ip, c)
  {
    forall j | 0 <= j < |pools| ensures ip !in pools[j].spec.allocations {
      assert PoolIs(pools[j], offer[j]);
    }
  }

  /** A grant in force is never granted again, to anyone, by any pool. */
  lemma GrantIsNew(w: World, offer: Offers, held: set<Grant>, step: Step)
    requires PoolsAre(w.pools, offer) && DisjointOffers(offer) && InForce(w, held)
    ensures forall g, h | g in Granted(w, step) && h in held :: g.ip != h.ip
  {
    if Granted(w, step) != {} {
      var (i, ip) := GrantFor(w.pools, step.cur.value).value;
      GrantIsOffered(w.pools, offer, step.cur.value);
      FreeInItsPoolIsFree(w.pools, offer, i, ip);
    }
  }

  // ----- Steps -----

  lemma EventKeepsGrants(w: World, offer: Offers, held: set<Grant>, key: string, cur: Option<Service>)
    requires PoolsAre(w.pools, offer) && NamedAllocations(w.pools) && InForce(w, held)
    ensures var step, w' := ServiceEvent(key, cur), ServiceHandled(w, key, cur);
            && ValidPools(w'.pools) && NamedAllocations(w'.pools)
            && InForce(w', Held(held, Granted(w, step), w'))
  {
    var granted := Granted(w, ServiceEvent(key, cur));
    var t := Stored(w, key, cur);
    var u := if cur.Some? then ExternalIPsProcessed(t, key) else t;
    if cur.Some? {
      ProcessingGrants(t, offer, key);
    }
    var w' := ServiceHandled(w, key, cur);
    DroppingKeepsListed(u, OldIPs(w, key), Listed(u.services));
    GrantsSurviveDropping(w, u, w', held, granted);
  }

  lemma GrantsSurviveDropping(w: World, u: World, w': World, held: set<Grant>, granted: set<Grant>)
    requires InForce(w, held) && w'.services == u.services
    requires forall j: nat, x, c | Allocated(w.pools, j, x, c) :: Allocated(u.pools, j, x, c)
    requires forall g | g in granted ::
               ListedBy(u.services, g.service, g.ip) && Allocated(u.pools, g.pool, g.ip, g.claim)
    requires KeepsAllocations(u.pools, w'.pools, Listed(u.services))
    ensures InForce(w', Held(held, granted, w'))
  {
    forall g | g in Held(held, granted, w')
      ensures ListedBy(w'.services, g.service, g.ip) && Allocated(w'.pools, g.pool, g.ip, g.claim)
    {
      assert Allocated(u.pools, g.pool, g.ip, g.claim);
      assert g.ip in Listed(u.services);
    }
  }

  /** Collecting a claim ends exactly the grants of its address. */
  lemma CollectingGrants(w: World, offer: Offers, held: set<Grant>, ip: string)
    requires PoolsAre(w.pools, offer) && NamedAllocations(w.pools) && InForce(w, held)
    ensures var t := Released(w, ip);
            && ValidPools(t.pools) && NamedAllocations(t.pools) && t.services == w.services
            && ((forall g | g in held :: g.ip != ip) ==> InForce(t, held))
            && (DisjointOffers(offer) && InForce(t, held) ==> forall g | g in held :: g.ip != ip)
  {
    ReleaseKeepsNames(w.pools, ip);
    forall g | g in held && g.ip != ip ensures Allocated(PoolsWithout(w.pools, ip), g.pool, g.ip, g.claim) {
      ReleaseKeepsOthers(w.pools, ip, g.pool, g.ip, g.claim);
    }
    if DisjointOffers(offer) {
      forall g | g in held && g.ip == ip ensures !Allocated(PoolsWithout(w.pools, ip), g.pool, g.ip, g.claim) {
        ReleaseEndsAllocation(w.pools, offer, ip, g.pool, g.claim);
      }
    }
  }

  lemma KeepingGrants(w: World, key: string)
    requires key in w.cache && ValidPools(w.pools) && OwnersAlive(w, w.cache[key].owners) != []
    ensures ClaimProcessed(w, key).0.pools == w.pools && ClaimProcessed(w, key).0.services == w.services
  {
    var (e, rs) := ClaimOutcome(w, key);
    SendAllChangesOnlyTheQueue(w.(cache := w.cache[key := e]), rs);
  }

  /** Only collecting a claim touches the pools. */
  lemma KeyProcessedPools(w: World)
    requires w.stage.KeyTaken? && ValidPools(w.pools)
    ensures var t, y := KeyProcessed(w), Collected(w, ProcessKey);
            && t.pools == (if y.Some? then PoolsWithout(w.pools, y.value) else w.pools)
            && t.services == w.services
  {
    var key := w.stage.key;
    if key in w.cache && OwnersAlive(w, w.cache[key].owners) != [] {
      KeepingGrants(w, key);
    }
  }

  /** Processing a key keeps the grants in force if, and with disjoint pools only if, it
      collects no claim of a granted address. */
  lemma KeyProcessedGrants(w: World, offer: Offers, held: set<Grant>)
    requires Sound(w, offer) && w.stage.KeyTaken? && NamedAllocations(w.pools) && InForce(w, held)
    ensures var t := KeyProcessed(w);
            && ValidPools(t.pools) && NamedAllocations(t.pools) && t.services == w.services
            && (SparesGrants(w, held, ProcessKey) ==> InForce(t, held))
            && (DisjointOffers(offer) && InForce(t, held) ==> SparesGrants(w, held, ProcessKey))
  {
    KeyProcessedPools(w);
    if Collected(w, ProcessKey).Some? {
      CollectingGrants(w, offer, held, Collected(w, ProcessKey).value);
    }
  }

  lemma HeldIsAll(w: World, held: set<Grant>)
    requires forall g | g in held :: ListedBy(w.services, g.service, g.ip)
    ensures Held(held, {}, w) == held
  {
  }

  lemma SamePoolsSameGrants(w: World, t: World, held: set<Grant>)
    requires ValidPools(w.pools) && NamedAllocations(w.pools) && InForce(w, held)
    requires t.pools == w.pools && t.services == w.services
    ensures ValidPools(t.pools) && NamedAllocations(t.pools) && InForce(t, Held(held, {}, t))
  {
  }

  /** A step keeps every grant in force if, and with disjoint pools only if, it collects no
      claim of a granted address. */
  lemma StepKeepsGrants(w: World, offer: Offers, held: set<Grant>, step: Step)
    requires Sound(w, offer) && Enabled(w, step) && (step.HandleChange? ==> Serviceable(w))
    requires NamedAllocations(w.pools) && InForce(w, held)
    ensures var t := Do(w, step);
            && ValidPools(t.pools) && NamedAllocations(t.pools)
            && (SparesGrants(w, held, step) ==> InForce(t, Held(held, Granted(w, step), t)))
            && (DisjointOffers(offer) && InForce(t, Held(held, Granted(w, step), t)) ==> SparesGrants(w, held, step))
  {
    if step.ServiceEvent? {
      EventKeepsGrants(w, offer, held, step.key, step.cur);
    } else if step.ProcessKey? {
      KeyProcessedGrants(w, offer, held);
      HeldIsAll(KeyProcessed(w), held);
    } else {
      if step.HandleChange? {
        HandlingPops(w);
      } else if !step.TakeChange? {
        QuietStepTouches(w, step);
      }
      SamePoolsSameGrants(w, Do(w, step), held);
    }
  }

  // ----- Runs -----

  /** Allocations carry the names of their claims at every point of every run. */
  lemma {:induction false} AllocationsStayNamed(ws: seq<World>, steps: seq<Step>, offer: Offers, k: nat)
    requires IsRun(ws, steps, offer) && ValidPools(ws[0].pools) && NamedAllocations(ws[0].pools) && k <= |steps|
    ensures ValidPools(ws[k].pools) && NamedAllocations(ws[k].pools)
  {
    if k > 0 {
      AllocationsStayNamed(ws, steps, offer, k - 1);
      StepOfRun(ws, steps, offer, k);
      StepKeepsGrants(ws[k - 1], offer, {}, steps[k - 1]);
    }
  }

  /** `granted[i]` is what step i grants; allocations carry the names of their claims. */
  ghost predicate GrantsAt(ws: seq<World>, steps: seq<Step>, granted: seq<set<Grant>>, i: nat)
    requires |ws| == |steps| + 1 == |granted| + 1 && i < |ws|
  {
    && ValidPools(ws[i].pools) && NamedAllocations(ws[i].pools)
    && (i < |steps| ==> granted[i] == Granted(ws[i], steps[i]))
  }

  /** A run, with the grants that each of its steps makes. */
  ghost predicate GrantRun(ws: seq<World>, steps: seq<Step>, granted: seq<set<Grant>>, offer: Offers) {
    && IsRun(ws, steps, offer) && |granted| == |steps|
    && forall i :: 0 <= i < |ws| ==> GrantsAt(ws, steps, granted, i)
  }

  /** Every run is one whose first allocations carry the names of their claims. */
  lemma GrantsOfRun(ws: seq<World>, steps: seq<Step>, offer: Offers) returns (granted: seq<set<Grant>>)
    requires IsRun(ws, steps, offer) && ValidPools(ws[0].pools) && NamedAllocations(ws[0].pools)
    ensures GrantRun(ws, steps, granted, offer)
  {
    forall i | 0 <= i < |ws| ensures ValidPools(ws[i].pools) && NamedAllocations(ws[i].pools) {
      AllocationsStayNamed(ws, steps, offer, i);
    }
    granted := seq(|steps|, i requires 0 <= i < |steps| => Granted(ws[i], steps[i]));
    forall i | 0 <= i < |ws| ensures GrantsAt(ws, steps, granted, i) {
    }
  }

  /** The grants held after k steps of a run, starting from none. */
  function HeldAt(ws: seq<World>, granted: seq<set<Grant>>, k: nat): set<Grant>
    requires |ws| == |granted| + 1 && k <= |granted|
  {
    if k == 0 then {} else Held(HeldAt(ws, granted, k - 1), granted[k - 1], ws[k])
  }

  /** None of the first k steps collects the claim of an address granted by then. */
  ghost predicate SparedTo(ws: seq<World>, steps: seq<Step>, granted: seq<set<Grant>>, k: nat)
    requires |ws| == |steps| + 1 == |granted| + 1 && k <= |steps|
  {
    k == 0 || (SparedTo(ws, steps, granted, k - 1) && SparesGrants(ws[k - 1], HeldAt(ws, granted, k - 1), steps[k - 1]))
  }

  /** The grants held at each of the first k + 1 points are in force there. */
  ghost predicate InForceTo(ws: seq<World>, granted: seq<set<Grant>>, k: nat)
    requires |ws| == |granted| + 1 && k <= |granted|
  {
    (k == 0 || InForceTo(ws, granted, k - 1)) && InForce(ws[k], HeldAt(ws, granted, k))
  }

  lemma GrantsAfter(w: World, offer: Offers, step: Step, t: World, held: set<Grant>, held': set<Grant>)
    requires Sound(w, offer) && Goes(w, step, t) && NamedAllocations(w.pools) && InForce(w, held)
    requires held' == Held(held, Granted(w, step), t)
    ensures SparesGrants(w, held, step) ==> InForce(t, held')
    ensures DisjointOffers(offer) && InForce(t, held') ==> SparesGrants(w, held, step)
  {
    StepKeepsGrants(w, offer, held, step);
  }

  /** From point k - 1 to point k of a run, with the grants held. */
  lemma NextGrants(ws: seq<World>, steps: seq<Step>, granted: seq<set<Grant>>, offer: Offers, k: nat)
    requires GrantRun(ws, steps, granted, offer) && 0 < k <= |steps|
    requires InForce(ws[k - 1], HeldAt(ws, granted, k - 1))
    ensures var held := HeldAt(ws, granted, k - 1);
            && (SparesGrants(ws[k - 1], held, steps[k - 1]) ==> InForce(ws[k], HeldAt(ws, granted, k)))
            && (DisjointOffers(offer) && InForce(ws[k], HeldAt(ws, granted, k)) ==>
                  SparesGrants(ws[k - 1], held, steps[k - 1]))
  {
    StepOfRun(ws, steps, offer, k);
    assert GrantsAt(ws, steps, granted, k - 1);
    GrantsAfter(ws[k - 1], offer, steps[k - 1], ws[k], HeldAt(ws, granted, k - 1), HeldAt(ws, granted, k));
  }

  lemma {:induction false} ForceAt(ws: seq<World>, steps: seq<Step>, granted: seq<set<Grant>>, offer: Offers, k: nat)
    requires GrantRun(ws, steps, granted, offer) && k <= |steps| && SparedTo(ws, steps, granted, k)
    ensures InForce(ws[k], HeldAt(ws, granted, k))
  {
    if k > 0 {
      ForceAt(ws, steps, granted, offer, k - 1);
      NextGrants(ws, steps, granted, offer, k);
    }
  }

  /** At every point of every run the grants made so far are listed by their services and
      allocated in their pools, as long as no claim of a granted address is collected. */
  lemma {:induction false} GrantsStayInForce(ws: seq<World>, steps: seq<Step>, granted: seq<set<Grant>>, offer: Offers,
                                             k: nat)
    requires GrantRun(ws, steps, granted, offer) && k <= |steps| && SparedTo(ws, steps, granted, k)
    ensures InForceTo(ws, granted, k)
  {
    ForceAt(ws, steps, granted, offer, k);
    if k > 0 {
      GrantsStayInForce(ws, steps, granted, offer, k - 1);
    }
  }

  lemma {:induction false} ForceMeansSpared(ws: seq<World>, steps: seq<Step>, granted: seq<set<Grant>>, offer: Offers,
                                            k: nat)
    requires GrantRun(ws, steps, granted, offer) && DisjointOffers(offer) && k <= |steps| && InForceTo(ws, granted, k)
    ensures SparedTo(ws, steps, granted, k)
  {
    if k > 0 {
      ForceMeansSpared(ws, steps, granted, offer, k - 1);
      NextGrants(ws, steps, granted, offer, k);
    }
  }

  /** With disjoint pools that is the only way to lose one. */
  lemma GrantsStayInForceIff(ws: seq<World>, steps: seq<Step>, granted: seq<set<Grant>>, offer: Offers, k: nat)
    requires GrantRun(ws, steps, granted, offer) && DisjointOffers(offer) && k <= |steps|
    ensures InForceTo(ws, granted, k) <==> SparedTo(ws, steps, granted, k)
  {
    if SparedTo(ws, steps, granted, k) {
      GrantsStayInForce(ws, steps, granted, offer, k);
    } else if InForceTo(ws, granted, k) {
      ForceMeansSpared(ws, steps, granted, offer, k);
    }
  }

  /** With disjoint pools no run grants an address that is still held. */
  lemma NeverGrantedTwice(ws: seq<World>, steps: seq<Step>, granted: seq<set<Grant>>, offer: Offers, k: nat, step: Step)
    requires GrantRun(ws, steps, granted, offer) && DisjointOffers(offer)
    requires k <= |steps| && SparedTo(ws, steps, granted, k)
    ensures ValidPools(ws[k].pools)
    ensures forall g, h | g in Granted(ws[k], step) && h in HeldAt(ws, granted, k) :: g.ip != h.ip
  {
    ForceAt(ws, steps, granted, offer, k);
    EveryRunIsSound(ws, steps, offer, k);
    GrantIsNew(ws[k], offer, HeldAt(ws, granted, k), step);
  }

  /** A service that lists an allocated address is granted nothing. */
  lemma ListerIsGrantedNothing(pools: seq<Pool>, svc: Service, i: nat, ip: string)
    requires ValidPools(pools) && i < |pools| && ip in pools[i].spec.allocations && ip in svc.ips
    ensures GrantFor(pools, svc) == None
  {
    assert PoolOf(pools, ip).Some?;
  }

  /** At no point of a run is a service with a grant granted anything more while it lists
      the granted address, and processing it again changes no pool. */
  lemma HolderIsGrantedNothing(ws: seq<World>, steps: seq<Step>, granted: seq<set<Grant>>, offer: Offers, k: nat,
                               g: Grant, cur: Service)
    requires GrantRun(ws, steps, granted, offer) && k <= |steps| && SparedTo(ws, steps, granted, k)
    requires g in HeldAt(ws, granted, k) && g.ip in cur.ips
    ensures ValidPools(ws[k].pools)
    ensures Granted(ws[k], ServiceEvent(g.service, Some(cur))) == {}
    ensures g.service in ws[k].services && ExternalIPsProcessed(ws[k], g.service).pools == ws[k].pools
  {
    ForceAt(ws, steps, granted, offer, k);
    assert GrantsAt(ws, steps, granted, k);
    HolderInForce(ws[k], HeldAt(ws, granted, k), g, cur);
  }

  lemma HolderInForce(w: World, held: set<Grant>, g: Grant, cur: Service)
    requires ValidPools(w.pools) && InForce(w, held) && g in held && g.ip in cur.ips
    ensures Granted(w, ServiceEvent(g.service, Some(cur))) == {}
    ensures g.service in w.services && ExternalIPsProcessed(w, g.service).pools == w.pools
  {
    ListerIsGrantedNothing(w.pools, cur, g.pool, g.ip);
    ListerIsGrantedNothing(w.pools, w.services[g.service], g.pool, g.ip);
    SendAllChangesOnlyTheQueue(w, ClaimRequests(w.pools, w.mask, g.service, w.services[g.service].ips));
  }

  /** Processing a service again right after its grant changes no pool. */
  lemma ReprocessingGrantsNothing(w: World, offer: Offers, key: string)
    requires PoolsAre(w.pools, offer) && NamedAllocations(w.pools) && key in w.services
    requires GrantFor(w.pools, w.services[key]).Some?
    ensures var u := ExternalIPsProcessed(w, key);
            && ValidPools(u.pools) && key in u.services && GrantFor(u.pools, u.services[key]).None?
            && ExternalIPsProcessed(u, key).pools == u.pools
  {
    ProcessingGrants(w, offer, key);
    var u, g := ExternalIPsProcessed(w, key), GrantFor(w.pools, w.services[key]).value;
    ListerIsGrantedNothing(u.pools, u.services[key], g.0, g.1);
    SendAllChangesOnlyTheQueue(u, ClaimRequests(u.pools, u.mask, key, u.services[key].ips));
  }
}
