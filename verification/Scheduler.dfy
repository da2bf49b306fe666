/** The claim scheduler as the object that it is: its methods change its fields, its two queues,
    the cached claims and the API's objects in place, and each is proved to do to all of them
    together what the functions of module Cluster say. */
module Scheduler {
  import opened Strings
  import opened Naming
  import opened WorkQueue
  import opened QueueRuns
  import opened Pools
  import opened Cluster
  import opened Soundness
  import Lookup
  import PoolCapacity

  function Further(r: Option<(nat, string)>, n: nat): Option<(nat, string)> {
    if r.Some? then Some((r.value.0 + n, r.value.1)) else None
  }

  lemma TailIsValid(pools: seq<Pool>)
    requires pools != [] && ValidPools(pools)
    ensures ValidPools(pools[1..])
  {
  }

  lemma GrantOfFirst(pools: seq<Pool>, rest: seq<Pool>, a: Answer)
    requires pools != [] && ValidPools(pools) && rest == pools[1..] && ValidPools(rest) && a == Available(pools[0].spec)
    ensures FirstGrant(pools) == if a.Free? then Some((0, a.ip)) else Further(FirstGrant(rest), 1)
  {
  }

  /** The search from pool i on: that pool's address, or the search from the next. */
  lemma GrantFrom(pools: seq<Pool>, i: nat, a: Answer)
    requires ValidPools(pools) && i < |pools| && a == Available(pools[i].spec)
    ensures ValidPools(pools[i..]) && ValidPools(pools[i + 1..])
    ensures FirstGrant(pools[i..]) == if a.Free? then Some((0, a.ip)) else Further(FirstGrant(pools[i + 1..]), 1)
  {
    assert pools[i..][0] == pools[i] && pools[i..][1..] == pools[i + 1..];
    TailIsValid(pools[i..]);
    GrantOfFirst(pools[i..], pools[i + 1..], a);
  }

  /** What is left to search decides. */
  ghost predicate SearchedTo(pools: seq<Pool>, i: nat)
    requires ValidPools(pools) && i <= |pools|
  {
    ValidPools(pools[i..]) && FirstGrant(pools) == Further(FirstGrant(pools[i..]), i)
  }

  lemma SearchStarts(pools: seq<Pool>)
    requires ValidPools(pools)
    ensures SearchedTo(pools, 0)
  {
    assert pools[0..] == pools;
  }

  lemma Furthest(whole: Option<(nat, string)>, here: Option<(nat, string)>, rest: Option<(nat, string)>, i: nat,
                 a: Answer)
    requires whole == Further(here, i) && here == if a.Free? then Some((0, a.ip)) else Further(rest, 1)
    ensures if a.Free? then whole == Some((i, a.ip)) else whole == Further(rest, i + 1)
  {
  }

  lemma SearchAdvances(pools: seq<Pool>, i: nat, a: Answer)
    requires ValidPools(pools) && i < |pools| && a == Available(pools[i].spec) && SearchedTo(pools, i)
    ensures if a.Free? then FirstGrant(pools) == Some((i, a.ip)) else SearchedTo(pools, i + 1)
  {
    GrantFrom(pools, i, a);
    Furthest(FirstGrant(pools), FirstGrant(pools[i..]), FirstGrant(pools[i + 1..]), i, a);
  }

  lemma SearchEnds(pools: seq<Pool>)
    requires ValidPools(pools) && SearchedTo(pools, |pools|)
    ensures FirstGrant(pools) == None
  {
  }

  method Ask(spec: PoolSpec) returns (a: Answer)
    requires spec.Valid()
    ensures a == Available(spec)
  {
    var pool := new IpClaimPool(spec);
    a := pool.AvailableIP();
  }

  /** One listed address: a claim is asked for unless a pool has allocated it. */
  function Requested(w: World, key: string, ip: string): World {
    if PoolOf(w.pools, ip).Some? then w else Send(w, Request(Create, MakeClaim(ip, w.mask, [key])))
  }

  lemma RequestsFrom(w: World, key: string, ips: seq<string>, i: nat)
    requires i < |ips|
    ensures SendAll(w, ClaimRequests(w.pools, w.mask, key, ips[i..]))
         == SendAll(Requested(w, key, ips[i]), ClaimRequests(w.pools, w.mask, key, ips[i + 1..]))
  {
    assert ips[i..][0] == ips[i] && ips[i..][1..] == ips[i + 1..];
    var r, rest := Request(Create, MakeClaim(ips[i], w.mask, [key])), ClaimRequests(w.pools, w.mask, key, ips[i + 1..]);
    assert ([r] + rest)[1..] == rest;
  }

  lemma OneMoreAddress(pools: seq<Pool>, ips: seq<string>, i: nat)
    requires i < |ips|
    ensures HasPoolAddress(pools, ips[..i + 1]) <==> HasPoolAddress(pools, ips[..i]) || PoolOf(pools, ips[i]).Some?
  {
    assert ips[..i + 1] == ips[..i] + [ips[i]];
  }

  lemma ListedWith(services: map<string, Service>, rest: set<string>, k: string)
    requires k in rest && rest <= services.Keys
    ensures Listed(services - (rest - {k})) == Listed(services - rest) + Elements(services[k].ips)
  {
    var t, u := services - (rest - {k}), services - rest;
    forall ip ensures ip in Listed(t) <==> ip in Listed(u) + Elements(services[k].ips) {
      if ip in Listed(t) {
        var j :| j in t && ip in t[j].ips;
        assert j == k || (j in u && ip in u[j].ips);
      }
      if ip in Listed(u) {
        var j :| j in u && ip in u[j].ips;
        assert j in t && ip in t[j].ips;
      }
      if ip in Elements(services[k].ips) {
        assert k in t && ip in t[k].ips;
      }
    }
  }

  lemma ExternalIPsKeepPools(w: World, key: string)
    requires key in w.services && ValidPools(w.pools)
    ensures ValidPools(ExternalIPsProcessed(w, key).pools)
  {
    SendAllChangesOnlyTheQueue(w, ClaimRequests(w.pools, w.mask, key, w.services[key].ips));
  }

  function Count(counter: map<string, nat>, node: string): nat {
    if node in counter then counter[node] else 0
  }

  lemma NextOwner(w: World, owners: seq<string>, i: nat, r: seq<string>, goal: seq<string>)
    requires i < |owners| && r + OwnersAlive(w, owners[i..]) == goal
    ensures (if OwnerAlive(w, owners[i]) then r + [owners[i]] else r) + OwnersAlive(w, owners[i + 1..]) == goal
  {
    assert owners[i..][0] == owners[i] && owners[i..][1..] == owners[i + 1..];
    var rest := OwnersAlive(w, owners[i + 1..]);
    assert r + ([owners[i]] + rest) == r + [owners[i]] + rest;
    assert [] + rest == rest;
  }

  lemma NextNode(nodes: seq<Node>, live: set<string>, i: nat, r: seq<Node>, goal: seq<Node>)
    requires i < |nodes| && r + LiveNodes(nodes[i..], live) == goal
    ensures (if nodes[i].name in live then r + [nodes[i]] else r) + LiveNodes(nodes[i + 1..], live) == goal
  {
    assert nodes[i..][0] == nodes[i] && nodes[i..][1..] == nodes[i + 1..];
    var rest := LiveNodes(nodes[i + 1..], live);
    assert r + ([nodes[i]] + rest) == r + [nodes[i]] + rest;
    assert [] + rest == rest;
  }

  lemma LoadWith(cache: map<string, Claim>, rest: set<string>, k: string)
    requires k in rest && rest <= cache.Keys
    ensures forall n :: Load(cache - (rest - {k}), n)
                     == Load(cache - rest, n) + if n != "" && cache[k].node == n then 1 else 0
  {
    var t, u := cache - (rest - {k}), cache - rest;
    forall n ensures Load(t, n) == Load(u, n) + if n != "" && cache[k].node == n then 1 else 0 {
      var before, after := set j | j in u && u[j].node == n, set j | j in t && t[j].node == n;
      assert after == if cache[k].node == n then before + {k} else before;
    }
  }

  function Updates(claim: Claim, pruned: bool, placed: bool): seq<Request> {
    (if pruned then [Request(Update, claim)] else []) + (if placed then [Request(Update, claim)] else [])
  }

  lemma UpdatesSent(w: World, claim: Claim, pruned: bool, placed: bool)
    ensures var r := Request(Update, claim);
            var t := if pruned then Send(w, r) else w;
            SendAll(w, Updates(claim, pruned, placed)) == if placed then Send(t, r) else t
  {
    var r := Request(Update, claim);
    var t := if pruned then Send(w, r) else w;
    assert [r][1..] == [] && ([r] + [r])[1..] == [r];
    assert [r] + [] == [r] && [] + [r] == [r];
    assert SendAll(t, [r]) == Send(t, r);
  }

  /** The claim that processing leaves in the cache, and what it asks for. */
  ghost predicate LeavesClaim(w: World, key: string, e: Claim, pruned: bool, placed: bool, err: bool)
    requires key in w.cache && ValidPools(w.pools)
  {
    ClaimProcessed(w, key) == (SendAll(w.(cache := w.cache[key := e]), Updates(e, pruned, placed)), err)
  }

  function Pruned(w: World, c: Claim, pruned: bool): Claim {
    if pruned then c.(owners := OwnersAlive(w, c.owners)) else c
  }

  /** The decision on a claim with a living owner: dead owners are dropped, and unless its
      node is live it is placed on the chosen one, which fails without any. */
  ghost predicate Decides(w: World, key: string, e: Claim, pruned: bool, placed: bool, err: bool)
    requires key in w.cache
  {
    var c, alive, nodes := w.cache[key], OwnersAlive(w, w.cache[key].owners), LiveNodes(w.nodes, w.live);
    var d := Pruned(w, c, pruned);
    var stays := c.node != "" && c.node in w.live;
    && pruned == (|alive| < |c.owners|) && placed == (!stays && nodes != []) && err == (!stays && nodes == [])
    && e == if placed then Placed(d, Chosen(w, nodes).name) else d
  }

  lemma DecisionProcesses(w: World, key: string, e: Claim, pruned: bool, placed: bool, err: bool)
    requires key in w.cache && ValidPools(w.pools) && OwnersAlive(w, w.cache[key].owners) != []
    requires Decides(w, key, e, pruned, placed, err)
    ensures LeavesClaim(w, key, e, pruned, placed, err)
  {
  }

  lemma SameNodesSameChoice(w: World, t: World, nodes: seq<Node>, key: string)
    requires nodes != [] && t.filter == w.filter && key in w.cache && key in t.cache
    requires t.cache == w.cache[key := t.cache[key]] && t.cache[key].node == w.cache[key].node
    ensures Chosen(t, nodes) == Chosen(w, nodes)
  {
    forall n ensures Load(t.cache, n) == Load(w.cache, n) {
      assert (set k | k in t.cache && t.cache[k].node == n) == (set k | k in w.cache && w.cache[k].node == n);
    }
    assert Loads(t.cache, nodes) == Loads(w.cache, nodes);
  }

  /** Unless the claim's node is live it is placed on the chosen one, which fails without any. */
  ghost predicate Places(w: World, key: string, cache: map<string, Claim>, placed: bool, err: bool)
    requires key in w.cache
  {
    var c, nodes := w.cache[key], LiveNodes(w.nodes, w.live);
    var stays := c.node != "" && c.node in w.live;
    && placed == (!stays && nodes != []) && err == (!stays && nodes == [])
    && cache == w.cache[key := if placed then Placed(c, Chosen(w, nodes).name) else c]
  }

  /** Pruning a claim does not change where the chosen node is. */
  lemma PruningKeepsChoice(w: World, d: World, key: string, owners: seq<string>)
    requires key in w.cache && d == w.(cache := w.cache[key := w.cache[key].(owners := owners)])
    ensures LiveNodes(d.nodes, d.live) == LiveNodes(w.nodes, w.live)
    ensures LiveNodes(w.nodes, w.live) != [] ==>
              Chosen(d, LiveNodes(w.nodes, w.live)) == Chosen(w, LiveNodes(w.nodes, w.live))
  {
    var nodes := LiveNodes(w.nodes, w.live);
    if nodes != [] {
      SameNodesSameChoice(w, d, nodes, key);
    }
  }

  /** Pruning and placing together are the decision. */
  lemma PrunedAndPlaced(w: World, d: World, key: string, cache: map<string, Claim>, pruned: bool, placed: bool,
                        err: bool)
    requires key in w.cache && pruned == (|OwnersAlive(w, w.cache[key].owners)| < |w.cache[key].owners|)
    requires d == w.(cache := w.cache[key := Pruned(w, w.cache[key], pruned)])
    requires Places(d, key, cache, placed, err)
    ensures Decides(w, key, cache[key], pruned, placed, err)
    ensures cache == w.cache[key := cache[key]]
  {
    PlacedAsUnpruned(w, d, key, Pruned(w, w.cache[key], pruned), cache, placed, err);
  }

  lemma PlacedAsUnpruned(w: World, d: World, key: string, e: Claim, cache: map<string, Claim>, placed: bool, err: bool)
    requires key in w.cache && e == w.cache[key].(owners := e.owners) && d == w.(cache := w.cache[key := e])
    requires Places(d, key, cache, placed, err)
    ensures var c, nodes := w.cache[key], LiveNodes(w.nodes, w.live);
            var stays := c.node != "" && c.node in w.live;
            && placed == (!stays && nodes != []) && err == (!stays && nodes == [])
            && cache == w.cache[key := if placed then Placed(e, Chosen(w, nodes).name) else e]
  {
    PruningKeepsChoice(w, d, key, e.owners);
  }

  predicate HasLabel(claims: map<string, Claim>, key: string, node: string) {
    key in claims && "ipnode" in claims[key].labels && claims[key].labels["ipnode"] == node
  }

  lemma NextLabelled(s: State<string>, claims: map<string, Claim>, order: seq<string>, node: string, i: nat)
    requires i < |order|
    ensures AddedAll(s, Labelled(claims, order[i..], node))
         == AddedAll(if HasLabel(claims, order[i], node) then Added(s, order[i]) else s,
                     Labelled(claims, order[i + 1..], node))
  {
    assert order[i..][0] == order[i] && order[i..][1..] == order[i + 1..];
    var rest := Labelled(claims, order[i + 1..], node);
    assert ([order[i]] + rest)[1..] == rest;
  }

  lemma ProcessedKeepsKeys(w: World, key: string)
    requires key in w.cache && ValidPools(w.pools)
    ensures var t := ClaimProcessed(w, key).0; t.keys == w.keys && ValidPools(t.pools)
  {
    if OwnersAlive(w, w.cache[key].owners) != [] {
      var (e, rs) := ClaimOutcome(w, key);
      SendAllChangesOnlyTheQueue(w.(cache := w.cache[key := e]), rs);
    }
  }

  /** One turn of the worker once the queue is closed: the first key is done with, even if it fails. */
  lemma ClosedTurn(w: World)
    requires w.stage.NoKey? && Exclusive(w.keys) && w.keys.closed && w.keys.queue != [] && ValidPools(w.pools)
    ensures Taken(w.keys).0.Item?
    ensures var t := KeyProcessed(KeyTakenFrom(w));
            && t.stage == KeyHandled(w.keys.queue[0]) && ValidPools(t.pools)
            && Exclusive(KeyFinished(t).keys)
            && KeyFinished(t).keys
            == State(w.keys.added - {w.keys.queue[0]}, w.keys.processing, true, w.keys.queue[1..])
  {
    TurnOnQueue(w.keys, true);
    var u := KeyTakenFrom(w);
    if u.stage.key in u.cache {
      ProcessedKeepsKeys(u, u.stage.key);
    }
    assert w.keys.queue[1..] + [] == w.keys.queue[1..];
  }

  lemma LeastIsUnique(loads: seq<nat>, i: nat, j: nat)
    requires IsLeast(loads, i) && IsLeast(loads, j)
    ensures i == j
  {
    assert loads[i] == loads[j];
  }

  class IpClaimScheduler {
    const mask: string
    const strict: bool
    const filter: Filter
    const queue: Queue<string>
    const changeQueue: Queue<Delta>
    var live: set<string>
    var observed: map<string, int>
    // the informers' stores
    var services: map<string, Service>
    var cache: map<string, Claim>
    // the API
    var existing: set<string>
    var pools: seq<Pool>
    var claims: map<string, Claim>
    var nodes: seq<Node>
    var next: nat
    // where the two workers are
    ghost var busy: Option<Delta>
    ghost var stage: Stage

    ghost function View(): World
      reads this, queue, changeQueue
    {
      World(mask, strict, filter, services, existing, pools, claims, cache, changeQueue.View(), next, busy,
            queue.View(), stage, nodes, live, observed)
    }

    predicate Separate() {
      queue as object != changeQueue
    }

    constructor (mask: string, strict: bool, filter: Filter)
      ensures this.mask == mask && this.strict == strict && this.filter == filter
      ensures Separate() && queue.View() == Empty() && changeQueue.View() == Empty()
      ensures fresh(queue) && fresh(changeQueue)
      ensures live == {} && observed == map[] && busy == None && stage == NoKey
    {
      this.mask, this.strict, this.filter := mask, strict, filter;
      live, observed := {}, map[];
      services, cache, existing, pools, claims, nodes, next := map[], map[], {}, [], map[], [], 0;
      busy, stage := None, NoKey;
      queue := new Queue();
      changeQueue := new Queue();
    }

    // ----- Requests and pools -----

    method AddClaimChangeRequest(claim: Claim, change: Change)
      requires Separate()
      modifies this`next, changeQueue
      ensures View() == Send(old(View()), Request(change, claim))
    {
      var req := Delta(next, Request(change, claim));
      next := next + 1;
      changeQueue.Add(req);
    }

    method PoolByAllocatedIP(ip: string) returns (r: Option<nat>)
      ensures r == PoolOf(pools, ip)
    {
      var i := 0;
      while i < |pools|
        invariant 0 <= i <= |pools|
        invariant PoolOf(pools, ip) == var t := PoolOf(pools[i..], ip); if t.Some? then Some(t.value + i) else None
      {
        if ip in pools[i].spec.allocations {
          return Some(i);
        }
        assert pools[i..][1..] == pools[i + 1..];
        i := i + 1;
      }
      return None;
    }

    method GetIPClaimByIP(ip: string) returns (r: Option<Claim>)
      requires ValidPools(pools)
      ensures r == Lookup.ClaimByIP(View(), ip)
    {
      var p := PoolByAllocatedIP(ip);
      var m := if p.Some? then PoolMask(pools[p.value]) else mask;
      var key := ClaimName(ip, m);
      return if key in claims then Some(claims[key]) else None;
    }

    method UpdatePoolAllocation(i: nat, ip: string, claimName: string)
      requires i < |pools|
      modifies this`pools
      ensures pools == old(pools)[i := Pool(old(pools)[i].name, PoolCapacity.Record(old(pools)[i].spec, ip, claimName))]
    {
      var pool := pools[i];
      var grants := pool.spec.allocations[ip := claimName];
      pools := pools[i := Pool(pool.name, pool.spec.(allocations := grants))];
    }

    method DeleteIPClaimAndAllocation(ip: string)
      requires Separate() && ValidPools(pools)
      modifies this`next, this`pools, changeQueue
      ensures View() == Released(old(View()), ip)
    {
      var p := PoolByAllocatedIP(ip);
      if p.Some? {
        var pool := pools[p.value];
        AddClaimChangeRequest(MakeClaim(ip, PoolMask(pool), []), Delete);
        pools := pools[p.value := Pool(pool.name, pool.spec.(allocations := pool.spec.allocations - {ip}))];
      } else {
        AddClaimChangeRequest(MakeClaim(ip, mask, []), Delete);
      }
    }

    // ----- Services -----

    /** The first pool that still has an address. */
    method FindFreeIP() returns (r: Option<(nat, string)>)
      requires ValidPools(pools)
      ensures r == FirstGrant(pools)
    {
      var i := 0;
      SearchStarts(pools);
      while i < |pools|
        invariant 0 <= i <= |pools| && SearchedTo(pools, i)
      {
        var a := Ask(pools[i].spec);
        SearchAdvances(pools, i, a);
        if a.Free? {
          return Some((i, a.ip));
        }
        i := i + 1;
      }
      SearchEnds(pools);
      return None;
    }

    method AutoAllocateExternalIP(key: string)
      requires Separate() && ValidPools(pools) && key in services
      modifies this`next, this`pools, this`services, changeQueue
      ensures var g := FirstGrant(old(pools));
              View() == if g.Some? then Allocate(old(View()), key, g.value.0, g.value.1) else old(View())
    {
      var found := FindFreeIP();
      if found.None? {
        return;
      }
      var (i, freeIP) := found.value;
      var claim := MakeClaim(freeIP, PoolMask(pools[i]), [key]);
      claim := claim.(labels := map["ip-pool-name" := pools[i].name]);
      AddClaimChangeRequest(claim, Create);
      UpdatePoolAllocation(i, freeIP, claim.name);
      services := services[key := services[key].(ips := services[key].ips + [freeIP])];
    }

    method RequestClaim(key: string, ip: string) returns (found: bool)
      requires Separate()
      modifies this`next, changeQueue
      ensures View() == Requested(old(View()), key, ip)
      ensures found == PoolOf(pools, ip).Some?
    {
      var p := PoolByAllocatedIP(ip);
      if p.Some? {
        return true;
      }
      AddClaimChangeRequest(MakeClaim(ip, mask, [key]), Create);
      return false;
    }

    method RequestClaims(key: string, ips: seq<string>) returns (foundAuto: bool)
      requires Separate()
      modifies this`next, changeQueue
      ensures View() == SendAll(old(View()), ClaimRequests(pools, mask, key, ips))
      ensures foundAuto == HasPoolAddress(pools, ips)
    {
      foundAuto := false;
      ghost var goal := SendAll(View(), ClaimRequests(pools, mask, key, ips));
      assert ips[0..] == ips;
      var i := 0;
      while i < |ips|
        invariant 0 <= i <= |ips|
        invariant foundAuto == HasPoolAddress(pools, ips[..i])
        invariant SendAll(View(), ClaimRequests(pools, mask, key, ips[i..])) == goal
      {
        RequestsFrom(View(), key, ips, i);
        OneMoreAddress(pools, ips, i);
        var found := RequestClaim(key, ips[i]);
        foundAuto := foundAuto || found;
        i := i + 1;
      }
      assert ips[..i] == ips;
    }

    method ProcessExternalIPs(key: string)
      requires Separate() && ValidPools(pools) && key in services
      modifies this`next, this`pools, this`services, changeQueue
      ensures View() == ExternalIPsProcessed(old(View()), key)
    {
      var svc := services[key];
      SendAllChangesOnlyTheQueue(View(), ClaimRequests(pools, mask, key, svc.ips));
      var foundAuto := RequestClaims(key, svc.ips);
      if foundAuto {
        return;
      }
      if "external-ip" in svc.annotations && svc.annotations["external-ip"] == "auto" {
        AutoAllocateExternalIP(key);
      } else if svc.loadBalancer {
        AutoAllocateExternalIP(key);
      }
    }

    /** The addresses all cached services list. */
    method CurrentRefs() returns (refs: set<string>)
      ensures refs == Listed(services)
    {
      refs := {};
      var rest := services.Keys;
      while rest != {}
        invariant rest <= services.Keys
        invariant refs == Listed(services - rest)
      {
        var k :| k in rest;
        var ips := services[k].ips;
        ghost var before := refs;
        var i := 0;
        while i < |ips|
          invariant 0 <= i <= |ips|
          invariant refs == before + Elements(ips[..i])
        {
          assert ips[..i + 1] == ips[..i] + [ips[i]];
          refs := refs + {ips[i]};
          i := i + 1;
        }
        assert ips[..i] == ips;
        ListedWith(services, rest, k);
        rest := rest - {k};
      }
      assert services - rest == services;
    }

    method ProcessOldService(ips: seq<string>)
      requires Separate() && ValidPools(pools)
      modifies this`next, this`pools, changeQueue
      ensures View() == Dropped(old(View()), ips, Listed(services))
    {
      var refs := CurrentRefs();
      var i := 0;
      while i < |ips|
        invariant 0 <= i <= |ips| && ValidPools(pools)
        invariant Dropped(View(), ips[i..], refs) == Dropped(old(View()), ips, refs)
      {
        assert ips[i..][0] == ips[i] && ips[i..][1..] == ips[i + 1..];
        if ips[i] !in refs {
          DeleteIPClaimAndAllocation(ips[i]);
        }
        i := i + 1;
      }
    }

    method ServiceAdded(key: string, svc: Service)
      requires Separate() && ValidPools(pools) && key !in services
      modifies this`next, this`pools, this`services, changeQueue
      ensures View() == ServiceHandled(old(View()), key, Some(svc))
    {
      services := services[key := svc];
      ExternalIPsKeepPools(View(), key);
      ProcessExternalIPs(key);
      assert Dropped(View(), [], Listed(services)) == View();
    }

    method ServiceUpdated(key: string, cur: Service)
      requires Separate() && ValidPools(pools) && key in services
      modifies this`next, this`pools, this`services, changeQueue
      ensures View() == ServiceHandled(old(View()), key, Some(cur))
    {
      var before := services[key];
      services := services[key := cur];
      ExternalIPsKeepPools(View(), key);
      ProcessExternalIPs(key);
      ProcessOldService(before.ips);
    }

    method ServiceDeleted(key: string)
      requires Separate() && ValidPools(pools) && key in services
      modifies this`next, this`pools, this`services, changeQueue
      ensures View() == ServiceHandled(old(View()), key, None)
    {
      var before := services[key];
      services := services - {key};
      ProcessOldService(before.ips);
    }

    // ----- The change worker -----

    method TakeChange() returns (got: Got<Delta>)
      requires busy.None? && Separate()
      modifies this`busy, changeQueue
      ensures got == Taken(old(changeQueue.View())).0
      ensures got.Item? ==> View() == ChangeTaken(old(View()))
      ensures got.Nothing? ==> View() == old(View()).(changes := Taken(old(changeQueue.View())).1)
    {
      got := changeQueue.Get();
      if got.Item? {
        busy := Some(got.item);
      }
    }

    /** The API stores a new version, unless it checks versions and this one is out of date. */
    method UpdateClaim(claim: Claim)
      modifies this`claims
      ensures View() == Applied(old(View()), Request(Update, claim))
    {
      if claim.name !in claims {
        return;
      }
      if strict && claim.version != claims[claim.name].version {
        return;
      }
      claims := claims[claim.name := claim.(version := claims[claim.name].version + 1)];
    }

    /** The loop over the recorded owners stops at the first match. */
    method IsOwner(owners: seq<string>, owner: string) returns (alreadyThere: bool)
      ensures alreadyThere == (owner in owners)
    {
      alreadyThere := false;
      var r := 0;
      while r < |owners|
        invariant 0 <= r <= |owners| && owner !in owners[..r]
      {
        if owner == owners[r] {
          return true;
        }
        r := r + 1;
      }
    }

    method HandleChange(req: Delta)
      requires busy == Some(req) && Separate()
      requires req.request.change.Create? ==> req.request.claim.owners != []
      modifies this`busy, this`claims, this`next, changeQueue
      ensures View() == ChangeHandled(old(View()))
    {
      var claim := req.request.claim;
      match req.request.change {
        case Create =>
          if claim.name in claims {
            var found := claims[claim.name];
            var alreadyThere := IsOwner(found.owners, claim.owners[0]);
            if !alreadyThere {
              AddClaimChangeRequest(found.(owners := found.owners + [claim.owners[0]]), Update);
            }
          } else {
            claims := claims[claim.name := claim.(version := 1)];
          }
        case Update => UpdateClaim(claim);
        case Delete => claims := claims - {claim.name};
      }
      changeQueue.Done(req);
      busy := None;
    }

    // ----- Claims on nodes -----

    method IsOwnerAlive(owner: string) returns (r: bool)
      ensures r == OwnerAlive(View(), owner)
    {
      r := true;
      if owner !in services {
        if |Split(owner, '/')| == 2 {
          r := owner in existing;
        }
      }
    }

    method FindOwnersAlive(owners: seq<string>) returns (r: seq<string>)
      ensures r == OwnersAlive(View(), owners)
    {
      r := [];
      ghost var goal := OwnersAlive(View(), owners);
      assert owners[0..] == owners;
      var i := 0;
      while i < |owners|
        invariant 0 <= i <= |owners|
        invariant r + OwnersAlive(View(), owners[i..]) == goal
      {
        NextOwner(View(), owners, i, r, goal);
        var isAlive := IsOwnerAlive(owners[i]);
        if isAlive {
          r := r + [owners[i]];
        }
        i := i + 1;
      }
    }

    method FindAliveNodes() returns (r: seq<Node>)
      ensures r == LiveNodes(nodes, live)
    {
      r := [];
      ghost var goal := LiveNodes(nodes, live);
      assert nodes[0..] == nodes;
      var i := 0;
      while i < |nodes|
        invariant 0 <= i <= |nodes|
        invariant r + LiveNodes(nodes[i..], live) == goal
      {
        NextNode(nodes, live, i, r, goal);
        if nodes[i].name in live {
          r := r + [nodes[i]];
        }
        i := i + 1;
      }
    }

    /** Counts the cached claims by node. */
    method CountClaims() returns (counter: map<string, nat>)
      ensures forall n :: Count(counter, n) == Load(cache, n)
    {
      counter := map[];
      var rest := cache.Keys;
      while rest != {}
        invariant rest <= cache.Keys
        invariant forall n :: Count(counter, n) == Load(cache - rest, n)
      {
        var k :| k in rest;
        LoadWith(cache, rest, k);
        rest := rest - {k};
        var node := cache[k].node;
        if node != "" {
          counter := counter[node := Count(counter, node) + 1];
        }
      }
      assert cache - rest == cache;
    }

    method GetFairNode(ipnodes: seq<Node>) returns (n: Node)
      requires ipnodes != []
      ensures n == ipnodes[Least(Loads(cache, ipnodes))]
    {
      var counter := CountClaims();
      ghost var loads := Loads(cache, ipnodes);
      var min, minCount := 0, -1;
      var i := 0;
      while i < |ipnodes|
        invariant 0 <= i <= |ipnodes| && (minCount == -1 <==> i == 0)
        invariant i > 0 ==> minCount >= 0 && IsLeast(loads[..i], min) && minCount == loads[min]
      {
        var count := Count(counter, ipnodes[i].name);
        assert loads[..i + 1][..i] == loads[..i] && loads[i] == count;
        if minCount == -1 || count < minCount {
          minCount, min := count, i;
        }
        i := i + 1;
      }
      assert loads[..i] == loads;
      LeastIsUnique(loads, min, Least(loads));
      return ipnodes[min];
    }

    method GetNode(ipnodes: seq<Node>) returns (n: Node)
      requires ipnodes != []
      ensures n == Chosen(View(), ipnodes)
    {
      match filter {
        case Fair => n := GetFairNode(ipnodes);
        case FirstAlive => n := ipnodes[0];
      }
    }

    /** A request holds the cached object itself, so one sent before the object changes again
        shows its final value too: both requests are made from that value. */
    method AddUpdates(claim: Claim, pruned: bool, placed: bool)
      requires Separate()
      modifies this`next, changeQueue
      ensures View() == SendAll(old(View()), Updates(claim, pruned, placed))
    {
      UpdatesSent(View(), claim, pruned, placed);
      if pruned {
        AddClaimChangeRequest(claim, Update);
      }
      if placed {
        AddClaimChangeRequest(claim, Update);
      }
    }

    method DropDeadOwners(key: string, ownersAlive: seq<string>) returns (pruned: bool)
      requires key in cache
      modifies this`cache
      ensures pruned == (|ownersAlive| < |old(cache)[key].owners|)
      ensures var c := old(cache)[key];
              cache == old(cache)[key := if pruned then c.(owners := ownersAlive) else c]
    {
      pruned := |ownersAlive| < |cache[key].owners|;
      if pruned {
        cache := cache[key := cache[key].(owners := ownersAlive)];
      } else {
        assert cache == cache[key := cache[key]];
      }
    }

    /** A live listed node for a claim, if there is one. */
    method PickNode() returns (n: Option<Node>)
      ensures var alive := LiveNodes(nodes, live);
              n == if alive == [] then None else Some(Chosen(View(), alive))
    {
      var liveNodes := FindAliveNodes();
      if |liveNodes| == 0 {
        return None;
      }
      var ipnode := GetNode(liveNodes);
      return Some(ipnode);
    }

    /** The claim gets the label and the name of a live node, unless it is on one. */
    method PlaceClaim(key: string) returns (placed: bool, err: bool)
      requires key in cache
      modifies this`cache
      ensures Places(old(View()), key, cache, placed, err)
    {
      var claim := cache[key];
      if claim.node != "" && claim.node in live {
        assert cache == cache[key := claim];
        return false, false;
      }
      var picked := PickNode();
      if picked.None? {
        assert cache == cache[key := claim];
        return false, true;
      }
      claim := claim.(labels := map["ipnode" := picked.value.name]);
      claim := claim.(node := picked.value.name);
      cache := cache[key := claim];
      return true, false;
    }

    method ScheduleClaim(key: string, ownersAlive: seq<string>)
      returns (err: bool, ghost pruned: bool, ghost placed: bool)
      requires Separate() && key in cache && ownersAlive == OwnersAlive(View(), cache[key].owners)
      modifies this`cache, this`next, changeQueue
      ensures key in cache && Decides(old(View()), key, cache[key], pruned, placed, err)
      ensures View() == SendAll(old(View()).(cache := old(cache)[key := cache[key]]),
                                Updates(cache[key], pruned, placed))
    {
      ghost var w := View();
      var prune := DropDeadOwners(key, ownersAlive);
      ghost var d := View();
      var place;
      place, err := PlaceClaim(key);
      pruned, placed := prune, place;
      PrunedAndPlaced(w, d, key, cache, prune, place, err);
      AddUpdates(cache[key], prune, place);
    }

    method ProcessIpClaim(key: string) returns (err: bool)
      requires Separate() && key in cache && ValidPools(pools)
      modifies this`cache, this`pools, this`next, changeQueue
      ensures (View(), err) == ClaimProcessed(old(View()), key)
    {
      var claim := cache[key];
      var ownersAlive := FindOwnersAlive(claim.owners);
      if |ownersAlive| == 0 {
        DeleteIPClaimAndAllocation(AddressOf(claim.cidr));
        return false;
      }
      ghost var pruned, placed;
      err, pruned, placed := ScheduleClaim(key, ownersAlive);
      DecisionProcesses(old(View()), key, cache[key], pruned, placed, err);
    }

    method TakeKey() returns (got: Got<string>)
      requires stage.NoKey? && Separate()
      modifies this`stage, queue
      ensures got == Taken(old(queue.View())).0
      ensures got.Item? ==> View() == KeyTakenFrom(old(View()))
      ensures got.Nothing? ==> View() == old(View()).(keys := Taken(old(queue.View())).1)
    {
      got := queue.Get();
      if got.Item? {
        stage := KeyTaken(got.item);
      }
    }

    method ProcessKey(key: string)
      requires stage == KeyTaken(key) && Separate() && ValidPools(pools)
      modifies this`stage, this`cache, this`pools, this`next, queue, changeQueue
      ensures View() == KeyProcessed(old(View()))
    {
      if key in cache {
        var err := ProcessIpClaim(key);
        if err {
          queue.Add(key);
        }
      }
      stage := KeyHandled(key);
    }

    method FinishKey(key: string)
      requires stage == KeyHandled(key) && Separate()
      modifies this`stage, queue
      ensures View() == KeyFinished(old(View()))
    {
      queue.Done(key);
      stage := NoKey;
    }

    // ----- The monitor -----

    /** Adds the claims that the API lists, in its `order`, under the label of a node. */
    method AddLabelled(order: seq<string>, node: string)
      requires Separate()
      modifies queue
      ensures queue.View() == AddedAll(old(queue.View()), Labelled(claims, order, node))
    {
      ghost var goal := AddedAll(queue.View(), Labelled(claims, order, node));
      assert order[0..] == order;
      var i := 0;
      while i < |order|
        invariant 0 <= i <= |order|
        invariant AddedAll(queue.View(), Labelled(claims, order[i..], node)) == goal
      {
        NextLabelled(queue.View(), claims, order, node, i);
        if HasLabel(claims, order[i], node) {
          queue.Add(order[i]);
        }
        i := i + 1;
      }
    }

    method SeeNode(order: seq<string>, node: Node)
      requires Separate()
      modifies this`observed, this`live, queue
      ensures View() == NodeSeen(old(View()), order, node)
    {
      var version := if node.name in observed then observed[node.name] else 0;
      if version < node.revision {
        observed := observed[node.name := node.revision];
        live := live + {node.name};
      } else {
        live := live - {node.name};
        AddLabelled(order, node.name);
      }
    }

    method MonitorTick(order: seq<string>)
      requires Separate()
      modifies this`observed, this`live, queue
      ensures View() == Ticked(old(View()), order, nodes)
    {
      ghost var goal := Ticked(View(), order, nodes);
      assert nodes[0..] == nodes;
      var i := 0;
      while i < |nodes|
        invariant 0 <= i <= |nodes|
        invariant Ticked(View(), order, nodes[i..]) == goal
      {
        assert nodes[i..][0] == nodes[i] && nodes[i..][1..] == nodes[i + 1..];
        SeeNode(order, nodes[i]);
        i := i + 1;
      }
    }

    // ----- The claim informer -----

    /** Its store catches up with the API for one claim, and the handler runs. */
    method SyncClaim(name: string)
      requires Separate()
      modifies this`cache, queue
      ensures View() == ClaimSynced(old(View()), name)
    {
      if name in claims {
        cache := cache[name := claims[name]];
        queue.Add(name);
      } else {
        cache := cache - {name};
      }
    }

    method ResyncClaim(name: string)
      requires Separate()
      modifies queue
      ensures View() == ClaimResynced(old(View()), name)
    {
      if name in cache {
        queue.Add(name);
      }
    }

    // ----- The worker loop at shutdown -----

    /** The worker on claim keys after Close: it quits after exactly as many turns as keys were
        pending, although every one of them may fail and ask to be added again. */
    method WorkerAfterClose() returns (turns: nat)
      requires Separate() && stage.NoKey? && ValidPools(pools)
      requires Exclusive(queue.View()) && queue.closed && queue.processing == {}
      modifies this`stage, this`cache, this`pools, this`next, queue, changeQueue
      ensures queue.View() == State({}, {}, true, []) && stage.NoKey?
      ensures turns == |old(queue.queue)|
    {
      turns := 0;
      while true
        invariant stage.NoKey? && ValidPools(pools)
        invariant Exclusive(queue.View()) && queue.closed && queue.processing == {}
        invariant turns + |queue.queue| == |old(queue.queue)|
        decreases |queue.queue|
      {
        ghost var w := View();
        TakenFromExclusive(w.keys);
        if w.keys.queue != [] {
          ClosedTurn(w);
        }
        var got := TakeKey();
        if got.Nothing? {
          assert w.keys.added == {};
          return;
        }
        ProcessKey(got.item);
        FinishKey(got.item);
        turns := turns + 1;
      }
    }
  }
}
