/** The state of the claim scheduler (pkg/scheduler/scheduler.go) and what its handlers and
    workers do to it.  The Kubernetes API and the informer caches are plain maps. */
module Cluster {
  import opened Strings
  import opened Naming
  import opened WorkQueue
  import opened Pools
  import PoolCapacity
  import QueueRuns

  datatype Service = Service(ips: seq<string>, annotations: map<string, string>, loadBalancer: bool)

  /** An owner is the "namespace/name" key of a service; `version` is the resource version. */
  datatype Claim = Claim(name: string, cidr: string, owners: seq<string>, node: string,
                         labels: map<string, string>, version: nat)

  datatype Change = Create | Update | Delete

  datatype Request = Request(change: Change, claim: Claim)

  /** A request as it is queued: the pointer makes every Delta different. */
  datatype Delta = Delta(pointer: nat, request: Request)

  datatype Pool = Pool(name: string, spec: PoolSpec)

  datatype Node = Node(name: string, revision: int)

  datatype Filter = Fair | FirstAlive

  datatype Stage = NoKey | KeyTaken(key: string) | KeyHandled(key: string)

  datatype World = World(
    mask: string,                      // the default mask
    strict: bool,                      // whether the API checks resource versions
    filter: Filter,
    services: map<string, Service>,    // the informer's store of services
    existing: set<string>,             // the services the API knows
    pools: seq<Pool>,                  // the IP pools, in list order
    claims: map<string, Claim>,        // the claims the API holds
    cache: map<string, Claim>,         // the informer's store of claims
    changes: State<Delta>,             // the queue of claim change requests
    next: nat,                         // the pointer of the next Delta
    busy: Option<Delta>,               // the Delta the change worker has taken
    keys: State<string>,               // the queue of claim keys
    stage: Stage,                      // the worker on claim keys
    nodes: seq<Node>,                  // the nodes the API lists
    live: set<string>,
    observed: map<string, int>)

  // ----- Requests -----

  function MakeClaim(ip: string, mask: string, owners: seq<string>): Claim {
    Claim(ClaimName(ip, mask), CidrOf(ip, mask), owners, "", map[], 0)
  }

  function Send(w: World, r: Request): World {
    w.(changes := Added(w.changes, Delta(w.next, r)), next := w.next + 1)
  }

  function SendAll(w: World, rs: seq<Request>): World
    decreases |rs|
  {
    if rs == [] then w else SendAll(Send(w, rs[0]), rs[1..])
  }

  // ----- Pools -----

  /** The first pool that has the address allocated. */
  function PoolOf(pools: seq<Pool>, ip: string): (r: Option<nat>)
    ensures r.Some? ==> r.value < |pools| && ip in pools[r.value].spec.allocations
    ensures r.None? ==> forall i :: 0 <= i < |pools| ==> ip !in pools[i].spec.allocations
  {
    if pools == [] then None
    else if ip in pools[0].spec.allocations then Some(0)
    else
      var r := PoolOf(pools[1..], ip);
      if r.Some? then Some(r.value + 1) else None
  }

  predicate HasMask(p: PoolSpec) {
    |Split(p.cidr, '/')| > 1
  }

  /** Ranges can be indexed, and a CIDR that was parsed, or under which something is
      allocated, contains a slash. */
  ghost predicate ValidPool(p: PoolSpec) {
    p.Valid() && (p.parsed.Some? || p.allocations != map[] ==> HasMask(p))
  }

  ghost predicate ValidPools(pools: seq<Pool>) {
    forall i :: 0 <= i < |pools| ==> ValidPool(pools[i].spec)
  }

  function PoolMask(pool: Pool): string
    requires HasMask(pool.spec)
  {
    MaskOf(pool.spec.cidr)
  }

  /** The first pool with a free address. */
  function FirstGrant(pools: seq<Pool>): (r: Option<(nat, string)>)
    requires ValidPools(pools)
    ensures r.Some? ==> r.value.0 < |pools| && Available(pools[r.value.0].spec) == Free(r.value.1)
    ensures r.None? ==> forall i :: 0 <= i < |pools| ==> !Available(pools[i].spec).Free?
  {
    if pools == [] then None
    else
      var a := Available(pools[0].spec);
      if a.Free? then Some((0, a.ip))
      else
        var r := FirstGrant(pools[1..]);
        if r.Some? then Some((r.value.0 + 1, r.value.1)) else None
  }

  // ----- Service events -----

  /** Claims for the addresses that no pool has allocated. */
  function ClaimRequests(pools: seq<Pool>, mask: string, key: string, ips: seq<string>): seq<Request> {
    if ips == [] then []
    else
      var rest := ClaimRequests(pools, mask, key, ips[1..]);
      if PoolOf(pools, ips[0]).Some? then rest
      else [Request(Create, MakeClaim(ips[0], mask, [key]))] + rest
  }

  predicate HasPoolAddress(pools: seq<Pool>, ips: seq<string>) {
    exists ip | ip in ips :: PoolOf(pools, ip).Some?
  }

  predicate WantsAddress(svc: Service) {
    ("external-ip" in svc.annotations && svc.annotations["external-ip"] == "auto") || svc.loadBalancer
  }

  /** The address a service is granted when it is processed. */
  function GrantFor(pools: seq<Pool>, svc: Service): (r: Option<(nat, string)>)
    requires ValidPools(pools)
    ensures r.Some? ==> r.value.0 < |pools| && Available(pools[r.value.0].spec) == Free(r.value.1)
  {
    if HasPoolAddress(pools, svc.ips) || !WantsAddress(svc) then None else FirstGrant(pools)
  }

  function GrantClaim(pool: Pool, ip: string, key: string): Claim
    requires HasMask(pool.spec)
  {
    MakeClaim(ip, PoolMask(pool), [key]).(labels := map["ip-pool-name" := pool.name])
  }

  function Allocate(w: World, key: string, i: nat, ip: string): World
    requires key in w.services && i < |w.pools| && HasMask(w.pools[i].spec)
  {
    var pool, svc := w.pools[i], w.services[key];
    var claim := GrantClaim(pool, ip, key);
    Send(w, Request(Create, claim))
      .(pools := w.pools[i := Pool(pool.name, PoolCapacity.Record(pool.spec, ip, claim.name))],
        services := w.services[key := svc.(ips := svc.ips + [ip])])
  }

  /** processExternalIPs for the stored service `key`. */
  function ExternalIPsProcessed(w: World, key: string): World
    requires key in w.services && ValidPools(w.pools)
  {
    var svc := w.services[key];
    var t := SendAll(w, ClaimRequests(w.pools, w.mask, key, svc.ips));
    SendAllChangesOnlyTheQueue(w, ClaimRequests(w.pools, w.mask, key, svc.ips));
    match GrantFor(w.pools, svc)
    case None => t
    case Some((i, ip)) => Allocate(t, key, i, ip)
  }

  lemma {:induction false} SendAllChangesOnlyTheQueue(w: World, rs: seq<Request>)
    ensures SendAll(w, rs) == w.(changes := SendAll(w, rs).changes, next := w.next + |rs|)
    decreases |rs|
  {
    if rs != [] {
      SendAllChangesOnlyTheQueue(Send(w, rs[0]), rs[1..]);
    }
  }

  /** The addresses some stored service lists. */
  function Listed(services: map<string, Service>): set<string> {
    set k, ip | k in services && ip in services[k].ips :: ip
  }

  /** deleteIPClaimAndAllocation: the request, and the pools without the allocation. */
  function ReleaseRequest(pools: seq<Pool>, mask: string, ip: string): Request
    requires ValidPools(pools)
  {
    var i := PoolOf(pools, ip);
    Request(Delete, MakeClaim(ip, if i.Some? then PoolMask(pools[i.value]) else mask, []))
  }

  function PoolsWithout(pools: seq<Pool>, ip: string): (r: seq<Pool>)
    requires ValidPools(pools)
    ensures ValidPools(r) && |r| == |pools|
  {
    match PoolOf(pools, ip)
    case Some(i) => pools[i := Pool(pools[i].name, PoolCapacity.Release(pools[i].spec, ip))]
    case None => pools
  }

  function Released(w: World, ip: string): World
    requires ValidPools(w.pools)
  {
    Send(w, ReleaseRequest(w.pools, w.mask, ip)).(pools := PoolsWithout(w.pools, ip))
  }

  /** processOldService: `refs` is the set of addresses still listed. */
  function Dropped(w: World, ips: seq<string>, refs: set<string>): World
    requires ValidPools(w.pools)
    decreases |ips|
  {
    if ips == [] then w
    else Dropped(if ips[0] in refs then w else Released(w, ips[0]), ips[1..], refs)
  }

  function OldIPs(w: World, key: string): seq<string> {
    if key in w.services then w.services[key].ips else []
  }

  function Stored(w: World, key: string, cur: Option<Service>): World {
    w.(services := if cur.Some? then w.services[key := cur.value] else w.services - {key})
  }

  lemma StaysValid(t: World, key: string, cur: Option<Service>)
    requires ValidPools(t.pools) && (cur.Some? ==> key in t.services)
    ensures cur.Some? ==> ValidPools(ExternalIPsProcessed(t, key).pools)
  {
    if cur.Some? {
      SendAllChangesOnlyTheQueue(t, ClaimRequests(t.pools, t.mask, key, t.services[key].ips));
    }
  }

  /** A service was added, updated or deleted; the store is updated first. */
  function ServiceHandled(w: World, key: string, cur: Option<Service>): World
    requires ValidPools(w.pools)
  {
    var t := Stored(w, key, cur);
    var u := if cur.Some? then ExternalIPsProcessed(t, key) else t;
    StaysValid(t, key, cur);
    Dropped(u, OldIPs(w, key), Listed(u.services))
  }

  // ----- The change worker -----

  /** What one request does to the API and to the queue. */
  function Applied(w: World, r: Request): World
    requires r.change.Create? ==> r.claim.owners != []
  {
    var name := r.claim.name;
    match r.change
    case Create =>
      if name !in w.claims then w.(claims := w.claims[name := r.claim.(version := 1)])
      else
        var c := w.claims[name];
        if r.claim.owners[0] in c.owners then w
        else Send(w, Request(Update, c.(owners := c.owners + [r.claim.owners[0]])))
    case Update =>
      if name in w.claims && (!w.strict || r.claim.version == w.claims[name].version)
      then w.(claims := w.claims[name := r.claim.(version := w.claims[name].version + 1)])
      else w
    case Delete => w.(claims := w.claims - {name})
  }

  function ChangeTaken(w: World): World
    requires Taken(w.changes).0.Item?
  {
    w.(changes := Taken(w.changes).1, busy := Some(Taken(w.changes).0.item))
  }

  function ChangeHandled(w: World): World
    requires w.busy.Some? && (w.busy.value.request.change.Create? ==> w.busy.value.request.claim.owners != [])
  {
    var t := Applied(w, w.busy.value.request);
    t.(changes := Finished(t.changes, w.busy.value), busy := None)
  }

  // ----- Claims on nodes -----

  /** An owner counts as alive when its service is cached or known to the API, and also when
      its key has no namespace: the API is not asked then. */
  predicate OwnerAlive(w: World, owner: string) {
    owner in w.services || |Split(owner, '/')| != 2 || owner in w.existing
  }

  function OwnersAlive(w: World, owners: seq<string>): (r: seq<string>)
    ensures |r| <= |owners|
    ensures forall k :: k in r <==> k in owners && OwnerAlive(w, k)
  {
    if owners == [] then []
    else (if OwnerAlive(w, owners[0]) then [owners[0]] else []) + OwnersAlive(w, owners[1..])
  }

  function LiveNodes(nodes: seq<Node>, live: set<string>): (r: seq<Node>)
    ensures forall n :: n in r <==> n in nodes && n.name in live
  {
    if nodes == [] then []
    else (if nodes[0].name in live then [nodes[0]] else []) + LiveNodes(nodes[1..], live)
  }

  /** The number of cached claims on a node; claims without a node are not counted. */
  function Load(cache: map<string, Claim>, node: string): nat {
    if node == "" then 0 else |set k | k in cache && cache[k].node == node|
  }

  function Loads(cache: map<string, Claim>, nodes: seq<Node>): (r: seq<nat>)
    ensures |r| == |nodes| && forall i :: 0 <= i < |nodes| ==> r[i] == Load(cache, nodes[i].name)
  {
    seq(|nodes|, i requires 0 <= i < |nodes| => Load(cache, nodes[i].name))
  }

  /** The first index with the smallest value. */
  ghost predicate IsLeast(loads: seq<nat>, i: nat) {
    && i < |loads|
    && (forall j :: 0 <= j < |loads| ==> loads[i] <= loads[j])
    && forall j :: 0 <= j < i ==> loads[i] < loads[j]
  }

  lemma {:induction false} LeastExists(loads: seq<nat>)
    requires loads != []
    ensures exists i: nat :: IsLeast(loads, i)
  {
    var n := |loads| - 1;
    if n == 0 {
      assert IsLeast(loads, 0);
    } else {
      LeastExists(loads[..n]);
      var i: nat :| IsLeast(loads[..n], i);
      assert forall j :: 0 <= j < n ==> loads[j] == loads[..n][j];
      assert IsLeast(loads, if loads[n] < loads[i] then n else i);
    }
  }

  ghost function Least(loads: seq<nat>): (i: nat)
    requires loads != []
    ensures IsLeast(loads, i)
  {
    LeastExists(loads);
    var i: nat :| IsLeast(loads, i);
    i
  }

  /** The node a claim is placed on, given the live listed nodes. */
  ghost function Chosen(w: World, nodes: seq<Node>): (n: Node)
    requires nodes != []
    ensures n in nodes
  {
    match w.filter
    case Fair => nodes[Least(Loads(w.cache, nodes))]
    case FirstAlive => nodes[0]
  }

  function Placed(c: Claim, node: string): Claim {
    c.(labels := map["ipnode" := node], node := node)
  }

  /** processIpClaim for a cached claim, and whether it fails. */
  ghost function ClaimProcessed(w: World, key: string): (World, bool)
    requires key in w.cache && ValidPools(w.pools)
  {
    var c := w.cache[key];
    var alive := OwnersAlive(w, c.owners);
    if alive == [] then (Released(w, AddressOf(c.cidr)), false)
    else
      var pruned := |alive| < |c.owners|;
      var d := if pruned then c.(owners := alive) else c;
      var nodes := LiveNodes(w.nodes, w.live);
      var stays := c.node != "" && c.node in w.live;
      var e := if stays || nodes == [] then d else Placed(d, Chosen(w, nodes).name);
      // the claim is the cached object itself, so both requests carry its final value
      var update := Request(Update, e);
      var rs := (if pruned then [update] else []) + (if stays || nodes == [] then [] else [update]);
      (SendAll(w.(cache := w.cache[key := e]), rs), !stays && nodes == [])
  }

  function KeyTakenFrom(w: World): World
    requires Taken(w.keys).0.Item?
  {
    w.(keys := Taken(w.keys).1, stage := KeyTaken(Taken(w.keys).0.item))
  }

  ghost function KeyProcessed(w: World): World
    requires w.stage.KeyTaken? && ValidPools(w.pools)
  {
    var key := w.stage.key;
    var (t, err) := if key in w.cache then ClaimProcessed(w, key) else (w, false);
    t.(keys := if err then Added(t.keys, key) else t.keys, stage := KeyHandled(key))
  }

  function KeyFinished(w: World): World
    requires w.stage.KeyHandled?
  {
    w.(keys := Finished(w.keys, w.stage.key), stage := NoKey)
  }

  // ----- The monitor -----

  function Observed(observed: map<string, int>, name: string): int {
    if name in observed then observed[name] else 0
  }

  /** The claims labelled with a node, in the order in which the API lists them. */
  function Labelled(claims: map<string, Claim>, order: seq<string>, node: string): (r: seq<string>)
    ensures forall k :: k in r <==> k in order && k in claims
                                    && "ipnode" in claims[k].labels && claims[k].labels["ipnode"] == node
  {
    if order == [] then []
    else
      var k, rest := order[0], Labelled(claims, order[1..], node);
      if k in claims && "ipnode" in claims[k].labels && claims[k].labels["ipnode"] == node then [k] + rest else rest
  }

  function NodeSeen(w: World, order: seq<string>, node: Node): World {
    if Observed(w.observed, node.name) < node.revision then
      w.(observed := w.observed[node.name := node.revision], live := w.live + {node.name})
    else
      w.(live := w.live - {node.name}, keys := QueueRuns.AddedAll(w.keys, Labelled(w.claims, order, node.name)))
  }

  /** One tick over a list of nodes. */
  function Ticked(w: World, order: seq<string>, nodes: seq<Node>): World
    decreases |nodes|
  {
    if nodes == [] then w else Ticked(NodeSeen(w, order, nodes[0]), order, nodes[1..])
  }

  // ----- The claim informer -----

  /** The cache catches up with the API for one claim; additions and updates queue its key. */
  function ClaimSynced(w: World, name: string): World {
    if name in w.claims then w.(cache := w.cache[name := w.claims[name]], keys := Added(w.keys, name))
    else w.(cache := w.cache - {name})
  }

  /** The periodic resync queues the key of a cached claim without asking the API. */
  function ClaimResynced(w: World, name: string): World {
    if name in w.cache then w.(keys := Added(w.keys, name)) else w
  }
}
