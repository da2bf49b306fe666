/** What processing a cached claim does, in plain terms: whether it is collected, which owners
    it keeps, where it is placed, and what the API is asked for. */
module ClaimProcessing {
  import opened Strings
  import opened Naming
  import opened Cluster
  import opened ClaimNames
  import opened Soundness
  import opened Failover
  import opened FailoverInformed

  // ----- Owners -----

  /** The owner is a service that is cached or that the API knows, or its key is not one of
      namespace and name, so that the API cannot be asked. */
  predicate Stands(w: World, owner: string) {
    owner in w.services || owner in w.existing || |Split(owner, '/')| != 2
  }

  /** No recorded owner stands. */
  predicate Orphaned(w: World, c: Claim) {
    forall o | o in c.owners :: !Stands(w, o)
  }

  predicate IsSubsequence(a: seq<string>, b: seq<string>)
    decreases |b|
  {
    if b == [] then a == []
    else if a != [] && a[0] == b[0] then IsSubsequence(a[1..], b[1..])
    else IsSubsequence(a, b[1..])
  }

  /** The owners that are kept: in order, those that stand and no others. */
  ghost predicate KeepsStanding(w: World, owners: seq<string>, kept: seq<string>) {
    && IsSubsequence(kept, owners)
    && (forall o :: o in kept <==> o in owners && Stands(w, o))
  }

  lemma {:induction false} KeepsThoseThatStand(w: World, owners: seq<string>)
    ensures KeepsStanding(w, owners, OwnersAlive(w, owners))
    ensures |OwnersAlive(w, owners)| < |owners| <==> exists o | o in owners :: !Stands(w, o)
    ensures |OwnersAlive(w, owners)| == |owners| ==> OwnersAlive(w, owners) == owners
  {
    if owners != [] {
      KeepsThoseThatStand(w, owners[1..]);
      OneMore(w, owners[0], owners[1..], OwnersAlive(w, owners[1..]));
      assert owners == [owners[0]] + owners[1..];
    }
  }

  lemma OneMore(w: World, first: string, rest: seq<string>, kept: seq<string>)
    requires KeepsStanding(w, rest, kept) && |kept| <= |rest|
    requires |kept| < |rest| <==> exists o | o in rest :: !Stands(w, o)
    ensures var owners, now := [first] + rest, (if Stands(w, first) then [first] else []) + kept;
            && KeepsStanding(w, owners, now)
            && (|now| < |owners| <==> exists o | o in owners :: !Stands(w, o))
  {
    var owners, now := [first] + rest, (if Stands(w, first) then [first] else []) + kept;
    assert owners[1..] == rest;
    if Stands(w, first) {
      assert now[1..] == kept;
    } else {
      assert now == kept && first !in kept;
      assert first in owners;
    }
    if o :| o in owners && !Stands(w, o) {
      assert o == first || o in rest;
    }
    if o :| o in rest && !Stands(w, o) {
      assert o in owners;
    }
  }

  // ----- Nodes -----

  /** The number of cached claims on a node; claims without a node are on none. */
  function Held(cache: map<string, Claim>, node: string): nat {
    |set k | k in cache && cache[k].node == node && node != ""|
  }

  /** A listed node that is live. */
  predicate Usable(w: World, i: nat) {
    i < |w.nodes| && w.nodes[i].name in w.live
  }

  /** The node that the filter has to choose: the first usable one, or the first of those with
      the fewest cached claims. */
  predicate IsChoice(w: World, i: nat) {
    && Usable(w, i)
    && match w.filter
       case FirstAlive => forall j :: 0 <= j < i ==> !Usable(w, j)
       case Fair =>
         && (forall j | 0 <= j < |w.nodes| && Usable(w, j) ::
               Held(w.cache, w.nodes[i].name) <= Held(w.cache, w.nodes[j].name))
         && forall j | 0 <= j < i && Usable(w, j) ::
              Held(w.cache, w.nodes[i].name) < Held(w.cache, w.nodes[j].name)
  }

  /** Every node of `nodes` that is live, and comes before place i, is among the first p of `ls`. */
  ghost predicate Ahead(nodes: seq<Node>, live: set<string>, i: nat, ls: seq<Node>, p: nat)
    requires i <= |nodes| && p <= |ls|
  {
    forall j | 0 <= j < i && nodes[j].name in live :: nodes[j] in ls[..p]
  }

  /** A live listed node, by its place in the list: those before it are before it. */
  lemma {:induction false} PlaceInList(nodes: seq<Node>, live: set<string>, p: nat) returns (i: nat)
    requires p < |LiveNodes(nodes, live)|
    ensures i < |nodes| && nodes[i] == LiveNodes(nodes, live)[p] && nodes[i].name in live
    ensures Ahead(nodes, live, i, LiveNodes(nodes, live), p)
  {
    var first, rest := nodes[0], nodes[1..];
    assert nodes == [first] + rest;
    if first.name !in live {
      assert LiveNodes(nodes, live) == LiveNodes(rest, live);
      i := PlaceInList(rest, live, p);
      AheadOfCons(first, rest, live, i, LiveNodes(rest, live), p);
      i := i + 1;
    } else if p == 0 {
      i := 0;
    } else {
      assert LiveNodes(nodes, live) == [first] + LiveNodes(rest, live);
      i := PlaceInList(rest, live, p - 1);
      AheadOfCons(first, rest, live, i, LiveNodes(rest, live), p - 1);
      i := i + 1;
    }
  }

  lemma AheadOfCons(n: Node, rest: seq<Node>, live: set<string>, i: nat, ls: seq<Node>, p: nat)
    requires i <= |rest| && p <= |ls| && Ahead(rest, live, i, ls, p)
    ensures n.name !in live ==> Ahead([n] + rest, live, i + 1, ls, p)
    ensures n.name in live ==> Ahead([n] + rest, live, i + 1, [n] + ls, p + 1)
  {
    var nodes := [n] + rest;
    assert ([n] + ls)[..p + 1] == [n] + ls[..p];
    forall j | 0 <= j < i + 1 && nodes[j].name in live
      ensures nodes[j] == n || nodes[j] in ls[..p]
    {
      if j > 0 {
        assert nodes[j] == rest[j - 1];
      }
    }
  }

  lemma LoadIsHeld(cache: map<string, Claim>, node: string)
    ensures Load(cache, node) == Held(cache, node)
  {
    var s := set k | k in cache && cache[k].node == node && node != "";
    if node == "" {
      assert s == {};
    } else {
      assert s == set k | k in cache && cache[k].node == node;
    }
  }

  /** The chosen node is the right one. */
  lemma ChosenIsChoice(w: World)
    requires LiveNodes(w.nodes, w.live) != []
    ensures exists i: nat :: IsChoice(w, i) && w.nodes[i] == Chosen(w, LiveNodes(w.nodes, w.live))
  {
    var nodes := LiveNodes(w.nodes, w.live);
    if w.filter.FirstAlive? {
      var i := PlaceInList(w.nodes, w.live, 0);
      assert IsChoice(w, i);
    } else {
      var p := Least(Loads(w.cache, nodes));
      var i := PlaceInList(w.nodes, w.live, p);
      LeastIsFair(w, i, p);
    }
  }

  lemma LeastIsFair(w: World, i: nat, p: nat)
    requires w.filter.Fair? && Usable(w, i) && p < |LiveNodes(w.nodes, w.live)|
    requires LiveNodes(w.nodes, w.live)[p] == w.nodes[i] && IsLeast(Loads(w.cache, LiveNodes(w.nodes, w.live)), p)
    requires Ahead(w.nodes, w.live, i, LiveNodes(w.nodes, w.live), p)
    ensures IsChoice(w, i)
  {
    forall j | 0 <= j < |w.nodes| && Usable(w, j)
      ensures Held(w.cache, w.nodes[i].name) <= Held(w.cache, w.nodes[j].name)
      ensures j < i ==> Held(w.cache, w.nodes[i].name) < Held(w.cache, w.nodes[j].name)
    {
      NoFairer(w.cache, LiveNodes(w.nodes, w.live), p, w.nodes[j]);
    }
  }

  lemma NoFairer(cache: map<string, Claim>, nodes: seq<Node>, p: nat, n: Node)
    requires p < |nodes| && n in nodes && IsLeast(Loads(cache, nodes), p)
    ensures Held(cache, nodes[p].name) <= Held(cache, n.name)
    ensures n in nodes[..p] ==> Held(cache, nodes[p].name) < Held(cache, n.name)
  {
    var loads := Loads(cache, nodes);
    LoadIsHeld(cache, nodes[p].name);
    LoadIsHeld(cache, n.name);
    var q :| 0 <= q < |nodes| && nodes[q] == n;
    assert loads[p] <= loads[q];
    if n in nodes[..p] {
      var q' :| 0 <= q' < p && nodes[..p][q'] == n;
      assert loads[p] < loads[q'];
    }
  }

  // ----- One claim -----

  ghost predicate SomeUsable(w: World) {
    exists i: nat :: Usable(w, i)
  }

  lemma UsableIffLive(w: World)
    ensures SomeUsable(w) <==> LiveNodes(w.nodes, w.live) != []
  {
    var nodes := LiveNodes(w.nodes, w.live);
    if nodes != [] {
      var i := PlaceInList(w.nodes, w.live, 0);
      assert Usable(w, i);
    }
    if i: nat :| Usable(w, i) {
      assert w.nodes[i] in nodes;
    }
  }

  /** What becomes of a claim that has an owner: the owners that stand are kept, in order; it
      stays on a live node, goes to the filter's choice, or fails to be placed. */
  ghost predicate Settled(w: World, c: Claim, e: Claim) {
    && KeepsStanding(w, c.owners, e.owners)
    && e == c.(owners := e.owners, node := e.node, labels := e.labels)
    && if OnLive(w, c) || !SomeUsable(w) then e.node == c.node && e.labels == c.labels
       else e.labels == map["ipnode" := e.node] && exists i: nat :: IsChoice(w, i) && w.nodes[i].name == e.node
  }

  /** The updates that are asked for: one if an owner was dropped, one if the claim was placed. */
  ghost predicate AsksUpdates(w: World, c: Claim, e: Claim, rs: seq<Request>) {
    && |rs| == (if exists o | o in c.owners :: !Stands(w, o) then 1 else 0)
               + (if OnLive(w, c) || !SomeUsable(w) then 0 else 1)
    && forall r | r in rs :: r == Request(Update, e)
  }

  lemma OutcomeSettles(w: World, key: string)
    requires key in w.cache && ValidPools(w.pools) && OwnersAlive(w, w.cache[key].owners) != []
    ensures var (e, rs) := ClaimOutcome(w, key);
            Settled(w, w.cache[key], e) && AsksUpdates(w, w.cache[key], e, rs)
    ensures ClaimProcessed(w, key).1 <==> !OnLive(w, w.cache[key]) && !SomeUsable(w)
  {
    KeepsThoseThatStand(w, w.cache[key].owners);
    UsableIffLive(w);
    if LiveNodes(w.nodes, w.live) != [] {
      ChosenIsChoice(w);
    }
  }

  // ----- One key -----

  predicate IsFirstHolder(pools: seq<Pool>, i: nat, ip: string) {
    && i < |pools| && ip in pools[i].spec.allocations
    && forall j :: 0 <= j < i ==> ip !in pools[j].spec.allocations
  }

  lemma {:induction false} HolderIsFirst(pools: seq<Pool>, ip: string)
    ensures PoolOf(pools, ip).Some? ==> IsFirstHolder(pools, PoolOf(pools, ip).value, ip)
  {
    if pools != [] && ip !in pools[0].spec.allocations {
      HolderIsFirst(pools[1..], ip);
      assert forall j :: 0 < j < |pools| ==> pools[j] == pools[1..][j - 1];
    }
  }

  /** The request deletes the claim of the address, under the mask of the first pool that has it
      allocated, which gives it up; or under the default mask if no pool has it. */
  ghost predicate Frees(pools: seq<Pool>, mask: string, ip: string, d: Request, after: seq<Pool>) {
    && d.change.Delete?
    && if exists i: nat :: IsFirstHolder(pools, i, ip) then exists i: nat :: FreesAt(pools, i, ip, d, after)
       else after == pools && d.claim.name == Replaced(ip, '.', '-') + "-" + mask
  }

  predicate FreesAt(pools: seq<Pool>, i: nat, ip: string, d: Request, after: seq<Pool>) {
    && IsFirstHolder(pools, i, ip) && |Split(pools[i].spec.cidr, '/')| > 1
    && d.claim.name == Replaced(ip, '.', '-') + "-" + Split(pools[i].spec.cidr, '/')[1]
    && var spec := pools[i].spec;
       after == pools[i := Pool(pools[i].name, spec.(allocations := spec.allocations - {ip}))]
  }

  lemma ReleaseFrees(pools: seq<Pool>, mask: string, ip: string)
    requires ValidPools(pools)
    ensures Frees(pools, mask, ip, ReleaseRequest(pools, mask, ip), PoolsWithout(pools, ip))
  {
    var i := PoolOf(pools, ip);
    HolderIsFirst(pools, ip);
    NameIsReplaced(ip, if i.Some? then PoolMask(pools[i.value]) else mask);
    assert ['-'] == "-";
    if i.Some? {
      assert FreesAt(pools, i.value, ip, ReleaseRequest(pools, mask, ip), PoolsWithout(pools, ip));
    }
  }

  /** The claim is given up: one deletion is asked for, and its address is released. */
  ghost predicate GivenUp(w: World, c: Claim, t: World) {
    t.cache == w.cache && exists d :: GivesUpBy(w, c, d, t)
  }

  ghost predicate GivesUpBy(w: World, c: Claim, d: Request, t: World) {
    Pending(t) == Pending(w) + [d] && Frees(w.pools, w.mask, Split(c.cidr, '/')[0], d, t.pools)
  }

  /** The claim is settled in the cache, and the updates are asked for. */
  ghost predicate Kept(w: World, key: string, c: Claim, t: World) {
    t.pools == w.pools && exists e, rs :: KeptBy(w, key, c, e, rs, t)
  }

  ghost predicate KeptBy(w: World, key: string, c: Claim, e: Claim, rs: seq<Request>, t: World) {
    && Settled(w, c, e) && AsksUpdates(w, c, e, rs)
    && t.cache == w.cache[key := e] && Pending(t) == Pending(w) + rs
  }

  /** Processing the key of a cached claim gives the claim up if no recorded owner stands, and
      else settles it; nothing else of the world changes but the keys and the stage. */
  lemma ProcessingKeepsIff(w: World)
    requires GoodQueue(w) && ValidPools(w.pools) && w.stage.KeyTaken? && w.stage.key in w.cache
    ensures var t, c := KeyProcessed(w), w.cache[w.stage.key];
            && (if Orphaned(w, c) then GivenUp(w, c, t) else Kept(w, w.stage.key, c, t))
            && t == w.(cache := t.cache, pools := t.pools, changes := t.changes, next := t.next, keys := t.keys,
                       stage := KeyHandled(w.stage.key))
  {
    var key, t := w.stage.key, KeyProcessed(w);
    var c := w.cache[key];
    KeepsThoseThatStand(w, c.owners);
    assert Pending(t) == Pending(ClaimProcessed(w, key).0);
    if OwnersAlive(w, c.owners) == [] {
      assert Orphaned(w, c) && t.cache == w.cache;
      var d := ReleaseRequest(w.pools, w.mask, AddressOf(c.cidr));
      DeadAsks(w, key);
      ReleaseFrees(w.pools, w.mask, AddressOf(c.cidr));
      assert GivesUpBy(w, c, d, t);
    } else {
      assert OwnersAlive(w, c.owners)[0] in c.owners && !Orphaned(w, c);
      AliveAsks(w, key);
      OutcomeSettles(w, key);
      var (e, rs) := ClaimOutcome(w, key);
      SendAllChangesOnlyTheQueue(w.(cache := w.cache[key := e]), rs);
      assert KeptBy(w, key, c, e, rs, t);
    }
  }

  /** Nothing happens for a key that is not cached. */
  lemma MissingKeyIsSkipped(w: World)
    requires ValidPools(w.pools) && w.stage.KeyTaken? && w.stage.key !in w.cache
    ensures KeyProcessed(w) == w.(stage := KeyHandled(w.stage.key))
  {
  }

  // ----- Runs -----

  /** The owner stays recorded, only updates that record it are asked for, and no pool changes. */
  ghost predicate Saved(w: World, key: string, o: string, t: World) {
    t.pools == w.pools && key in t.cache && o in t.cache[key].owners && exists rs :: SavedBy(w, o, rs, t)
  }

  ghost predicate SavedBy(w: World, o: string, rs: seq<Request>, t: World) {
    Pending(t) == Pending(w) + rs && forall r | r in rs :: r.change.Update? && o in r.claim.owners
  }

  lemma KeptIsSaved(w: World, key: string, c: Claim, o: string, t: World)
    requires Kept(w, key, c, t) && o in c.owners && Stands(w, o)
    ensures Saved(w, key, o, t)
  {
    var e, rs :| KeptBy(w, key, c, e, rs, t);
    assert SavedBy(w, o, rs, t);
  }

  lemma KnownOwnerIsKept(w: World, key: string, o: string, t: World)
    requires GoodQueue(w) && ValidPools(w.pools) && w.stage == KeyTaken(key) && key in w.cache && t == KeyProcessed(w)
    requires o in w.cache[key].owners && Stands(w, o)
    ensures Saved(w, key, o, t)
  {
    ProcessingKeepsIff(w);
    KeptIsSaved(w, key, w.cache[key], o, t);
  }

  lemma ProcessingAt(ws: seq<World>, steps: seq<Step>, offer: Offers, k: nat)
    requires IsRun(ws, steps, offer) && k < |steps| && steps[k].ProcessKey?
    ensures var w := ws[k];
            GoodQueue(w) && ValidPools(w.pools) && w.stage.KeyTaken? && ws[k + 1] == KeyProcessed(w)
  {
    StepOfRun(ws, steps, offer, k + 1);
  }

  /** On every run, whatever the cache of services lags behind: processing a claim that has a
      recorded owner which the cache or the API knows leaves that owner recorded, asks for
      nothing but updates that record it too, and releases no address. */
  lemma KnownOwnerSaves(ws: seq<World>, steps: seq<Step>, offer: Offers, k: nat, key: string, o: string)
    requires IsRun(ws, steps, offer) && k < |steps| && steps[k].ProcessKey? && ws[k].stage == KeyTaken(key)
    requires key in ws[k].cache && o in ws[k].cache[key].owners && (o in ws[k].services || o in ws[k].existing)
    ensures Saved(ws[k], key, o, ws[k + 1])
  {
    ProcessingAt(ws, steps, offer, k);
    KnownOwnerIsKept(ws[k], key, o, ws[k + 1]);
  }
}
