/** The set of claims follows the set of addresses that services list: for addresses that
    belong to no pool, carrying out the pending change requests leaves exactly their claims. */
module ClaimNames {
  import opened Strings
  import opened Naming
  import opened WorkQueue
  import opened QueueRuns
  import opened Pools
  import opened Cluster
  import PoolCapacity

  // ----- Pools and what they offer -----

  /** What each pool can ever grant. */
  type Offers = seq<seq<string>>

  /** `offer[i]` is what pool i can ever grant; it never allocates anything else. */
  ghost predicate PoolsAre(pools: seq<Pool>, offer: Offers) {
    && ValidPools(pools) && |offer| == |pools|
    && forall i :: 0 <= i < |pools| ==> PoolIs(pools[i], offer[i])
  }

  ghost predicate PoolIs(pool: Pool, offer: seq<string>)
    requires pool.spec.Valid()
  {
    && (pool.spec.parsed.Some? ==> Offered(pool.spec) == offer)
    && (forall ip | ip in pool.spec.allocations :: ip in offer)
    && (forall ip | ip in offer :: Plain(ip))
    && (HasMask(pool.spec) ==> Plain(PoolMask(pool)))
  }

  predicate Outside(offer: Offers, ip: string) {
    forall i :: 0 <= i < |offer| ==> ip !in offer[i]
  }

  lemma OfferIgnoresAllocations(p: PoolSpec, m: map<string, string>)
    requires p.Valid() && p.parsed.Some?
    ensures p.(allocations := m).Valid() && Offered(p.(allocations := m)) == Offered(p)
  {
  }

  lemma ReallocatedPoolIs(pool: Pool, offer: seq<string>, m: map<string, string>)
    requires pool.spec.Valid() && PoolIs(pool, offer)
    requires forall ip | ip in m :: ip in offer
    ensures pool.spec.(allocations := m).Valid() && PoolIs(Pool(pool.name, pool.spec.(allocations := m)), offer)
  {
    if pool.spec.parsed.Some? {
      OfferIgnoresAllocations(pool.spec, m);
    }
  }

  lemma GrantIsOffered(pools: seq<Pool>, offer: Offers, svc: Service)
    requires PoolsAre(pools, offer) && GrantFor(pools, svc).Some?
    ensures var (i, ip) := GrantFor(pools, svc).value;
            ip in offer[i] && ip !in pools[i].spec.allocations
  {
    var (i, ip) := GrantFor(pools, svc).value;
    AvailableIsExact(pools[i].spec);
    assert PoolIs(pools[i], offer[i]);
  }

  lemma AllocatingKeepsPools(pools: seq<Pool>, offer: Offers, i: nat, ip: string, claim: string)
    requires PoolsAre(pools, offer) && i < |pools| && HasMask(pools[i].spec) && ip in offer[i]
    ensures PoolsAre(pools[i := Pool(pools[i].name, PoolCapacity.Record(pools[i].spec, ip, claim))], offer)
  {
    assert PoolIs(pools[i], offer[i]);
    ReallocatedPoolIs(pools[i], offer[i], pools[i].spec.allocations[ip := claim]);
  }

  lemma ReleasingKeepsPools(pools: seq<Pool>, offer: Offers, ip: string)
    requires PoolsAre(pools, offer)
    ensures PoolsAre(PoolsWithout(pools, ip), offer)
  {
    var r := PoolOf(pools, ip);
    if r.Some? {
      assert PoolIs(pools[r.value], offer[r.value]);
      ReallocatedPoolIs(pools[r.value], offer[r.value], pools[r.value].spec.allocations - {ip});
    }
  }

  lemma OutsideHasNoPool(pools: seq<Pool>, offer: Offers, ip: string)
    requires PoolsAre(pools, offer) && Outside(offer, ip)
    ensures PoolOf(pools, ip).None?
  {
  }

  // ----- Pending requests -----

  function Requests(ds: seq<Delta>): (rs: seq<Request>)
    ensures |rs| == |ds| && forall i :: 0 <= i < |ds| ==> rs[i] == ds[i].request
  {
    seq(|ds|, i requires 0 <= i < |ds| => ds[i].request)
  }

  /** The requests not yet carried out, in order; the one in process comes first. */
  function Pending(w: World): seq<Request> {
    (if w.busy.Some? then [w.busy.value.request] else []) + Requests(w.changes.queue)
  }

  ghost predicate GoodQueue(w: World) {
    && Exclusive(w.changes) && !w.changes.closed
    && (forall d | d in w.changes.added + w.changes.processing :: d.pointer < w.next)
    && w.changes.processing == (if w.busy.Some? then {w.busy.value} else {})
    && (w.busy.Some? ==> w.busy.value !in w.changes.added)
  }

  lemma SendAppends(w: World, r: Request)
    requires GoodQueue(w)
    ensures GoodQueue(Send(w, r)) && Pending(Send(w, r)) == Pending(w) + [r]
  {
    var d := Delta(w.next, r);
    NewItemIsAppended(w.changes, d);
    assert Requests(w.changes.queue + [d]) == Requests(w.changes.queue) + [r];
  }

  lemma {:induction false} SendAllAppends(w: World, rs: seq<Request>)
    requires GoodQueue(w)
    ensures GoodQueue(SendAll(w, rs)) && Pending(SendAll(w, rs)) == Pending(w) + rs
    decreases |rs|
  {
    if rs == [] {
      assert Pending(w) + rs == Pending(w);
    } else {
      SendAppends(w, rs[0]);
      var t := Send(w, rs[0]);
      SendAllAppends(t, rs[1..]);
      assert Pending(w) + [rs[0]] + rs[1..] == Pending(w) + rs;
    }
  }

  lemma TakingKeepsPending(w: World)
    requires GoodQueue(w) && w.busy.None? && w.changes.queue != []
    ensures Taken(w.changes).0.Item?
    ensures GoodQueue(ChangeTaken(w)) && Pending(ChangeTaken(w)) == Pending(w)
  {
    TakenFromExclusive(w.changes);
    assert Requests(w.changes.queue) == [w.changes.queue[0].request] + Requests(w.changes.queue[1..]);
  }

  /** What carrying out a request adds to the queue: at most one update. */
  function Reaction(w: World, r: Request): seq<Request>
    requires r.change.Create? ==> r.claim.owners != []
  {
    if r.change.Create? && r.claim.name in w.claims && r.claim.owners[0] !in w.claims[r.claim.name].owners then
      var c := w.claims[r.claim.name];
      [Request(Update, c.(owners := c.owners + [r.claim.owners[0]]))]
    else []
  }

  /** The API will accept the request as an update: its version is current or unchecked. */
  predicate Accepted(w: World, r: Request) {
    r.claim.name in w.claims && (!w.strict || r.claim.version == w.claims[r.claim.name].version)
  }

  /** What the API holds after a request. */
  function StoredAfter(claims: map<string, Claim>, strict: bool, r: Request): map<string, Claim> {
    var name := r.claim.name;
    match r.change
    case Create => if name in claims then claims else claims[name := r.claim.(version := 1)]
    case Update =>
      if name in claims && (!strict || r.claim.version == claims[name].version)
      then claims[name := r.claim.(version := claims[name].version + 1)] else claims
    case Delete => claims - {name}
  }

  lemma AppliedStores(w: World, r: Request)
    requires r.change.Create? ==> r.claim.owners != []
    ensures Applied(w, r).claims == StoredAfter(w.claims, w.strict, r)
  {
  }

  lemma AppliedReacts(w: World, r: Request)
    requires r.change.Create? ==> r.claim.owners != []
    ensures Applied(w, r) == SendAll(w, Reaction(w, r)).(claims := Applied(w, r).claims)
  {
    var rs := Reaction(w, r);
    if rs != [] {
      assert rs[1..] == [];
      assert SendAll(w, rs) == Send(w, rs[0]);
    }
  }

  ghost predicate Serviceable(w: World) {
    w.busy.Some? && (w.busy.value.request.change.Create? ==> w.busy.value.request.claim.owners != [])
  }

  function FinishedChange(w: World): World
    requires w.busy.Some?
  {
    w.(changes := Finished(w.changes, w.busy.value), busy := None)
  }

  lemma FinishingPops(w: World)
    requires GoodQueue(w) && w.busy.Some?
    ensures GoodQueue(FinishedChange(w)) && Pending(FinishedChange(w)) == Pending(w)[1..]
  {
    StepKeepsOrder(w.changes, Done(w.busy.value));
    assert FinishedChange(w).changes.processing == {};
  }

  /** Carrying out a request queues its reaction. */
  lemma AppliedQueues(w: World, r: Request)
    requires GoodQueue(w) && (r.change.Create? ==> r.claim.owners != [])
    ensures var t := Applied(w, r);
            && GoodQueue(t) && Pending(t) == Pending(w) + Reaction(w, r)
            && t == w.(claims := t.claims, changes := t.changes, next := t.next)
  {
    var rs := Reaction(w, r);
    AppliedReacts(w, r);
    SendAllChangesOnlyTheQueue(w, rs);
    SendAllAppends(w, rs);
    SameQueueSamePending(SendAll(w, rs), Applied(w, r));
  }

  lemma SameQueueSamePending(w: World, t: World)
    requires GoodQueue(w) && t == w.(claims := t.claims)
    ensures GoodQueue(t) && Pending(t) == Pending(w)
  {
  }

  lemma DropsFirst(rs: seq<Request>, ts: seq<Request>)
    requires rs != []
    ensures (rs + ts)[1..] == rs[1..] + ts
  {
  }

  lemma HandlingPops(w: World)
    requires GoodQueue(w) && Serviceable(w)
    ensures var r, t := w.busy.value.request, ChangeHandled(w);
            && GoodQueue(t) && t.busy.None?
            && Pending(t) == Pending(w)[1..] + Reaction(w, r)
            && t == w.(claims := Applied(w, r).claims, changes := t.changes, next := t.next, busy := None)
  {
    var r := w.busy.value.request;
    AppliedQueues(w, r);
    FinishingPops(Applied(w, r));
    DropsFirst(Pending(w), Reaction(w, r));
    assert ChangeHandled(w) == FinishedChange(Applied(w, r));
  }

  // ----- The fate of a name -----

  /** What the requests decide about the existence of a claim, if anything. */
  function Verdict(name: string, rs: seq<Request>): Option<bool> {
    if rs == [] then None
    else
      var r := rs[|rs| - 1];
      if r.claim.name == name && r.change.Create? then Some(true)
      else if r.claim.name == name && r.change.Delete? then Some(false)
      else Verdict(name, rs[..|rs| - 1])
  }

  lemma {:induction false} VerdictOfConcat(name: string, rs: seq<Request>, ts: seq<Request>)
    ensures Verdict(name, rs + ts) == if Verdict(name, ts).Some? then Verdict(name, ts) else Verdict(name, rs)
  {
    if ts == [] {
      assert rs + ts == rs;
    } else {
      assert (rs + ts)[..|rs + ts| - 1] == rs + ts[..|ts| - 1];
      VerdictOfConcat(name, rs, ts[..|ts| - 1]);
    }
  }

  /** Whether a claim of this name is left once the pending requests are carried out. */
  predicate Will(w: World, name: string) {
    var v := Verdict(name, Pending(w));
    if v.Some? then v.value else name in w.claims
  }

  /** What one request does to a name. */
  predicate After(r: Request, name: string, before: bool) {
    if r.claim.name != name || r.change.Update? then before else r.change.Create?
  }

  lemma VerdictOfSnoc(name: string, rs: seq<Request>, r: Request)
    ensures Verdict(name, rs + [r])
         == if r.claim.name != name || r.change.Update? then Verdict(name, rs) else Some(r.change.Create?)
  {
    assert (rs + [r])[..|rs|] == rs;
  }

  lemma SendWill(w: World, r: Request, name: string)
    requires GoodQueue(w)
    ensures Will(Send(w, r), name) == After(r, name, Will(w, name))
  {
    SendAppends(w, r);
    VerdictOfSnoc(name, Pending(w), r);
  }

  /** Taking and carrying out requests changes no fate, the appended update included. */
  lemma HandlingKeepsWill(w: World, name: string)
    requires GoodQueue(w) && Serviceable(w)
    ensures Will(ChangeHandled(w), name) == Will(w, name)
  {
    var r, rest := w.busy.value.request, Pending(w)[1..];
    HandlingPops(w);
    VerdictOfConcat(name, [r], rest);
    VerdictOfConcat(name, rest, Reaction(w, r));
    VerdictOfOne(name, r);
    ReactionIsSilent(w, r, name);
    assert Pending(w) == [r] + rest;
    AppliedDecides(w, r, name);
  }

  lemma VerdictOfOne(name: string, r: Request)
    ensures Verdict(name, [r]) == if r.claim.name != name || r.change.Update? then None else Some(r.change.Create?)
  {
    assert [r][..0] == [];
  }

  lemma ReactionIsSilent(w: World, r: Request, name: string)
    requires r.change.Create? ==> r.claim.owners != []
    ensures Verdict(name, Reaction(w, r)) == None
  {
    var rs := Reaction(w, r);
    if rs != [] {
      VerdictOfOne(name, rs[0]);
      assert rs == [rs[0]];
    }
  }

  lemma AppliedDecides(w: World, r: Request, name: string)
    requires r.change.Create? ==> r.claim.owners != []
    ensures (name in Applied(w, r).claims) == After(r, name, name in w.claims)
  {
    AppliedStores(w, r);
    StoredDecides(w.claims, w.strict, r, name);
  }

  lemma StoredDecides(claims: map<string, Claim>, strict: bool, r: Request, name: string)
    ensures (name in StoredAfter(claims, strict, r)) == After(r, name, name in claims)
  {
  }

  // ----- Names of outside addresses -----

  function NameOf(w: World, ip: string): string {
    ClaimName(ip, w.mask)
  }

  ghost predicate PlainWorld(w: World) {
    && Plain(w.mask)
    && forall k, ip | k in w.services && ip in w.services[k].ips :: Plain(ip)
  }

  /** The request of an address names the claim of another only if they are the same. */
  lemma ClaimOfOther(w: World, x: string, ip: string, mask: string, owners: seq<string>)
    requires Plain(w.mask) && Plain(x) && Plain(ip) && Plain(mask) && x != ip
    ensures MakeClaim(ip, mask, owners).name != NameOf(w, x)
  {
    if MakeClaim(ip, mask, owners).name == NameOf(w, x) {
      ClaimNameIsInjective(ip, mask, x, w.mask);
    }
  }

  lemma {:induction false} CreatingWill(w: World, pools: seq<Pool>, key: string, ips: seq<string>, x: string)
    requires GoodQueue(w) && Plain(w.mask) && Plain(x) && PoolOf(pools, x).None?
    requires forall ip | ip in ips :: Plain(ip)
    ensures var t := SendAll(w, ClaimRequests(pools, w.mask, key, ips));
            GoodQueue(t) && Will(t, NameOf(w, x)) == (Will(w, NameOf(w, x)) || x in ips)
    decreases |ips|
  {
    if ips != [] {
      var rs := ClaimRequests(pools, w.mask, key, ips);
      if PoolOf(pools, ips[0]).Some? {
        CreatingWill(w, pools, key, ips[1..], x);
      } else {
        var r := Request(Create, MakeClaim(ips[0], w.mask, [key]));
        assert rs[0] == r && rs[1..] == ClaimRequests(pools, w.mask, key, ips[1..]);
        SendAppends(w, r);
        SendWill(w, r, NameOf(w, x));
        CreatingWill(Send(w, r), pools, key, ips[1..], x);
        if x != ips[0] {
          ClaimOfOther(w, x, ips[0], w.mask, [key]);
        }
      }
    }
  }

  lemma AllocatingWill(w: World, offer: Offers, key: string, i: nat, ip: string, x: string)
    requires GoodQueue(w) && PoolsAre(w.pools, offer) && key in w.services && i < |w.pools| && ip in offer[i]
    requires HasMask(w.pools[i].spec) && Plain(w.mask) && Plain(x) && Outside(offer, x)
    ensures var t := Allocate(w, key, i, ip);
            GoodQueue(t) && Will(t, NameOf(w, x)) == Will(w, NameOf(w, x))
  {
    var r := Request(Create, GrantClaim(w.pools[i], ip, key));
    assert PoolIs(w.pools[i], offer[i]);
    SendAppends(w, r);
    SendWill(w, r, NameOf(w, x));
    ClaimOfOther(w, x, ip, PoolMask(w.pools[i]), [key]);
    var t := Allocate(w, key, i, ip);
    assert Pending(t) == Pending(Send(w, r));
  }

  lemma ReleasingWill(w: World, offer: Offers, ip: string, x: string)
    requires GoodQueue(w) && PoolsAre(w.pools, offer)
    requires Plain(w.mask) && Plain(ip) && Plain(x) && Outside(offer, x)
    ensures var t := Released(w, ip);
            && GoodQueue(t) && PoolsAre(t.pools, offer)
            && Will(t, NameOf(w, x)) == (Will(w, NameOf(w, x)) && x != ip)
  {
    var r := ReleaseRequest(w.pools, w.mask, ip);
    SendAppends(w, r);
    SendWill(w, r, NameOf(w, x));
    assert Pending(Released(w, ip)) == Pending(Send(w, r));
    ReleasingKeepsPools(w.pools, offer, ip);
    if x == ip {
      OutsideHasNoPool(w.pools, offer, ip);
    } else {
      var i := PoolOf(w.pools, ip);
      if i.Some? {
        assert PoolIs(w.pools[i.value], offer[i.value]);
      }
      ClaimOfOther(w, x, ip, if i.Some? then PoolMask(w.pools[i.value]) else w.mask, []);
    }
  }

  lemma {:induction false} DroppingWill(w: World, offer: Offers, ips: seq<string>, refs: set<string>, x: string)
    requires GoodQueue(w) && PoolsAre(w.pools, offer)
    requires Plain(w.mask) && Plain(x) && Outside(offer, x) && forall ip | ip in ips :: Plain(ip)
    ensures var t := Dropped(w, ips, refs);
            && GoodQueue(t) && PoolsAre(t.pools, offer)
            && t == w.(changes := t.changes, next := t.next, pools := t.pools)
            && Will(t, NameOf(w, x)) == (Will(w, NameOf(w, x)) && !(x in ips && x !in refs))
    decreases |ips|
  {
    if ips != [] {
      if ips[0] in refs {
        DroppingWill(w, offer, ips[1..], refs, x);
      } else {
        ReleasingWill(w, offer, ips[0], x);
        DroppingWill(Released(w, ips[0]), offer, ips[1..], refs, x);
      }
    }
  }
}
