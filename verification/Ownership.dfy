/** Owner references: when the change queue drains between events and the cache equals the
    API, every claim records all services that list its address, so garbage collection
    never takes a claim that is still in use. */
module Ownership {
  import opened Strings
  import opened Naming
  import opened QueueRuns
  import opened Cluster
  import opened ClaimNames
  import opened Soundness
  import opened ClaimSet

  predicate Owned(w: World, name: string, key: string) {
    name in w.claims && key in w.claims[name].owners
  }

  /** A pending request that will record the owner. */
  predicate Records(w: World, r: Request, name: string, key: string) {
    r.claim.name == name && ((r.change.Create? && r.claim.owners == [key])
                             || (r.change.Update? && key in r.claim.owners && Accepted(w, r)))
  }

  /** The claim `name` has all of `keys` as owners, or is about to: while the requests of the
      latest event (of service `last`) drain. */
  ghost predicate Keeps(w: World, name: string, keys: set<string>, last: string) {
    && (forall k | k in keys ::
          Owned(w, name, k) || (k == last && exists r | r in Pending(w) :: Records(w, r, name, k)))
    && (forall r | r in Pending(w) && r.claim.name == name ::
          && (r.change.Create? ==> r.claim.owners == [last])
          && (r.change.Update? ==> forall k | k in keys :: k in r.claim.owners)
          && (r.change.Delete? ==> keys == {}))
  }

  function Listers(services: map<string, Service>, x: string): set<string> {
    set k | k in services && x in services[k].ips
  }

  /** One address: its claim records all services that list it. */
  ghost predicate Tracks(w: World, x: string, last: string) {
    Keeps(w, NameOf(w, x), Listers(w.services, x), last)
  }

  lemma ListersOf(services: map<string, Service>, x: string)
    ensures forall k :: k in Listers(services, x) <==> ListedBy(services, k, x)
    ensures Listers(services, x) == {} <==> x !in Listed(services)
  {
    if x in Listed(services) {
      var k :| k in services && x in services[k].ips;
      assert k in Listers(services, x);
    }
  }

  /** Nothing pending: every listing service is a recorded owner. */
  lemma DrainedOwners(w: World, x: string, last: string)
    requires Tracks(w, x, last) && Pending(w) == []
    ensures forall k | ListedBy(w.services, k, x) :: Owned(w, NameOf(w, x), k)
  {
    ListersOf(w.services, x);
  }

  // ----- The change worker -----

  /** `t` is `w` after one pending request was carried out. */
  ghost predicate CarriesOut(w: World, r: Request, t: World) {
    && w.busy.Some? && r == w.busy.value.request && (r.change.Create? ==> r.claim.owners != [])
    && t.claims == Applied(w, r).claims && t.services == w.services && t.mask == w.mask && t.strict == w.strict
    && Pending(t) == Pending(w)[1..] + Reaction(w, r)
  }

  lemma CreateKeeps(w: World, name: string, keys: set<string>, last: string, r: Request, t: World)
    requires Keeps(w, name, keys, last) && CarriesOut(w, r, t) && r.change.Create? && r.claim.name == name
    requires name in w.claims ==> w.claims[name].name == name
    ensures Keeps(t, name, keys, last)
  {
    assert Pending(w)[0] == r;
    assert r in Pending(w) && r.claim.owners == [last];
    if name in w.claims && last !in w.claims[name].owners {
      var c := w.claims[name];
      var u := Request(Update, c.(owners := c.owners + [last]));
      assert Reaction(w, r) == [u];
      assert u in Pending(t) && Records(t, u, name, last);
      forall k | k in keys ensures k in u.claim.owners {
      }
    } else {
      assert Owned(t, name, last);
    }
  }

  lemma UpdateKeeps(w: World, name: string, keys: set<string>, last: string, r: Request, t: World)
    requires Keeps(w, name, keys, last) && CarriesOut(w, r, t) && r.change.Update? && r.claim.name == name
    ensures Keeps(t, name, keys, last)
  {
    assert Pending(w)[0] == r && r in Pending(w);
    if Accepted(w, r) {
      assert t.claims[name].owners == r.claim.owners;
    } else {
      assert t.claims == w.claims;
      StillRecorded(w, name, keys, last, r, t);
    }
  }

  /** A request that does not touch the claim leaves the record of its owners pending. */
  lemma StillRecorded(w: World, name: string, keys: set<string>, last: string, r: Request, t: World)
    requires Keeps(w, name, keys, last) && CarriesOut(w, r, t) && (name in t.claims <==> name in w.claims)
    requires name in w.claims ==> t.claims[name] == w.claims[name]
    requires forall k | k in keys :: !Records(w, r, name, k)
    ensures forall k | k in keys && !Owned(t, name, k) ::
              k == last && exists q | q in Pending(t) :: Records(t, q, name, k)
  {
    assert Pending(w) == [r] + Pending(w)[1..];
    forall k | k in keys && !Owned(t, name, k)
      ensures k == last && exists q | q in Pending(t) :: Records(t, q, name, k)
    {
      var q :| q in Pending(w) && Records(w, q, name, k);
      assert q in Pending(t) && Records(t, q, name, k);
    }
  }

  lemma DeleteKeeps(w: World, name: string, keys: set<string>, last: string, r: Request, t: World)
    requires Keeps(w, name, keys, last) && CarriesOut(w, r, t) && r.change.Delete? && r.claim.name == name
    ensures Keeps(t, name, keys, last)
  {
    assert Pending(w)[0] == r && r in Pending(w);
  }

  lemma OtherKeeps(w: World, name: string, keys: set<string>, last: string, r: Request, t: World)
    requires Keeps(w, name, keys, last) && CarriesOut(w, r, t) && r.claim.name != name
    requires r.change.Create? && r.claim.name in w.claims ==> w.claims[r.claim.name].name == r.claim.name
    ensures Keeps(t, name, keys, last)
  {
    assert name in t.claims <==> name in w.claims;
    assert name in w.claims ==> t.claims[name] == w.claims[name];
    StillRecorded(w, name, keys, last, r, t);
  }

  lemma ChangeHandledKeeps(w: World, offer: Offers, name: string, keys: set<string>, last: string)
    requires Sound(w, offer) && w.busy.Some? && Keeps(w, name, keys, last)
    ensures Serviceable(w) && Keeps(ChangeHandled(w), name, keys, last)
  {
    SoundIsServiceable(w, offer);
    HandlingPops(w);
    var r, t := w.busy.value.request, ChangeHandled(w);
    assert CarriesOut(w, r, t);
    if r.claim.name != name {
      OtherKeeps(w, name, keys, last, r, t);
    } else if r.change.Create? {
      CreateKeeps(w, name, keys, last, r, t);
    } else if r.change.Update? {
      UpdateKeeps(w, name, keys, last, r, t);
    } else {
      DeleteKeeps(w, name, keys, last, r, t);
    }
  }

  lemma ChangeHandledTracks(w: World, offer: Offers, x: string, last: string)
    requires Sound(w, offer) && w.busy.Some? && Tracks(w, x, last)
    ensures Serviceable(w) && Tracks(ChangeHandled(w), x, last)
  {
    ChangeHandledKeeps(w, offer, NameOf(w, x), Listers(w.services, x), last);
    HandlingPops(w);
  }

  // ----- Service events -----

  function CreateFor(w: World, x: string, key: string): Request {
    Request(Create, MakeClaim(x, w.mask, [key]))
  }

  lemma {:induction false} CreatesForEach(w: World, key: string, ips: seq<string>, x: string)
    requires x in ips && PoolOf(w.pools, x).None?
    ensures CreateFor(w, x, key) in ClaimRequests(w.pools, w.mask, key, ips)
    decreases |ips|
  {
    var rs := ClaimRequests(w.pools, w.mask, key, ips);
    if ips[0] == x {
      assert rs[0] == CreateFor(w, x, key);
    } else {
      CreatesForEach(w, key, ips[1..], x);
    }
  }

  /** The deletions that dropping old addresses asks for. */
  function Deletions(pools: seq<Pool>, mask: string, ips: seq<string>, refs: set<string>): seq<Request>
    requires ValidPools(pools)
    decreases |ips|
  {
    if ips == [] then []
    else if ips[0] in refs then Deletions(pools, mask, ips[1..], refs)
    else [ReleaseRequest(pools, mask, ips[0])] + Deletions(PoolsWithout(pools, ips[0]), mask, ips[1..], refs)
  }

  lemma ReleasedSends(w: World, ip: string)
    requires GoodQueue(w) && ValidPools(w.pools)
    ensures var t := Released(w, ip);
            && GoodQueue(t) && Pending(t) == Pending(w) + [ReleaseRequest(w.pools, w.mask, ip)]
            && t == w.(pools := PoolsWithout(w.pools, ip), changes := t.changes, next := t.next)
  {
    var r := ReleaseRequest(w.pools, w.mask, ip);
    SendAppends(w, r);
    assert Pending(Released(w, ip)) == Pending(Send(w, r));
  }

  lemma {:induction false} DroppedSends(w: World, ips: seq<string>, refs: set<string>)
    requires GoodQueue(w) && ValidPools(w.pools)
    ensures var t := Dropped(w, ips, refs);
            && Pending(t) == Pending(w) + Deletions(w.pools, w.mask, ips, refs)
            && t == w.(pools := t.pools, changes := t.changes, next := t.next)
    decreases |ips|
  {
    if ips == [] {
      assert Pending(w) + [] == Pending(w);
    } else if ips[0] in refs {
      DroppedSends(w, ips[1..], refs);
    } else {
      var t := Released(w, ips[0]);
      ReleasedSends(w, ips[0]);
      DroppedSends(t, ips[1..], refs);
      ConcatIsAssociative(Pending(w), [ReleaseRequest(w.pools, w.mask, ips[0])],
                          Deletions(t.pools, t.mask, ips[1..], refs));
    }
  }

  lemma ConcatIsAssociative(a: seq<Request>, b: seq<Request>, c: seq<Request>)
    ensures a + b + c == a + (b + c)
  {
  }

  /** A claim name made from the address, with some mask. */
  ghost predicate NamedFor(name: string, ip: string) {
    Plain(ip) && exists m :: Plain(m) && name == ClaimName(ip, m)
  }

  lemma OtherAddressOtherName(name: string, ip: string, ip': string, m': string)
    requires NamedFor(name, ip) && Plain(ip') && Plain(m') && ip' != ip
    ensures ClaimName(ip', m') != name
  {
    var m :| Plain(m) && name == ClaimName(ip, m);
    if ClaimName(ip', m') == name {
      ClaimNameIsInjective(ip, m, ip', m');
    }
  }

  lemma ReleaseNamesOther(pools: seq<Pool>, offer: Offers, mask: string, ip': string, name: string, ip: string)
    requires PoolsAre(pools, offer) && Plain(mask) && Plain(ip') && NamedFor(name, ip) && ip' != ip
    ensures ReleaseRequest(pools, mask, ip').claim.name != name
  {
    var i := PoolOf(pools, ip');
    if i.Some? {
      assert PoolIs(pools[i.value], offer[i.value]);
    }
    OtherAddressOtherName(name, ip, ip', if i.Some? then PoolMask(pools[i.value]) else mask);
  }

  /** None of them is for an address that is still listed. */
  lemma {:induction false} DeletionsSpareListed(pools: seq<Pool>, offer: Offers, mask: string, ips: seq<string>,
                                                refs: set<string>, name: string, ip: string)
    requires PoolsAre(pools, offer) && Plain(mask) && NamedFor(name, ip) && forall i | i in ips :: Plain(i)
    ensures forall d | d in Deletions(pools, mask, ips, refs) ::
              d.change.Delete? && (ip in refs ==> d.claim.name != name)
    decreases |ips|
  {
    if ips != [] {
      if ips[0] in refs {
        DeletionsSpareListed(pools, offer, mask, ips[1..], refs, name, ip);
      } else {
        ReleasingKeepsPools(pools, offer, ips[0]);
        DeletionsSpareListed(PoolsWithout(pools, ips[0]), offer, mask, ips[1..], refs, name, ip);
        if ips[0] != ip {
          ReleaseNamesOther(pools, offer, mask, ips[0], name, ip);
        }
      }
    }
  }

  lemma DeleteNames(w: World, offer: Offers, ip: string, x: string)
    requires PoolsAre(w.pools, offer) && Plain(w.mask) && Plain(ip) && Plain(x) && Outside(offer, x)
    ensures ReleaseRequest(w.pools, w.mask, ip).claim.name == NameOf(w, x) <==> ip == x
  {
    OutsideHasNoPool(w.pools, offer, x);
    if ip != x {
      var i := PoolOf(w.pools, ip);
      if i.Some? {
        assert PoolIs(w.pools[i.value], offer[i.value]);
      }
      ClaimOfOther(w, x, ip, if i.Some? then PoolMask(w.pools[i.value]) else w.mask, []);
    }
  }

  /** The creation for the address a service is granted, if any. */
  function GrantRequests(t: World, key: string): seq<Request>
    requires key in t.services && ValidPools(t.pools)
  {
    var grant := GrantFor(t.pools, t.services[key]);
    if grant.Some? then [Request(Create, GrantClaim(t.pools[grant.value.0], grant.value.1, key))] else []
  }

  lemma ExternalIPsPending(t: World, key: string)
    requires GoodQueue(t) && key in t.services && ValidPools(t.pools)
    ensures Pending(ExternalIPsProcessed(t, key))
         == Pending(t) + ClaimRequests(t.pools, t.mask, key, t.services[key].ips) + GrantRequests(t, key)
    ensures ExternalIPsProcessed(t, key).claims == t.claims
  {
    var cs := ClaimRequests(t.pools, t.mask, key, t.services[key].ips);
    var sent := SendAll(t, cs);
    SendAllAppends(t, cs);
    SendAllChangesOnlyTheQueue(t, cs);
    var grant := GrantFor(t.pools, t.services[key]);
    if grant.Some? {
      AllocateSends(sent, key, grant.value.0, grant.value.1);
    }
  }

  /** Processing a service sends creations that name it as the only owner, one of them for
      each of its outside addresses. */
  lemma ExternalIPsSend(t: World, offer: Offers, key: string, x: string) returns (cs: seq<Request>)
    requires Sound(t, offer) && key in t.services && Plain(x) && Outside(offer, x)
    ensures Pending(ExternalIPsProcessed(t, key)) == Pending(t) + cs
    ensures ExternalIPsProcessed(t, key).claims == t.claims
    ensures forall r | r in cs :: r.change.Create? && r.claim.owners == [key]
    ensures x in t.services[key].ips ==> CreateFor(t, x, key) in cs
  {
    var ips := t.services[key].ips;
    var rs := ClaimRequests(t.pools, t.mask, key, ips);
    ExternalIPsPending(t, key);
    cs := rs + GrantRequests(t, key);
    assert Pending(t) + rs + GrantRequests(t, key) == Pending(t) + cs;
    ClaimRequestsAreGood(t, offer, key, ips);
    OutsideHasNoPool(t.pools, offer, x);
    if x in ips {
      CreatesForEach(t, key, ips, x);
    }
  }

  lemma AllocateSends(t: World, key: string, i: nat, ip: string)
    requires GoodQueue(t) && key in t.services && i < |t.pools| && HasMask(t.pools[i].spec)
    ensures Pending(Allocate(t, key, i, ip)) == Pending(t) + [Request(Create, GrantClaim(t.pools[i], ip, key))]
  {
    var r := Request(Create, GrantClaim(t.pools[i], ip, key));
    SendAppends(t, r);
    assert Pending(Allocate(t, key, i, ip)) == Pending(Send(t, r));
  }

  lemma EventStartsTracking(w': World, x: string, key: string, cs: seq<Request>, ds: seq<Request>)
    requires Pending(w') == cs + ds
    requires forall r | r in cs :: r.change.Create? && r.claim.owners == [key]
    requires forall d | d in ds :: d.change.Delete? && (d.claim.name == NameOf(w', x) ==> x !in Listed(w'.services))
    requires forall k | k != key && ListedBy(w'.services, k, x) :: Owned(w', NameOf(w', x), k)
    requires ListedBy(w'.services, key, x) ==> CreateFor(w', x, key) in cs
    ensures Tracks(w', x, key)
  {
    if ListedBy(w'.services, key, x) {
      var r := CreateFor(w', x, key);
      assert r in Pending(w') && Records(w', r, NameOf(w', x), key);
    }
  }

  /** The second half of an event: deletes for addresses nobody lists any more. */
  lemma OldServiceSends(u: World, offer: Offers, ips: seq<string>, x: string, cs: seq<Request>)
    returns (ds: seq<Request>)
    requires Sound(u, offer) && Plain(x) && Outside(offer, x) && Pending(u) == cs
    requires forall ip | ip in ips :: Plain(ip)
    ensures var t := Dropped(u, ips, Listed(u.services));
            && Pending(t) == cs + ds && t.services == u.services && t.claims == u.claims && t.mask == u.mask
    ensures forall d | d in ds :: d.change.Delete? && (d.claim.name == NameOf(u, x) ==> x !in Listed(u.services))
  {
    ds := Deletions(u.pools, u.mask, ips, Listed(u.services));
    DroppedSends(u, ips, Listed(u.services));
    DeletionsSpareListed(u.pools, offer, u.mask, ips, Listed(u.services), NameOf(u, x), x);
  }

  lemma ServiceEventTracks(w: World, offer: Offers, key: string, cur: Option<Service>, x: string, last: string)
    requires Sound(w, offer) && Enabled(w, ServiceEvent(key, cur)) && Plain(x) && Outside(offer, x)
    requires Tracks(w, x, last) && Pending(w) == []
    ensures Tracks(ServiceHandled(w, key, cur), x, key)
  {
    var u, cs := NewServiceSends(w, offer, key, cur, x);
    OldIPsArePlain(w, key);
    var ds := OldServiceSends(u, offer, OldIPs(w, key), x, cs);
    EventTracks(w, ServiceHandled(w, key, cur), x, key, last, cs, ds);
  }

  /** The first half of an event, starting without requests. */
  lemma NewServiceSends(w: World, offer: Offers, key: string, cur: Option<Service>, x: string)
    returns (u: World, cs: seq<Request>)
    requires Sound(w, offer) && Enabled(w, ServiceEvent(key, cur)) && Pending(w) == [] && Plain(x) && Outside(offer, x)
    ensures Sound(u, offer) && Pending(u) == cs
    ensures ServiceHandled(w, key, cur) == Dropped(u, OldIPs(w, key), Listed(u.services))
    ensures u.claims == w.claims && u.mask == w.mask && u.services - {key} == w.services - {key}
    ensures forall r | r in cs :: r.change.Create? && r.claim.owners == [key]
    ensures ListedBy(u.services, key, x) ==> CreateFor(u, x, key) in cs
  {
    var t := Stored(w, key, cur);
    StoredIsSound(w, offer, key, cur);
    StoringTouches(w, key, cur);
    u, cs := StoredServiceSends(t, offer, key, cur, x);
    HandledInHalves(w, key, cur, u);
  }

  lemma StoringTouches(w: World, key: string, cur: Option<Service>)
    ensures var t := Stored(w, key, cur);
            && Pending(t) == Pending(w) && t == w.(services := t.services)
            && t.services - {key} == w.services - {key}
            && if cur.Some? then key in t.services && t.services[key] == cur.value else key !in t.services
  {
    assert Pending(Stored(w, key, cur)) == Pending(w);
  }

  lemma HandledInHalves(w: World, key: string, cur: Option<Service>, u: World)
    requires ValidPools(w.pools)
    requires u == if cur.Some? then ExternalIPsProcessed(Stored(w, key, cur), key) else Stored(w, key, cur)
    requires ValidPools(u.pools)
    ensures ServiceHandled(w, key, cur) == Dropped(u, OldIPs(w, key), Listed(u.services))
  {
  }

  lemma EventTracks(w: World, w': World, x: string, key: string, last: string, cs: seq<Request>, ds: seq<Request>)
    requires Tracks(w, x, last) && Pending(w) == [] && Pending(w') == cs + ds
    requires w'.claims == w.claims && w'.mask == w.mask && w'.services - {key} == w.services - {key}
    requires forall r | r in cs :: r.change.Create? && r.claim.owners == [key]
    requires forall d | d in ds :: d.change.Delete? && (d.claim.name == NameOf(w', x) ==> x !in Listed(w'.services))
    requires ListedBy(w'.services, key, x) ==> CreateFor(w', x, key) in cs
    ensures Tracks(w', x, key)
  {
    OthersStayOwned(w, w', x, key, last);
    EventStartsTracking(w', x, key, cs, ds);
  }

  lemma StoredServiceSends(t: World, offer: Offers, key: string, cur: Option<Service>, x: string)
    returns (u: World, cs: seq<Request>)
    requires Sound(t, offer) && Pending(t) == [] && Plain(x) && Outside(offer, x)
    requires if cur.Some? then key in t.services && t.services[key] == cur.value else key !in t.services
    ensures u == if cur.Some? then ExternalIPsProcessed(t, key) else t
    ensures Sound(u, offer) && Pending(u) == cs
    ensures u.claims == t.claims && u.mask == t.mask && u.services - {key} == t.services - {key}
    ensures forall r | r in cs :: r.change.Create? && r.claim.owners == [key]
    ensures ListedBy(u.services, key, x) ==> CreateFor(u, x, key) in cs
  {
    u, cs := t, [];
    if cur.Some? {
      ExternalIPsProcessedIsSound(t, offer, key);
      cs := ExternalIPsSend(t, offer, key, x);
      ExternalIPsWill(t, offer, key, x);
      u := ExternalIPsProcessed(t, key);
    }
  }

  lemma OthersStayOwned(w: World, w': World, x: string, key: string, last: string)
    requires Tracks(w, x, last) && Pending(w) == []
    requires w'.claims == w.claims && w'.mask == w.mask && w'.services - {key} == w.services - {key}
    ensures forall k | k != key && ListedBy(w'.services, k, x) :: Owned(w', NameOf(w', x), k)
  {
    DrainedOwners(w, x, last);
    forall k | k != key && ListedBy(w'.services, k, x) ensures Owned(w', NameOf(w', x), k) {
      assert k in w'.services - {key} && (w'.services - {key})[k] == w'.services[k];
      assert ListedBy(w.services, k, x);
    }
  }

  // ----- Processing a claim -----

  /** The claim of an outside address is stored under that address's name. */
  lemma OutsideClaimName(c: Claim, w: World, offer: Offers, x: string)
    requires GoodClaim(c, w.mask, offer) && Plain(w.mask) && Plain(x) && Outside(offer, x)
    ensures c.name == NameOf(w, x) <==> AddressOf(c.cidr) == x
  {
    if c.name == NameOf(w, x) {
      ClaimNameIsInjective(AddressOf(c.cidr), MaskOf(c.cidr), x, w.mask);
    }
  }

  /** Its recorded owners include every stored service that lists the address. */
  lemma DrainedClaimIsRecorded(w: World, offer: Offers, c: Claim, last: string)
    requires Sound(w, offer) && Pending(w) == []
    requires c.name in w.claims && w.claims[c.name] == c
    requires Outside(offer, AddressOf(c.cidr)) && Tracks(w, AddressOf(c.cidr), last)
    ensures OwnersRecorded(w, c)
  {
    var x := AddressOf(c.cidr);
    assert GoodClaim(c, w.mask, offer);
    OutsideClaimName(c, w, offer, x);
    DrainedOwners(w, x, last);
    forall k | k in w.services && x in w.services[k].ips ensures k in c.owners {
      assert ListedBy(w.services, k, x);
    }
  }

  /** Updates that drop none of the owners, or a deletion when there are none. */
  lemma QuietRequestsKeep(w: World, t: World, name: string, keys: set<string>, last: string, rs: seq<Request>)
    requires Keeps(w, name, keys, last) && Pending(w) == [] && Pending(t) == rs && t.claims == w.claims
    requires forall r | r in rs && r.claim.name == name ::
               (r.change.Update? && forall k | k in keys :: k in r.claim.owners) || (r.change.Delete? && keys == {})
    ensures Keeps(t, name, keys, last)
  {
  }

  lemma QuietRequestsTrack(w: World, t: World, x: string, last: string, rs: seq<Request>)
    requires Tracks(w, x, last) && Pending(w) == [] && Pending(t) == rs
    requires t.claims == w.claims && t.services == w.services && t.mask == w.mask
    requires forall r | r in rs && r.claim.name == NameOf(w, x) ::
               || (r.change.Update? && forall k | ListedBy(w.services, k, x) :: k in r.claim.owners)
               || (r.change.Delete? && x !in Listed(w.services))
    ensures Tracks(t, x, last)
  {
    ListersOf(w.services, x);
    QuietRequestsKeep(w, t, NameOf(w, x), Listers(w.services, x), last, rs);
  }

  lemma CollectingTracks(w: World, offer: Offers, c: Claim, x: string, last: string)
    requires Sound(w, offer) && Pending(w) == [] && Tracks(w, x, last) && Plain(x) && Outside(offer, x)
    requires c.name in w.claims && w.claims[c.name] == c && OwnersAlive(w, c.owners) == []
    ensures Tracks(Released(w, AddressOf(c.cidr)), x, last)
  {
    var ip := AddressOf(c.cidr);
    var r, t := ReleaseRequest(w.pools, w.mask, ip), Released(w, ip);
    assert GoodClaim(c, w.mask, offer);
    SendAppends(w, r);
    assert Pending(t) == Pending(Send(w, r)) == [r];
    DeleteNames(w, offer, ip, x);
    if ip == x {
      DrainedClaimIsRecorded(w, offer, c, last);
      CollectedIsUnlisted(w, c);
    }
    QuietRequestsTrack(w, t, x, last, [r]);
  }

  lemma UpdatingTracks(w: World, offer: Offers, key: string, x: string, last: string)
    requires Sound(w, offer) && Pending(w) == [] && Tracks(w, x, last) && Plain(x) && Outside(offer, x)
    requires key in w.cache && key in w.claims && w.cache[key] == w.claims[key]
    requires OwnersAlive(w, w.cache[key].owners) != []
    ensures Tracks(ClaimProcessed(w, key).0, x, last)
  {
    var c := w.cache[key];
    var (e, rs) := ClaimOutcome(w, key);
    var u := w.(cache := w.cache[key := e]);
    assert Pending(u) == Pending(w);
    SendAllAppends(u, rs);
    SendAllChangesOnlyTheQueue(u, rs);
    if e.name == NameOf(w, x) {
      assert GoodClaim(c, w.mask, offer);
      OutsideClaimName(c, w, offer, x);
      DrainedClaimIsRecorded(w, offer, c, last);
      assert forall k | ListedBy(w.services, k, x) :: k in e.owners;
    }
    QuietRequestsTrack(w, SendAll(u, rs), x, last, rs);
  }

  lemma SameKeeps(w: World, t: World, name: string, keys: set<string>, last: string)
    requires Keeps(w, name, keys, last) && t.claims == w.claims && t.strict == w.strict && Pending(t) == Pending(w)
    ensures Keeps(t, name, keys, last)
  {
    forall k | k in keys && !Owned(t, name, k)
      ensures k == last && exists q | q in Pending(t) :: Records(t, q, name, k)
    {
      assert !Owned(w, name, k);
      var q :| q in Pending(w) && Records(w, q, name, k);
      assert Records(t, q, name, k);
    }
  }

  lemma SameTracks(w: World, t: World, x: string, last: string)
    requires Tracks(w, x, last) && t.claims == w.claims && t.services == w.services
    requires t.mask == w.mask && t.strict == w.strict && Pending(t) == Pending(w)
    ensures Tracks(t, x, last)
  {
    SameKeeps(w, t, NameOf(w, x), Listers(w.services, x), last);
  }

  // ----- Runs -----

  /** Service events and claims are handled only when no change is pending, and a claim
      only when the cache has caught up with the API. */
  ghost predicate Calm(w: World, step: Step) {
    && (step.ServiceEvent? || step.ProcessKey? ==> Pending(w) == [])
    && (step.ProcessKey? && w.stage.KeyTaken? && w.stage.key in w.cache ==>
          w.stage.key in w.claims && w.cache[w.stage.key] == w.claims[w.stage.key])
  }

  /** The service of the latest event at each point. */
  function LastAt(steps: seq<Step>, k: nat): string
    requires k <= |steps|
  {
    if k == 0 then "" else if steps[k - 1].ServiceEvent? then steps[k - 1].key else LastAt(steps, k - 1)
  }

  lemma KeyProcessedTracks(w: World, offer: Offers, x: string, last: string)
    requires Sound(w, offer) && Tracks(w, x, last) && Plain(x) && Outside(offer, x)
    requires w.stage.KeyTaken? && Calm(w, ProcessKey)
    ensures Tracks(KeyProcessed(w), x, last)
  {
    var key := w.stage.key;
    if key in w.cache {
      var c, t := w.cache[key], ClaimProcessed(w, key).0;
      if OwnersAlive(w, c.owners) == [] {
        CollectingTracks(w, offer, c, x, last);
      } else {
        UpdatingTracks(w, offer, key, x, last);
        SendAllChangesOnlyTheQueue(w.(cache := w.cache[key := ClaimOutcome(w, key).0]), ClaimOutcome(w, key).1);
      }
      SameTracks(t, KeyProcessed(w), x, last);
    } else {
      SameTracks(w, KeyProcessed(w), x, last);
    }
  }

  lemma StepTracks(w: World, offer: Offers, step: Step, x: string, last: string)
    requires Sound(w, offer) && Enabled(w, step) && Calm(w, step) && Tracks(w, x, last) && Plain(x) && Outside(offer, x)
    requires step.HandleChange? ==> Serviceable(w)
    ensures Tracks(Do(w, step), x, if step.ServiceEvent? then step.key else last)
  {
    if step.ServiceEvent? {
      ServiceEventTracks(w, offer, step.key, step.cur, x, last);
    } else if step.HandleChange? {
      ChangeHandledTracks(w, offer, x, last);
    } else if step.TakeChange? {
      TakenFromExclusive(w.changes);
      TakingKeepsPending(w);
      SameTracks(w, Do(w, step), x, last);
    } else if step.ProcessKey? {
      KeyProcessedTracks(w, offer, x, last);
    } else {
      QuietStepTouches(w, step);
      SameTracks(w, Do(w, step), x, last);
    }
  }

  ghost predicate CalmRun(ws: seq<World>, steps: seq<Step>) {
    |ws| == |steps| + 1 && forall i :: 0 <= i < |steps| ==> Calm(ws[i], steps[i])
  }

  lemma TracksAfter(w: World, offer: Offers, step: Step, t: World, x: string, last: string)
    requires Sound(w, offer) && Goes(w, step, t) && Calm(w, step) && Tracks(w, x, last) && Plain(x) && Outside(offer, x)
    ensures Tracks(t, x, if step.ServiceEvent? then step.key else last)
  {
    StepTracks(w, offer, step, x, last);
  }

  /** From point k - 1 to point k. */
  lemma NextTracks(ws: seq<World>, steps: seq<Step>, offer: Offers, x: string, k: nat, last: string)
    requires IsRun(ws, steps, offer) && CalmRun(ws, steps) && 0 < k <= |steps| && Tracks(ws[k - 1], x, last)
    requires Plain(x) && Outside(offer, x)
    ensures Tracks(ws[k], x, if steps[k - 1].ServiceEvent? then steps[k - 1].key else last)
  {
    StepOfRun(ws, steps, offer, k);
    TracksAfter(ws[k - 1], offer, steps[k - 1], ws[k], x, last);
  }

  lemma {:induction false} RunTracks(ws: seq<World>, steps: seq<Step>, offer: Offers, x: string, k: nat)
    requires IsRun(ws, steps, offer) && CalmRun(ws, steps) && Tracks(ws[0], x, "")
    requires Plain(x) && Outside(offer, x) && k <= |steps|
    ensures Tracks(ws[k], x, LastAt(steps, k))
  {
    if k > 0 {
      RunTracks(ws, steps, offer, x, k - 1);
      NextTracks(ws, steps, offer, x, k, LastAt(steps, k - 1));
    }
  }

  /** On calm runs, whenever nothing is pending, the claim of an outside address records
      every stored service that lists it. */
  lemma OwnersIncludeEveryLister(ws: seq<World>, steps: seq<Step>, offer: Offers, x: string, k: nat, key: string)
    requires IsRun(ws, steps, offer) && CalmRun(ws, steps) && Tracks(ws[0], x, "")
    requires Plain(x) && Outside(offer, x) && k < |ws| && Pending(ws[k]) == []
    requires key in ws[k].services && x in ws[k].services[key].ips
    ensures NameOf(ws[k], x) in ws[k].claims && key in ws[k].claims[NameOf(ws[k], x)].owners
  {
    RunTracks(ws, steps, offer, x, k);
    DrainedOwners(ws[k], x, LastAt(steps, k));
    assert ListedBy(ws[k].services, key, x);
  }

  /** So the deletion of a claim without living owners never hits an address in use. */
  lemma CollectionIsSafe(ws: seq<World>, steps: seq<Step>, offer: Offers, k: nat)
    requires IsRun(ws, steps, offer) && CalmRun(ws, steps) && k < |steps| && steps[k].ProcessKey?
    requires ws[k].stage.KeyTaken? && ws[k].stage.key in ws[k].cache
    requires var c := ws[k].cache[ws[k].stage.key];
             && Outside(offer, AddressOf(c.cidr)) && Tracks(ws[0], AddressOf(c.cidr), "")
             && OwnersAlive(ws[k], c.owners) == []
    ensures AddressOf(ws[k].cache[ws[k].stage.key].cidr) !in Listed(ws[k].services)
  {
    var w := ws[k];
    var c := w.cache[w.stage.key];
    EveryRunIsSound(ws, steps, offer, k);
    assert Calm(w, steps[k]) && GoodClaim(c, w.mask, offer);
    RunTracks(ws, steps, offer, AddressOf(c.cidr), k);
    DrainedClaimIsRecorded(w, offer, c, LastAt(steps, k));
    CollectedIsUnlisted(w, c);
  }

  /** Before the first event. */
  ghost predicate Untouched(w: World) {
    w.services == map[] && w.claims == map[] && Pending(w) == []
  }

  lemma UntouchedAgrees(w: World, offer: Offers, x: string)
    requires Untouched(w)
    ensures Tracks(w, x, "") && Follows(w, offer)
  {
    assert Listed(w.services) == {};
    assert forall k :: !ListedBy(w.services, k, x);
    assert forall n :: !Will(w, n);
  }

  /** A calm run never collects the claim of a listed address. */
  lemma CalmStepSpares(ws: seq<World>, steps: seq<Step>, offer: Offers, k: nat)
    requires IsRun(ws, steps, offer) && CalmRun(ws, steps) && Untouched(ws[0]) && k < |steps|
    ensures SparesClaims(ws[k], offer, steps[k])
  {
    var y := Collected(ws[k], steps[k]);
    if y.Some? && Outside(offer, y.value) {
      UntouchedAgrees(ws[0], offer, y.value);
      CollectionIsSafe(ws, steps, offer, k);
    }
  }

  lemma {:induction false} CalmRunSpares(ws: seq<World>, steps: seq<Step>, offer: Offers, k: nat)
    requires IsRun(ws, steps, offer) && CalmRun(ws, steps) && Untouched(ws[0]) && k <= |steps|
    ensures SparesTo(ws, steps, offer, k)
  {
    if k > 0 {
      CalmRunSpares(ws, steps, offer, k - 1);
      CalmStepSpares(ws, steps, offer, k - 1);
    }
  }

  /** So on calm runs from the start the claims follow the services at every point, without a
      condition on the recorded owners. */
  lemma CalmRunsFollow(ws: seq<World>, steps: seq<Step>, offer: Offers, k: nat)
    requires IsRun(ws, steps, offer) && CalmRun(ws, steps) && Untouched(ws[0]) && k <= |steps|
    ensures FollowsTo(ws, offer, k)
  {
    UntouchedAgrees(ws[0], offer, "");
    CalmRunSpares(ws, steps, offer, k);
    ClaimsFollowServices(ws, steps, offer, k);
  }
}
