/** What processing a service does, in plain terms: which claims are asked for, who is granted
    an address, and which one. */
module Allocation {
  import opened Strings
  import opened Naming
  import opened Pools
  import opened Cluster
  import opened ClaimNames
  import opened Ownership

  // ----- Who is granted what -----

  /** The service carries the annotation with the value "auto", or is a load balancer. */
  predicate Entitled(svc: Service) {
    svc.loadBalancer || (exists value :: ("external-ip", value) in svc.annotations.Items && value == "auto")
  }

  predicate NoneAllocated(pools: seq<Pool>, ips: seq<string>) {
    forall i, ip | 0 <= i < |pools| && ip in ips :: ip !in pools[i].spec.allocations
  }

  /** The pool's CIDR parses, and some address it offers is not allocated. */
  predicate HasFree(p: PoolSpec)
    requires p.Valid()
  {
    p.parsed.Some? && exists t | t in Offered(p) :: t !in p.allocations
  }

  ghost predicate SomeFree(pools: seq<Pool>)
    requires ValidPools(pools)
  {
    exists i :: 0 <= i < |pools| && HasFree(pools[i].spec)
  }

  /** The first free address of the first pool that has one. */
  ghost predicate IsFirstFree(pools: seq<Pool>, i: nat, ip: string)
    requires ValidPools(pools)
  {
    i < |pools| && NoneFree(pools[..i]) && FirstIn(pools[i].spec, ip)
  }

  ghost predicate NoneFree(pools: seq<Pool>)
    requires ValidPools(pools)
  {
    forall i :: 0 <= i < |pools| ==> !HasFree(pools[i].spec)
  }

  /** The first free address of a pool. */
  predicate FirstIn(p: PoolSpec, ip: string)
    requires p.Valid()
  {
    p.parsed.Some? && exists n: nat :: n < |Offered(p)| && IsFreeAt(p, n, ip)
  }

  predicate IsFreeAt(p: PoolSpec, n: nat, ip: string)
    requires p.Valid() && p.parsed.Some?
  {
    var ts := Offered(p);
    n < |ts| && ts[n] == ip && ip !in p.allocations && forall m :: 0 <= m < n ==> ts[m] in p.allocations
  }

  lemma AvailableMeansFree(p: PoolSpec)
    requires p.Valid()
    ensures Available(p).Free? <==> HasFree(p)
    ensures Available(p).Free? ==> FirstIn(p, Available(p).ip)
  {
    AvailableIsExact(p);
    if Available(p).Free? {
      var n :| 0 <= n < |Offered(p)| && Available(p).ip == Offered(p)[n]
               && forall m :: 0 <= m < n ==> Offered(p)[m] in p.allocations;
      assert IsFreeAt(p, n, Available(p).ip);
    }
  }

  lemma {:induction false} FirstGrantIsFirst(pools: seq<Pool>)
    requires ValidPools(pools)
    ensures FirstGrant(pools).Some? <==> SomeFree(pools)
    ensures FirstGrant(pools).Some? ==> IsFirstFree(pools, FirstGrant(pools).value.0, FirstGrant(pools).value.1)
  {
    if pools != [] {
      AvailableMeansFree(pools[0].spec);
      var rest := pools[1..];
      assert forall i :: 0 <= i < |rest| ==> rest[i] == pools[i + 1];
      FirstGrantIsFirst(rest);
      if HasFree(pools[0].spec) {
        assert pools[..0] == [];
      } else {
        SomeFreeLater(pools, rest);
        if FirstGrant(rest).Some? {
          FirstFreeLater(pools, rest, FirstGrant(rest).value.0, FirstGrant(rest).value.1);
        }
      }
    }
  }

  lemma SomeFreeLater(pools: seq<Pool>, rest: seq<Pool>)
    requires pools != [] && ValidPools(pools) && rest == pools[1..] && ValidPools(rest) && !HasFree(pools[0].spec)
    ensures SomeFree(pools) <==> SomeFree(rest)
  {
    if i :| 0 <= i < |rest| && HasFree(rest[i].spec) {
      assert HasFree(pools[i + 1].spec);
    }
    if i :| 0 <= i < |pools| && HasFree(pools[i].spec) {
      assert HasFree(rest[i - 1].spec);
    }
  }

  lemma FirstFreeLater(pools: seq<Pool>, rest: seq<Pool>, i: nat, ip: string)
    requires pools != [] && ValidPools(pools) && rest == pools[1..] && ValidPools(rest) && !HasFree(pools[0].spec)
    requires IsFirstFree(rest, i, ip)
    ensures IsFirstFree(pools, i + 1, ip)
  {
    assert pools[i + 1] == rest[i] && pools[..i + 1] == [pools[0]] + rest[..i];
    NoneFreeOfCons(pools[0], rest[..i], pools[..i + 1]);
  }

  lemma NoneFreeOfCons(p: Pool, rest: seq<Pool>, pools: seq<Pool>)
    requires ValidPool(p.spec) && !HasFree(p.spec) && ValidPools(rest) && NoneFree(rest)
    requires pools == [p] + rest && ValidPools(pools)
    ensures NoneFree(pools)
  {
    forall i | 0 <= i < |pools| ensures !HasFree(pools[i].spec) {
      if i > 0 {
        assert pools[i] == rest[i - 1];
      }
    }
  }

  /** The service is granted an address: it is entitled, lists no allocated address, and some
      pool has a free one. */
  ghost predicate Granted(pools: seq<Pool>, svc: Service)
    requires ValidPools(pools)
  {
    Entitled(svc) && NoneAllocated(pools, svc.ips) && SomeFree(pools)
  }

  /** What a service is granted. */
  lemma GrantedIff(pools: seq<Pool>, svc: Service)
    requires ValidPools(pools)
    ensures GrantFor(pools, svc).Some? <==> Granted(pools, svc)
    ensures GrantFor(pools, svc).Some? ==>
              IsFirstFree(pools, GrantFor(pools, svc).value.0, GrantFor(pools, svc).value.1)
  {
    FirstGrantIsFirst(pools);
    assert Entitled(svc) <==> WantsAddress(svc) by {
      var notes := svc.annotations;
      assert "external-ip" in notes ==> ("external-ip", notes["external-ip"]) in notes.Items;
    }
    assert NoneAllocated(pools, svc.ips) <==> !HasPoolAddress(pools, svc.ips);
  }

  // ----- Processing a service -----

  /** `u` is `w` with the address recorded in pool i, under its claim's name, and listed. */
  predicate Records(w: World, key: string, i: nat, ip: string, u: World)
    requires key in w.services && i < |w.pools| && HasMask(w.pools[i].spec)
  {
    var pool, svc := w.pools[i], w.services[key];
    var claim := Replaced(ip, '.', '-') + "-" + Split(pool.spec.cidr, '/')[1];
    && u.pools == w.pools[i := Pool(pool.name, pool.spec.(allocations := pool.spec.allocations[ip := claim]))]
    && u.services == w.services[key := svc.(ips := svc.ips + [ip])]
  }

  /** The first free address of the first pool that has one is recorded and listed. */
  ghost predicate RecordsFirst(w: World, key: string, i: nat, ip: string, u: World)
    requires key in w.services && ValidPools(w.pools)
  {
    IsFirstFree(w.pools, i, ip) && HasMask(w.pools[i].spec) && Records(w, key, i, ip, u)
  }

  /** Processing a service changes a pool exactly if the service is granted an address.  Then
      that is recorded and listed, and else neither pools nor services change. */
  lemma ProcessingGrantsIff(w: World, key: string)
    requires key in w.services && ValidPools(w.pools)
    ensures var u, svc := ExternalIPsProcessed(w, key), w.services[key];
            && (u.pools != w.pools <==> Granted(w.pools, svc))
            && (!Granted(w.pools, svc) ==> u.services == w.services)
            && (Granted(w.pools, svc) ==> exists i: nat, ip :: RecordsFirst(w, key, i, ip, u))
  {
    var u, svc := ExternalIPsProcessed(w, key), w.services[key];
    SendAllChangesOnlyTheQueue(w, ClaimRequests(w.pools, w.mask, key, svc.ips));
    GrantedIff(w.pools, svc);
    if GrantFor(w.pools, svc).Some? {
      var (i, ip) := GrantFor(w.pools, svc).value;
      GrantRecords(SendAll(w, ClaimRequests(w.pools, w.mask, key, svc.ips)), key, i, ip);
      assert RecordsFirst(w, key, i, ip, u);
    }
  }

  lemma GrantRecords(w: World, key: string, i: nat, ip: string)
    requires key in w.services && i < |w.pools| && HasMask(w.pools[i].spec) && ip !in w.pools[i].spec.allocations
    ensures var u := Allocate(w, key, i, ip); Records(w, key, i, ip, u) && u.pools != w.pools
  {
    NameIsReplaced(ip, PoolMask(w.pools[i]));
    assert ['-'] == "-";
    assert ip in Allocate(w, key, i, ip).pools[i].spec.allocations;
  }

  // ----- The claims that are asked for -----

  /** A claim of one address for one owner, on no node yet. */
  predicate IsClaimOf(c: Claim, ip: string, mask: string, owner: string, labels: map<string, string>) {
    && Split(c.cidr, '/') == [ip, mask] && c.name == Replaced(ip, '.', '-') + "-" + mask
    && c.owners == [owner] && c.node == "" && c.labels == labels
  }

  lemma MadeClaim(ip: string, mask: string, owner: string)
    requires '/' !in ip && '/' !in mask
    ensures IsClaimOf(MakeClaim(ip, mask, [owner]), ip, mask, owner, map[])
  {
    CidrRoundTrip(ip, mask);
    NameIsReplaced(ip, mask);
    assert ['-'] == "-";
  }

  /** The listed addresses that no pool has allocated, in order. */
  function Unallocated(pools: seq<Pool>, ips: seq<string>): seq<string> {
    if ips == [] then []
    else (if NoneAllocated(pools, [ips[0]]) then [ips[0]] else []) + Unallocated(pools, ips[1..])
  }

  /** One claim is asked for each of them, with the default mask. */
  lemma {:induction false} ListedAreAskedFor(pools: seq<Pool>, mask: string, key: string, ips: seq<string>)
    requires '/' !in mask && forall ip | ip in ips :: '/' !in ip
    ensures var rs, free := ClaimRequests(pools, mask, key, ips), Unallocated(pools, ips);
            |rs| == |free| && forall i :: 0 <= i < |rs| ==>
              rs[i].change.Create? && IsClaimOf(rs[i].claim, free[i], mask, key, map[])
    decreases |ips|
  {
    if ips != [] {
      ListedAreAskedFor(pools, mask, key, ips[1..]);
      MadeClaim(ips[0], mask, key);
      assert NoneAllocated(pools, [ips[0]]) <==> PoolOf(pools, ips[0]).None? by {
        assert ips[0] in [ips[0]];
      }
      var rs, free := ClaimRequests(pools, mask, key, ips[1..]), Unallocated(pools, ips[1..]);
      if PoolOf(pools, ips[0]).None? {
        forall i | 0 <= i < 1 + |rs|
          ensures var r := ClaimRequests(pools, mask, key, ips)[i];
                  r.change.Create? && IsClaimOf(r.claim, Unallocated(pools, ips)[i], mask, key, map[])
        {
          if i > 0 {
            assert rs[i - 1].change.Create? && IsClaimOf(rs[i - 1].claim, free[i - 1], mask, key, map[]);
          }
        }
      }
    }
  }

  /** The claim of a granted address has the pool's mask and the pool's name as label. */
  lemma GrantIsAskedFor(pool: Pool, ip: string, key: string)
    requires HasMask(pool.spec) && '/' !in ip && '/' !in Split(pool.spec.cidr, '/')[1]
    ensures IsClaimOf(GrantClaim(pool, ip, key), ip, Split(pool.spec.cidr, '/')[1], key,
                      map["ip-pool-name" := pool.name])
  {
    MadeClaim(ip, PoolMask(pool), key);
  }

  /** The claim of the address a service is granted. */
  lemma GrantAsksFor(w: World, offer: Offers, key: string)
    requires PoolsAre(w.pools, offer) && key in w.services
    ensures var svc, rs := w.services[key], GrantRequests(w, key);
            var granted := Granted(w.pools, svc);
            && |rs| == (if granted then 1 else 0)
            && (granted ==>
                  exists i: nat, ip | IsFirstFree(w.pools, i, ip) && HasMask(w.pools[i].spec) ::
                    && rs[0].change.Create?
                    && IsClaimOf(rs[0].claim, ip, Split(w.pools[i].spec.cidr, '/')[1], key,
                                 map["ip-pool-name" := w.pools[i].name]))
  {
    var svc := w.services[key];
    GrantedIff(w.pools, svc);
    if GrantFor(w.pools, svc).Some? {
      var (i, ip) := GrantFor(w.pools, svc).value;
      GrantIsOffered(w.pools, offer, svc);
      assert PoolIs(w.pools[i], offer[i]);
      GrantIsAskedFor(w.pools[i], ip, key);
    }
  }

  /** All that processing a service asks for: the claims of its unallocated addresses, and last
      that of the address it is granted. */
  lemma ProcessingAsksFor(w: World, key: string)
    requires GoodQueue(w) && key in w.services && ValidPools(w.pools)
    requires '/' !in w.mask && forall ip | ip in w.services[key].ips :: '/' !in ip
    ensures var svc := w.services[key];
            var rs, free := ClaimRequests(w.pools, w.mask, key, svc.ips), Unallocated(w.pools, svc.ips);
            && Pending(ExternalIPsProcessed(w, key)) == Pending(w) + rs + GrantRequests(w, key)
            && |rs| == |free| && (forall i :: 0 <= i < |rs| ==>
                  rs[i].change.Create? && IsClaimOf(rs[i].claim, free[i], w.mask, key, map[]))
  {
    ExternalIPsPending(w, key);
    ListedAreAskedFor(w.pools, w.mask, key, w.services[key].ips);
  }
}
