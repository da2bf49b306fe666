/** A claim is found and deleted under the name it was created with: the three places that
    compute the name agree as long as they select the same mask. */
module Lookup {
  import opened Strings
  import opened Naming
  import opened Cluster
  import opened ClaimNames

  /** The mask getIPClaimByIP and deleteIPClaimAndAllocation select for an address. */
  function MaskFor(pools: seq<Pool>, mask: string, ip: string): string
    requires ValidPools(pools)
  {
    var i := PoolOf(pools, ip);
    if i.Some? then PoolMask(pools[i.value]) else mask
  }

  /** getIPClaimByIP: the claim the API holds for an address, if any. */
  function ClaimByIP(w: World, ip: string): Option<Claim>
    requires ValidPools(w.pools)
  {
    var name := ClaimName(ip, MaskFor(w.pools, w.mask, ip));
    if name in w.claims then Some(w.claims[name]) else None
  }

  /** A claim made for an address with mask `m` has the name that lookup and deletion compute
      exactly when they select the mask `m`. */
  lemma SameNameIffSameMask(pools: seq<Pool>, mask: string, ip: string, m: string, owners: seq<string>)
    requires ValidPools(pools) && Plain(ip) && Plain(m) && Plain(MaskFor(pools, mask, ip))
    ensures ReleaseRequest(pools, mask, ip).claim.name == ClaimName(ip, MaskFor(pools, mask, ip))
    ensures MakeClaim(ip, m, owners).name == ReleaseRequest(pools, mask, ip).claim.name
       <==> MaskFor(pools, mask, ip) == m
  {
    if MakeClaim(ip, m, owners).name == ReleaseRequest(pools, mask, ip).claim.name {
      ClaimNameIsInjective(ip, m, ip, MaskFor(pools, mask, ip));
    }
  }

  /** The API's claim for an address is found if and only if the mask it was made with is selected. */
  lemma ClaimIsFoundIffSameMask(w: World, ip: string, m: string)
    requires ValidPools(w.pools) && Plain(ip) && Plain(m) && Plain(MaskFor(w.pools, w.mask, ip))
    requires ClaimName(ip, m) in w.claims && forall n | n in w.claims :: w.claims[n].name == n
    ensures ClaimByIP(w, ip) == Some(w.claims[ClaimName(ip, m)]) <==> MaskFor(w.pools, w.mask, ip) == m
  {
    if ClaimByIP(w, ip) == Some(w.claims[ClaimName(ip, m)]) {
      assert ClaimName(ip, m) == ClaimName(ip, MaskFor(w.pools, w.mask, ip));
      ClaimNameIsInjective(ip, m, ip, MaskFor(w.pools, w.mask, ip));
    }
  }

  /** The claims asked for when a service is processed are found again. */
  lemma {:induction false} RequestedClaimsAreFound(pools: seq<Pool>, mask: string, key: string, ips: seq<string>)
    requires ValidPools(pools)
    ensures forall r | r in ClaimRequests(pools, mask, key, ips) ::
              exists ip | ip in ips :: r.claim == MakeClaim(ip, MaskFor(pools, mask, ip), [key])
    decreases |ips|
  {
    if ips != [] {
      RequestedClaimsAreFound(pools, mask, key, ips[1..]);
      forall r | r in ClaimRequests(pools, mask, key, ips)
        ensures exists ip | ip in ips :: r.claim == MakeClaim(ip, MaskFor(pools, mask, ip), [key])
      {
        if r in ClaimRequests(pools, mask, key, ips[1..]) {
          var ip :| ip in ips[1..] && r.claim == MakeClaim(ip, MaskFor(pools, mask, ip), [key]);
          assert ip in ips;
        } else {
          assert ips[0] in ips && r.claim == MakeClaim(ips[0], mask, [key]);
        }
      }
    }
  }

  lemma {:induction false} FirstHolder(pools: seq<Pool>, i: nat, ip: string)
    requires i < |pools| && ip in pools[i].spec.allocations
    requires forall j :: 0 <= j < i ==> ip !in pools[j].spec.allocations
    ensures PoolOf(pools, ip) == Some(i)
  {
    if i > 0 {
      assert pools[1..][i - 1] == pools[i];
      forall j | 0 <= j < i - 1 ensures ip !in pools[1..][j].spec.allocations {
        assert pools[1..][j] == pools[j + 1];
      }
      FirstHolder(pools[1..], i - 1, ip);
    }
  }

  /** The claim of a granted address is found again, its pool being the first to hold it. */
  lemma GrantedClaimIsFound(w: World, offer: Offers, key: string, i: nat, ip: string)
    requires PoolsAre(w.pools, offer) && key in w.services
    requires i < |w.pools| && HasMask(w.pools[i].spec) && ip in offer[i]
    requires forall j :: 0 <= j < i ==> ip !in w.pools[j].spec.allocations
    ensures var t := Allocate(w, key, i, ip);
            && ValidPools(t.pools)
            && MaskFor(t.pools, t.mask, ip) == PoolMask(w.pools[i])
            && GrantClaim(w.pools[i], ip, key).name == ReleaseRequest(t.pools, t.mask, ip).claim.name
  {
    var t := Allocate(w, key, i, ip);
    AllocatingKeepsPools(w.pools, offer, i, ip, GrantClaim(w.pools[i], ip, key).name);
    FirstHolder(t.pools, i, ip);
  }
}
