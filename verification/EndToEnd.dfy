/** The parts together: once everything is drained, an address that a service lists is on exactly
    the interface of the live node that its claim names, and no other address is. */
module EndToEnd {
  import opened Strings
  import opened Naming
  import opened Cluster
  import opened ClaimNames
  import opened Soundness
  import opened ClaimSet
  import opened Ownership
  import opened Liveness
  import opened Failover
  import opened FailoverInformed
  import opened PoolClaims
  import opened Scheduling
  import Snapshots

  // ----- One node -----

  /** The node's informer has caught up with the API. */
  ghost predicate CaughtUp(m: Snapshots.Machine, claims: map<string, Claim>) {
    && (forall n :: n in m.store <==> n in claims)
    && forall n | n in claims :: m.store[n].claim == claims[n]
  }

  /** A node's controller that has nothing left to do. */
  ghost predicate AtRest(m: Snapshots.Machine, claims: map<string, Claim>) {
    CaughtUp(m, claims) && Snapshots.Right(m) && Snapshots.Pending(m) == []
  }

  lemma CidrFromParts(cidr: string)
    requires |Split(cidr, '/')| == 2
    ensures cidr == CidrOf(AddressOf(cidr), MaskOf(cidr))
  {
    JoinOfSplit(cidr, '/');
    assert Split(cidr, '/') == [AddressOf(cidr), MaskOf(cidr)];
  }

  /** Claims with one CIDR have one name. */
  lemma CidrGivesName(c: Claim, d: Claim, mask: string, offer: Offers)
    requires GoodClaim(c, mask, offer) && GoodClaim(d, mask, offer) && c.cidr == d.cidr
    ensures c.name == d.name
  {
  }

  /** A node at rest holds the address of a claim exactly if the claim names the node. */
  lemma ClaimedAddress(m: Snapshots.Machine, t: World, offer: Offers, n: string)
    requires Sound(t, offer) && AtRest(m, t.claims) && n in t.claims
    ensures t.claims[n].cidr in m.addrs <==> t.claims[n].node == m.uid
  {
    Snapshots.DrainedInterfaceIsRight(m, t.claims[n].cidr);
    forall k | k in m.store && m.store[k].claim.cidr == t.claims[n].cidr ensures k == n {
      CidrGivesName(t.claims[k], t.claims[n], t.mask, offer);
    }
    assert m.store[n].claim == t.claims[n];
  }

  /** It holds no address without a claim. */
  lemma UnclaimedAddress(m: Snapshots.Machine, t: World, offer: Offers, ip: string, mask: string)
    requires Sound(t, offer) && AtRest(m, t.claims) && Plain(ip) && Plain(mask) && ClaimName(ip, mask) !in t.claims
    ensures CidrOf(ip, mask) !in m.addrs
  {
    Snapshots.DrainedInterfaceIsRight(m, CidrOf(ip, mask));
    forall k | k in m.store ensures m.store[k].claim.cidr != CidrOf(ip, mask) {
      assert GoodClaim(t.claims[k], t.mask, offer);
      CidrRoundTrip(ip, mask);
    }
  }

  /** A stored claim has the CIDR that its name is made from. */
  lemma CidrOfName(t: World, offer: Offers, ip: string, mask: string)
    requires Sound(t, offer) && Plain(ip) && Plain(mask) && ClaimName(ip, mask) in t.claims
    ensures t.claims[ClaimName(ip, mask)].cidr == CidrOf(ip, mask)
  {
    var c := t.claims[ClaimName(ip, mask)];
    assert GoodClaim(c, t.mask, offer);
    CidrFromParts(c.cidr);
    ClaimNameIsInjective(AddressOf(c.cidr), MaskOf(c.cidr), ip, mask);
  }

  // ----- The scheduler drains -----

  /** A calm run from the start on which a tick at point j, with nothing pending, is followed
      by steps of workers and informer only, until both queues are drained. */
  ghost predicate Settles(ws: seq<World>, steps: seq<Step>, offer: Offers, j: nat, order: seq<string>) {
    && IsRun(ws, steps, offer) && CalmRun(ws, steps) && Untouched(ws[0]) && ws[0].cache == map[] && KeysInOrder(ws[0])
    && ProperListings(ws) && FullListings(ws, steps)
    && j < |steps| && Pending(ws[j]) == [] && AfterTick(ws[j], order, ws[j + 1], offer)
    && (forall i :: j < i < |steps| ==> Working(steps[i]) || Delivering(steps[i]))
    && NoKeysLeft(ws[|steps|]) && Pending(ws[|steps|]) == []
  }

  lemma MovesOfRun(ws: seq<World>, steps: seq<Step>, offer: Offers, j: nat, order: seq<string>, i: nat)
    requires Settles(ws, steps, offer, j, order) && j < i < |steps|
    ensures Moves(ws[i], steps[i], ws[i + 1])
  {
    StepOfRun(ws, steps, offer, i + 1);
  }

  lemma TailMoves(ws: seq<World>, steps: seq<Step>, j: nat, us: seq<World>, ss: seq<Step>, i: nat)
    requires |ws| == |steps| + 1 && j < |steps| && us == ws[j + 1..] && ss == steps[j + 1..] && i < |ss|
    requires Moves(ws[j + 1 + i], steps[j + 1 + i], ws[j + 2 + i])
    ensures MovesAt(us, ss, i)
  {
    assert us[i] == ws[j + 1 + i] && us[i + 1] == ws[j + 2 + i] && ss[i] == steps[j + 1 + i];
  }

  lemma TailIsInformed(ws: seq<World>, steps: seq<Step>, offer: Offers, j: nat, order: seq<string>)
    returns (us: seq<World>, ss: seq<Step>)
    requires Settles(ws, steps, offer, j, order)
    ensures InformedRun(us, ss) && us[0] == ws[j + 1] && us[|ss|] == ws[|steps|]
  {
    us, ss := ws[j + 1..], steps[j + 1..];
    forall i | 0 <= i < |ss| ensures MovesAt(us, ss, i) {
      MovesOfRun(ws, steps, offer, j, order, j + 1 + i);
      TailMoves(ws, steps, j, us, ss, i);
    }
  }

  lemma {:induction false} FollowsAt(ws: seq<World>, offer: Offers, k: nat, i: nat)
    requires i <= k < |ws| && FollowsTo(ws, offer, k)
    ensures Follows(ws[i], offer)
  {
    if i < k {
      FollowsAt(ws, offer, k - 1, i);
    }
  }

  /** At the end the claims are those of the listed addresses, and their owners are recorded. */
  lemma SettledClaims(ws: seq<World>, steps: seq<Step>, offer: Offers, j: nat, order: seq<string>, x: string)
    requires Settles(ws, steps, offer, j, order) && Plain(x) && Outside(offer, x)
    ensures var w, t := ws[j], ws[|steps|];
            && Sound(t, offer)
            && (NameOf(w, x) in w.claims <==> x in Listed(w.services))
            && (NameOf(t, x) in t.claims <==> x in Listed(t.services))
            && (x in Listed(t.services) ==> Alive(t, t.claims[NameOf(t, x)]))
  {
    var t, k := ws[|steps|], |steps|;
    EveryRunIsSound(ws, steps, offer, k);
    CalmRunsFollow(ws, steps, offer, k);
    FollowsAt(ws, offer, k, j);
    NothingPendingClaims(ws[j], offer, x);
    NothingPendingClaims(t, offer, x);
    if x in Listed(t.services) {
      var key :| key in t.services && x in t.services[key].ips;
      UntouchedAgrees(ws[0], offer, x);
      OwnersIncludeEveryLister(ws, steps, offer, x, k, key);
      assert OwnerAlive(t, key);
    }
  }

  lemma NothingPendingClaims(w: World, offer: Offers, x: string)
    requires Follows(w, offer) && Pending(w) == [] && Plain(x) && Outside(offer, x)
    ensures NameOf(w, x) in w.claims <==> x in Listed(w.services)
  {
    assert Will(w, NameOf(w, x)) == (NameOf(w, x) in w.claims);
  }

  /** After the tick the claim is on a live node, or its key is due. */
  lemma TickedClaim(w: World, order: seq<string>, t: World, offer: Offers, name: string)
    requires AfterTick(w, order, t, offer) && Pending(w) == [] && Attended(w, name) && name in w.claims
    ensures OnLive(t, w.claims[name]) || Due(t, name)
  {
    TickAttends(w, offer, order, name);
    TickedTouchesOnlyKeys(w, order, w.nodes);
    assert Pending(t) == [];
  }

  /** The tail brings the claim to a live node. */
  lemma SettledNode(ws: seq<World>, steps: seq<Step>, offer: Offers, j: nat, order: seq<string>, name: string)
    requires Settles(ws, steps, offer, j, order) && name in ws[j].claims && Delivered(ws, steps, name, j)
    ensures var t := ws[|steps|]; name in t.claims && Alive(t, t.claims[name]) ==> OnLive(t, t.claims[name])
  {
    var us, ss := TailIsInformed(ws, steps, offer, j, order);
    EveryClaimIsAttended(ws, steps, offer, name, j);
    TickedClaim(ws[j], order, ws[j + 1], offer, name);
    FailoverSurvivesTheInformer(ws[j], order, us, ss, offer, name);
  }

  /** It leaves services and mask alone. */
  lemma SettledScene(ws: seq<World>, steps: seq<Step>, offer: Offers, j: nat, order: seq<string>)
    requires Settles(ws, steps, offer, j, order)
    ensures ws[|steps|].services == ws[j].services && ws[|steps|].mask == ws[j].mask
  {
    var us, ss := TailIsInformed(ws, steps, offer, j, order);
    TickIsSteady(ws[j], order, ws[j + 1], offer);
    TickedTouchesOnlyKeys(ws[j], order, ws[j].nodes);
    RunKeepsScene(us, ss, offer, |ss|);
  }

  /** The address of a service, outside all pools, once everything is drained: it is on exactly
      the interface of the node its claim names, and that node is live; an address that no
      service lists is on no interface. */
  lemma AddressIsServed(ws: seq<World>, steps: seq<Step>, offer: Offers, j: nat, order: seq<string>, x: string,
                        m: Snapshots.Machine)
    requires Settles(ws, steps, offer, j, order) && Plain(x) && Outside(offer, x)
    requires Delivered(ws, steps, NameOf(ws[j], x), j) && AtRest(m, ws[|steps|].claims)
    ensures var t, n := ws[|steps|], NameOf(ws[|steps|], x);
            if x in Listed(t.services) then
              && n in t.claims && t.claims[n].node in t.live
              && (CidrOf(x, t.mask) in m.addrs <==> m.uid == t.claims[n].node)
            else CidrOf(x, t.mask) !in m.addrs
  {
    var t, n := ws[|steps|], NameOf(ws[|steps|], x);
    SettledClaims(ws, steps, offer, j, order, x);
    SettledScene(ws, steps, offer, j, order);
    if x in Listed(t.services) {
      SettledNode(ws, steps, offer, j, order, n);
      CidrOfName(t, offer, x, t.mask);
      ClaimedAddress(m, t, offer, n);
    } else {
      UnclaimedAddress(m, t, offer, x, t.mask);
    }
  }

  /** The address of a pool, when nothing is pending: if it is allocated, some service lists it
      and it is on exactly the interface of the node its claim names; else it is on none. */
  lemma PoolAddressIsServed(t: World, offer: Offers, i: nat, ip: string, m: Snapshots.Machine)
    requires Sound(t, offer) && PoolsFollow(t, offer) && NoLeak(t) && Pending(t) == [] && AtRest(m, t.claims)
    requires i < |offer| && ip in offer[i] && HasMask(t.pools[i].spec)
    ensures var n, cidr := PoolName(t.pools, i, ip), CidrOf(ip, PoolMask(t.pools[i]));
            if IsAllocated(t.pools, i, ip) then
              n in t.claims && ip in Listed(t.services) && (cidr in m.addrs <==> m.uid == t.claims[n].node)
            else cidr !in m.addrs
  {
    assert PoolIs(t.pools[i], offer[i]);
    DrainedPoolClaims(t, offer, i, ip);
    if IsAllocated(t.pools, i, ip) {
      CidrOfName(t, offer, ip, PoolMask(t.pools[i]));
      ClaimedAddress(m, t, offer, PoolName(t.pools, i, ip));
    } else {
      UnclaimedAddress(m, t, offer, ip, PoolMask(t.pools[i]));
    }
  }
}
