/** The claim set refines the service set, on every run. */
module ClaimSet {
  import opened Strings
  import opened Naming
  import opened WorkQueue
  import opened QueueRuns
  import opened Cluster
  import opened ClaimNames
  import opened Soundness

  /** For every address outside the pools: its claim is left once the pending requests are
      carried out exactly when some stored service lists it. */
  ghost predicate Follows(w: World, offer: Offers) {
    forall x | Plain(x) && Outside(offer, x) :: Will(w, NameOf(w, x)) <==> x in Listed(w.services)
  }

  /** Every stored service that lists the claim's address is among its recorded owners. */
  ghost predicate OwnersRecorded(w: World, c: Claim) {
    forall k | k in w.services && AddressOf(c.cidr) in w.services[k].ips :: k in c.owners
  }

  /** The address whose claim a step collects: all its recorded owners are gone. */
  function Collected(w: World, step: Step): Option<string> {
    if step.ProcessKey? && w.stage.KeyTaken? && w.stage.key in w.cache
       && OwnersAlive(w, w.cache[w.stage.key].owners) == []
    then Some(AddressOf(w.cache[w.stage.key].cidr)) else None
  }

  /** The step collects no claim of an address outside the pools that a service lists. */
  predicate SparesClaims(w: World, offer: Offers, step: Step) {
    Collected(w, step).Some? && Outside(offer, Collected(w, step).value) ==>
      Collected(w, step).value !in Listed(w.services)
  }

  /** With its owners recorded, a collected claim is of an address nobody lists. */
  lemma CollectedIsUnlisted(w: World, c: Claim)
    requires OwnersRecorded(w, c) && OwnersAlive(w, c.owners) == []
    ensures AddressOf(c.cidr) !in Listed(w.services)
  {
    assert forall k | k in w.services && AddressOf(c.cidr) in w.services[k].ips :: k in OwnersAlive(w, c.owners);
  }

  predicate ListedBy(services: map<string, Service>, key: string, x: string) {
    key in services && x in services[key].ips
  }

  predicate ListedByOthers(services: map<string, Service>, key: string, x: string) {
    exists k :: k in services && k != key && x in services[k].ips
  }

  lemma ListedSplits(services: map<string, Service>, key: string, x: string)
    ensures x in Listed(services) <==> ListedBy(services, key, x) || ListedByOthers(services, key, x)
  {
  }

  lemma SameOthers(services: map<string, Service>, services': map<string, Service>, key: string, x: string)
    requires services - {key} == services' - {key}
    ensures ListedByOthers(services, key, x) <==> ListedByOthers(services', key, x)
  {
    assert forall k | k != key :: k in services <==> k in services - {key};
    assert forall k | k != key :: k in services' <==> k in services' - {key};
    assert forall k | k != key && k in services :: services[k] == (services - {key})[k];
    assert forall k | k != key && k in services' :: services'[k] == (services' - {key})[k];
  }

  /** What processing a service does: outside the pools, a claim for each listed address. */
  lemma ExternalIPsWill(t: World, offer: Offers, key: string, x: string)
    requires Sound(t, offer) && key in t.services && Plain(x) && Outside(offer, x)
    ensures var u := ExternalIPsProcessed(t, key);
            && Will(u, NameOf(u, x)) == (Will(t, NameOf(t, x)) || x in t.services[key].ips)
            && u.mask == t.mask && u.services - {key} == t.services - {key}
            && (ListedBy(u.services, key, x) <==> ListedBy(t.services, key, x))
  {
    var svc := t.services[key];
    var rs := ClaimRequests(t.pools, t.mask, key, svc.ips);
    var sent := SendAll(t, rs);
    OutsideHasNoPool(t.pools, offer, x);
    CreatingWill(t, t.pools, key, svc.ips, x);
    SendAllChangesOnlyTheQueue(t, rs);
    var grant := GrantFor(t.pools, svc);
    if grant.Some? {
      GrantIsOffered(t.pools, offer, svc);
      GrantKeepsOutsiders(sent, offer, key, grant.value.0, grant.value.1, x);
      assert ExternalIPsProcessed(t, key) == Allocate(sent, key, grant.value.0, grant.value.1);
    } else {
      assert ExternalIPsProcessed(t, key) == sent;
    }
  }

  lemma GrantKeepsOutsiders(t: World, offer: Offers, key: string, i: nat, ip: string, x: string)
    requires GoodQueue(t) && PoolsAre(t.pools, offer) && key in t.services && i < |t.pools|
    requires HasMask(t.pools[i].spec) && ip in offer[i] && Plain(t.mask) && Plain(x) && Outside(offer, x)
    ensures var u := Allocate(t, key, i, ip);
            && u.mask == t.mask && Will(u, NameOf(u, x)) == Will(t, NameOf(t, x))
            && u.services - {key} == t.services - {key}
            && (ListedBy(u.services, key, x) <==> ListedBy(t.services, key, x))
  {
    AllocatingWill(t, offer, key, i, ip, x);
    InOfferIsInside(offer, i, ip);
    OneMoreListed(t.services, key, ip, x);
  }

  lemma OneMoreListed(services: map<string, Service>, key: string, ip: string, x: string)
    requires key in services && x != ip
    ensures var after := services[key := services[key].(ips := services[key].ips + [ip])];
            after - {key} == services - {key} && (ListedBy(after, key, x) <==> ListedBy(services, key, x))
  {
  }

  /** The addresses listed before and after an event of service `key`. */
  lemma ListedAround(before: map<string, Service>, after: map<string, Service>, key: string, x: string)
    requires before - {key} == after - {key}
    ensures x in Listed(before) <==> ListedBy(before, key, x) || ListedByOthers(after, key, x)
    ensures x in Listed(after) <==> ListedBy(after, key, x) || ListedByOthers(after, key, x)
  {
    SameOthers(before, after, key, x);
    ListedSplits(before, key, x);
    ListedSplits(after, key, x);
  }

  /** The first half of an event: the store, and the claims of the listed addresses. */
  lemma NewServiceWill(w: World, offer: Offers, key: string, cur: Option<Service>, x: string) returns (u: World)
    requires Sound(w, offer) && Enabled(w, ServiceEvent(key, cur)) && Plain(x) && Outside(offer, x)
    ensures u == if cur.Some? then ExternalIPsProcessed(Stored(w, key, cur), key) else Stored(w, key, cur)
    ensures Sound(u, offer) && u.mask == w.mask && u.services - {key} == w.services - {key}
    ensures ListedBy(u.services, key, x) <==> cur.Some? && x in cur.value.ips
    ensures Will(u, NameOf(u, x)) == (Will(w, NameOf(w, x)) || (cur.Some? && x in cur.value.ips))
  {
    var t := Stored(w, key, cur);
    StoredIsSound(w, offer, key, cur);
    assert Pending(t) == Pending(w);
    assert t.services - {key} == w.services - {key};
    u := t;
    if cur.Some? {
      ExternalIPsProcessedIsSound(t, offer, key);
      ExternalIPsWill(t, offer, key, x);
      u := ExternalIPsProcessed(t, key);
    }
  }

  lemma ServiceEventFollows(w: World, offer: Offers, key: string, cur: Option<Service>, x: string)
    requires Sound(w, offer) && Enabled(w, ServiceEvent(key, cur)) && Plain(x) && Outside(offer, x)
    requires Will(w, NameOf(w, x)) <==> x in Listed(w.services)
    ensures var w' := ServiceHandled(w, key, cur);
            Will(w', NameOf(w', x)) <==> x in Listed(w'.services)
  {
    var u := NewServiceWill(w, offer, key, cur, x);
    ListedAround(w.services, u.services, key, x);
    OldIPsArePlain(w, key);
    DroppingWill(u, offer, OldIPs(w, key), Listed(u.services), x);
  }

  lemma {:induction false} UpdatesKeepWill(w: World, rs: seq<Request>, name: string)
    requires GoodQueue(w) && forall r | r in rs :: r.change.Update?
    ensures Will(SendAll(w, rs), name) == Will(w, name)
    decreases |rs|
  {
    if rs != [] {
      SendAppends(w, rs[0]);
      SendWill(w, rs[0], name);
      UpdatesKeepWill(Send(w, rs[0]), rs[1..], name);
    }
  }

  lemma CollectingWill(w: World, offer: Offers, key: string, x: string)
    requires Sound(w, offer) && key in w.cache && OwnersAlive(w, w.cache[key].owners) == []
    requires Plain(x) && Outside(offer, x)
    ensures var t := ClaimProcessed(w, key).0;
            && t.services == w.services
            && Will(t, NameOf(t, x)) == (Will(w, NameOf(w, x)) && x != AddressOf(w.cache[key].cidr))
  {
    assert GoodClaim(w.cache[key], w.mask, offer);
    ReleasingWill(w, offer, AddressOf(w.cache[key].cidr), x);
  }

  lemma KeepingWill(w: World, offer: Offers, key: string, x: string)
    requires Sound(w, offer) && key in w.cache && OwnersAlive(w, w.cache[key].owners) != []
    ensures var t := ClaimProcessed(w, key).0;
            t.services == w.services && Will(t, NameOf(t, x)) == Will(w, NameOf(w, x))
  {
    var (e, rs) := ClaimOutcome(w, key);
    var t := w.(cache := w.cache[key := e]);
    assert Pending(t) == Pending(w);
    UpdatesKeepWill(t, rs, NameOf(w, x));
    SendAllChangesOnlyTheQueue(t, rs);
  }

  lemma SameWill(w: World, t: World, offer: Offers)
    requires t.changes.queue == w.changes.queue && t.busy == w.busy && t.claims == w.claims
    requires t.services == w.services && t.mask == w.mask
    ensures Follows(t, offer) <==> Follows(w, offer)
  {
    assert Pending(t) == Pending(w);
    forall x ensures Will(t, NameOf(t, x)) == Will(w, NameOf(w, x)) {
    }
  }

  /** What becomes of claims and services when the claim of `y` is deleted. */
  lemma LosingOneClaim(w: World, t: World, offer: Offers, y: string)
    requires Follows(w, offer) && t.services == w.services && Plain(y)
    requires forall x | Plain(x) && Outside(offer, x) ::
               Will(t, NameOf(t, x)) == (Will(w, NameOf(w, x)) && x != y)
    ensures Follows(t, offer) <==> (Outside(offer, y) ==> y !in Listed(w.services))
  {
    if Outside(offer, y) && y in Listed(w.services) {
      assert !Will(t, NameOf(t, y));
    }
  }

  lemma CollectingFollowsIff(w: World, offer: Offers, key: string)
    requires Sound(w, offer) && Follows(w, offer) && key in w.cache && OwnersAlive(w, w.cache[key].owners) == []
    ensures var y := AddressOf(w.cache[key].cidr);
            Follows(ClaimProcessed(w, key).0, offer) <==> (Outside(offer, y) ==> y !in Listed(w.services))
  {
    var y, t := AddressOf(w.cache[key].cidr), ClaimProcessed(w, key).0;
    assert GoodClaim(w.cache[key], w.mask, offer);
    forall x | Plain(x) && Outside(offer, x) ensures Will(t, NameOf(t, x)) == (Will(w, NameOf(w, x)) && x != y) {
      CollectingWill(w, offer, key, x);
    }
    assert t.services == w.services;
    LosingOneClaim(w, t, offer, y);
  }

  lemma KeepingFollows(w: World, offer: Offers, key: string)
    requires Sound(w, offer) && Follows(w, offer) && key in w.cache && OwnersAlive(w, w.cache[key].owners) != []
    ensures Follows(ClaimProcessed(w, key).0, offer)
  {
    var t := ClaimProcessed(w, key).0;
    forall x | Plain(x) && Outside(offer, x) ensures Will(t, NameOf(t, x)) <==> x in Listed(t.services) {
      KeepingWill(w, offer, key, x);
    }
  }

  /** Taking note of the outcome changes neither claims nor services. */
  lemma OutcomeNoted(u: World, offer: Offers, err: bool, key: string)
    ensures var t := u.(keys := if err then Added(u.keys, key) else u.keys, stage := KeyHandled(key));
            Follows(t, offer) <==> Follows(u, offer)
  {
    var t := u.(keys := if err then Added(u.keys, key) else u.keys, stage := KeyHandled(key));
    SameWill(u, t, offer);
  }

  lemma ClaimProcessedFollowsIff(w: World, offer: Offers, key: string)
    requires Sound(w, offer) && Follows(w, offer) && w.stage == KeyTaken(key) && key in w.cache
    ensures Follows(ClaimProcessed(w, key).0, offer) <==> SparesClaims(w, offer, ProcessKey)
  {
    if OwnersAlive(w, w.cache[key].owners) == [] {
      CollectingFollowsIff(w, offer, key);
      assert Collected(w, ProcessKey) == Some(AddressOf(w.cache[key].cidr));
    } else {
      KeepingFollows(w, offer, key);
      assert Collected(w, ProcessKey) == None;
    }
  }

  /** Processing a key keeps claims and services in step exactly when it collects no claim
      of a listed address. */
  lemma KeyProcessedFollowsIff(w: World, offer: Offers)
    requires Sound(w, offer) && Follows(w, offer) && w.stage.KeyTaken?
    ensures Follows(KeyProcessed(w), offer) <==> SparesClaims(w, offer, ProcessKey)
  {
    var key := w.stage.key;
    var (u, err) := if key in w.cache then ClaimProcessed(w, key) else (w, false);
    OutcomeNoted(u, offer, err, key);
    if key in w.cache {
      ClaimProcessedFollowsIff(w, offer, key);
    }
  }

  lemma SameWillFollows(w: World, offer: Offers, t: World)
    requires Follows(w, offer) && t.mask == w.mask && t.services == w.services
    requires forall name :: Will(t, name) == Will(w, name)
    ensures Follows(t, offer)
  {
  }

  lemma TakenFollows(w: World, offer: Offers)
    requires Sound(w, offer) && Follows(w, offer) && Enabled(w, TakeChange)
    ensures Follows(ChangeTaken(w), offer)
  {
    TakenFromExclusive(w.changes);
    TakingKeepsPending(w);
    SameWillFollows(w, offer, ChangeTaken(w));
  }

  lemma HandledFollows(w: World, offer: Offers)
    requires Sound(w, offer) && Follows(w, offer) && Serviceable(w)
    ensures Follows(ChangeHandled(w), offer)
  {
    HandlingPops(w);
    forall name ensures Will(ChangeHandled(w), name) == Will(w, name) {
      HandlingKeepsWill(w, name);
    }
    SameWillFollows(w, offer, ChangeHandled(w));
  }

  /** A step keeps claims and services in step exactly when it collects no claim of a listed
      address. */
  lemma StepFollowsIff(w: World, offer: Offers, step: Step)
    requires Sound(w, offer) && Follows(w, offer) && Enabled(w, step)
    requires step.HandleChange? ==> Serviceable(w)
    ensures Follows(Do(w, step), offer) <==> SparesClaims(w, offer, step)
  {
    if step.ServiceEvent? {
      var t := Do(w, step);
      forall x | Plain(x) && Outside(offer, x) ensures Will(t, NameOf(t, x)) <==> x in Listed(t.services) {
        ServiceEventFollows(w, offer, step.key, step.cur, x);
      }
    } else if step.TakeChange? {
      TakenFollows(w, offer);
    } else if step.HandleChange? {
      HandledFollows(w, offer);
    } else if step.ProcessKey? {
      KeyProcessedFollowsIff(w, offer);
    } else {
      QuietStepTouches(w, step);
      SameWill(w, Do(w, step), offer);
    }
  }

  /** Claims and services agree at each of the first k + 1 points. */
  ghost predicate FollowsTo(ws: seq<World>, offer: Offers, k: nat)
    requires k < |ws|
  {
    (k == 0 || FollowsTo(ws, offer, k - 1)) && Follows(ws[k], offer)
  }

  /** None of the first k steps collects the claim of a listed address. */
  ghost predicate SparesTo(ws: seq<World>, steps: seq<Step>, offer: Offers, k: nat)
    requires |ws| == |steps| + 1 && k <= |steps|
  {
    k == 0 || (SparesTo(ws, steps, offer, k - 1) && SparesClaims(ws[k - 1], offer, steps[k - 1]))
  }

  lemma FollowsAfter(w: World, offer: Offers, step: Step, t: World)
    requires Sound(w, offer) && Goes(w, step, t) && Follows(w, offer)
    ensures Follows(t, offer) <==> SparesClaims(w, offer, step)
  {
    StepFollowsIff(w, offer, step);
  }

  /** From point k - 1 to point k. */
  lemma NextFollowsIff(ws: seq<World>, steps: seq<Step>, offer: Offers, k: nat)
    requires IsRun(ws, steps, offer) && 0 < k <= |steps| && Follows(ws[k - 1], offer)
    ensures Follows(ws[k], offer) <==> SparesClaims(ws[k - 1], offer, steps[k - 1])
  {
    StepOfRun(ws, steps, offer, k);
    FollowsAfter(ws[k - 1], offer, steps[k - 1], ws[k]);
  }

  /** From a state in which claims and services agree, they agree at every point of a run,
      however service events and the workers interleave, exactly when the run collects no
      claim of a listed address. */
  lemma {:induction false} ClaimsFollowServices(ws: seq<World>, steps: seq<Step>, offer: Offers, k: nat)
    requires IsRun(ws, steps, offer) && Follows(ws[0], offer) && k <= |steps|
    ensures FollowsTo(ws, offer, k) <==> SparesTo(ws, steps, offer, k)
  {
    if k > 0 {
      ClaimsFollowServices(ws, steps, offer, k - 1);
      if FollowsTo(ws, offer, k - 1) {
        NextFollowsIff(ws, steps, offer, k);
      }
    }
  }

  /** So when nothing is pending, a claim exists exactly for the listed addresses. */
  lemma DrainedClaimsAreTheListedAddresses(w: World, offer: Offers, x: string)
    requires Follows(w, offer) && w.busy.None? && w.changes.queue == [] && Plain(x) && Outside(offer, x)
    ensures NameOf(w, x) in w.claims <==> x in Listed(w.services)
  {
    assert Pending(w) == [];
    assert Will(w, NameOf(w, x)) == (NameOf(w, x) in w.claims);
  }
}
