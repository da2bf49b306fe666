/** What one service event does as a whole: the service is stored and granted an address, and
    then the old addresses that nobody lists any more are released (pkg/scheduler/scheduler.go:145-160). */
module Events {
  import opened Strings
  import opened Cluster
  import opened ClaimNames
  import opened Soundness
  import opened Ownership
  import opened Allocation
  import opened ClaimProcessing

  // ----- Services -----

  lemma {:induction false} DroppingKeepsServices(w: World, ips: seq<string>, refs: set<string>)
    requires ValidPools(w.pools)
    ensures Dropped(w, ips, refs).services == w.services
    decreases |ips|
  {
    if ips != [] {
      DroppingKeepsServices(if ips[0] in refs then w else Released(w, ips[0]), ips[1..], refs);
    }
  }

  /** The service with the address it is granted from these pools. */
  ghost predicate WithGrant(pools: seq<Pool>, cur: Service, svc: Service)
    requires ValidPools(pools)
  {
    exists i: nat, ip | IsFirstFree(pools, i, ip) :: svc == cur.(ips := cur.ips + [ip])
  }

  lemma ProcessedService(s: World, key: string)
    requires ValidPools(s.pools) && key in s.services
    ensures var u, cur := ExternalIPsProcessed(s, key), s.services[key];
            var granted := Granted(s.pools, cur);
            && key in u.services && u.services - {key} == s.services - {key}
            && (if granted then WithGrant(s.pools, cur, u.services[key]) else u.services[key] == cur)
  {
    var u, cur := ExternalIPsProcessed(s, key), s.services[key];
    ProcessingGrantsIff(s, key);
    if Granted(s.pools, cur) {
      var i: nat, ip :| RecordsFirst(s, key, i, ip, u);
      RecordedIsListed(s, key, i, ip, u);
    }
  }

  lemma RecordedIsListed(s: World, key: string, i: nat, ip: string, u: World)
    requires ValidPools(s.pools) && key in s.services && RecordsFirst(s, key, i, ip, u)
    ensures key in u.services && u.services - {key} == s.services - {key}
    ensures WithGrant(s.pools, s.services[key], u.services[key])
  {
    var cur := s.services[key];
    assert u.services[key] == cur.(ips := cur.ips + [ip]);
  }

  /** The service as it is stored after its event: the new object, with the address it is
      granted.  That is granted before the old addresses are released, so it is none of them
      that was allocated. */
  lemma EventGrants(w: World, key: string, cur: Service)
    requires ValidPools(w.pools)
    ensures var t := ServiceHandled(w, key, Some(cur));
            var granted := Granted(w.pools, cur);
            && key in t.services && t.services - {key} == w.services - {key}
            && (if granted then WithGrant(w.pools, cur, t.services[key]) else t.services[key] == cur)
  {
    var s := Stored(w, key, Some(cur));
    ProcessedService(s, key);
    HandlingStoresProcessed(w, key, cur);
    assert s.services - {key} == w.services - {key};
  }

  lemma HandlingStoresProcessed(w: World, key: string, cur: Service)
    requires ValidPools(w.pools)
    ensures ServiceHandled(w, key, Some(cur)).services == ExternalIPsProcessed(Stored(w, key, Some(cur)), key).services
  {
    var u := ExternalIPsProcessed(Stored(w, key, Some(cur)), key);
    StaysValid(Stored(w, key, Some(cur)), key, Some(cur));
    DroppingKeepsServices(u, OldIPs(w, key), Listed(u.services));
  }

  /** An event that deletes the service changes no other. */
  lemma DeletionGrantsNothing(w: World, key: string)
    requires ValidPools(w.pools)
    ensures ServiceHandled(w, key, None).services == w.services - {key}
  {
    var s := Stored(w, key, None);
    DroppingKeepsServices(s, OldIPs(w, key), Listed(s.services));
  }

  // ----- Requests -----

  lemma ProcessingAsks(t: World, offer: Offers, key: string) returns (cs: seq<Request>)
    requires Sound(t, offer) && key in t.services
    ensures var u := ExternalIPsProcessed(t, key);
            && Sound(u, offer) && Pending(u) == Pending(t) + cs && (forall r | r in cs :: r.change.Create?)
            && u.mask == t.mask && u.claims == t.claims && u.cache == t.cache && u.strict == t.strict
  {
    cs := ClaimRequests(t.pools, t.mask, key, t.services[key].ips) + GrantRequests(t, key);
    ClaimRequestsAreGood(t, offer, key, t.services[key].ips);
    ExternalIPsPending(t, key);
    ExternalIPsProcessedIsSound(t, offer, key);
    SendAllChangesOnlyTheQueue(t, ClaimRequests(t.pools, t.mask, key, t.services[key].ips));
    ConcatIsAssociative(Pending(t), ClaimRequests(t.pools, t.mask, key, t.services[key].ips), GrantRequests(t, key));
  }

  /** The first half of a service event adds requests. */
  lemma FirstHalfAsks(w: World, offer: Offers, key: string, cur: Option<Service>)
    returns (u: World, cs: seq<Request>)
    requires Sound(w, offer) && Enabled(w, ServiceEvent(key, cur))
    ensures Sound(u, offer) && ServiceHandled(w, key, cur) == Dropped(u, OldIPs(w, key), Listed(u.services))
    ensures Pending(u) == Pending(w) + cs && forall r | r in cs :: r.change.Create?
    ensures u.mask == w.mask && u.claims == w.claims && u.cache == w.cache && u.strict == w.strict
    ensures cur.None? ==> u.pools == w.pools && cs == []
  {
    var t := Stored(w, key, cur);
    StoredIsSound(w, offer, key, cur);
    StoringTouches(w, key, cur);
    u, cs := t, [];
    if cur.Some? {
      cs := ProcessingAsks(t, offer, key);
      u := ExternalIPsProcessed(t, key);
    }
    HandledInHalves(w, key, cur, u);
  }

  lemma EventAsks(w: World, offer: Offers, key: string, cur: Option<Service>) returns (rs: seq<Request>)
    requires Sound(w, offer) && Enabled(w, ServiceEvent(key, cur))
    ensures var t := ServiceHandled(w, key, cur);
            && Pending(t) == Pending(w) + rs
            && t.claims == w.claims && t.cache == w.cache && t.strict == w.strict
  {
    var u, cs := FirstHalfAsks(w, offer, key, cur);
    DroppedSends(u, OldIPs(w, key), Listed(u.services));
    rs := cs + Deletions(u.pools, u.mask, OldIPs(w, key), Listed(u.services));
    ConcatIsAssociative(Pending(w), cs, Deletions(u.pools, u.mask, OldIPs(w, key), Listed(u.services)));
  }

  // ----- Releases -----

  /** The addresses that are not among `refs`, in order. */
  function Unlisted(ips: seq<string>, refs: set<string>): seq<string> {
    if ips == [] then [] else (if ips[0] in refs then [] else [ips[0]]) + Unlisted(ips[1..], refs)
  }

  /** One release after the other, each on the pools that the one before leaves. */
  ghost predicate ReleasesEach(pss: seq<seq<Pool>>, mask: string, ips: seq<string>, ds: seq<Request>) {
    && |ds| == |ips| && |pss| == |ips| + 1
    && forall i :: 0 <= i < |ips| ==> Frees(pss[i], mask, ips[i], ds[i], pss[i + 1])
  }

  lemma OneMoreRelease(pools: seq<Pool>, mask: string, ip: string, d: Request, pss: seq<seq<Pool>>,
                       ips: seq<string>, ds: seq<Request>)
    requires ReleasesEach(pss, mask, ips, ds) && Frees(pools, mask, ip, d, pss[0])
    ensures ReleasesEach([pools] + pss, mask, [ip] + ips, [d] + ds)
  {
  }

  lemma {:induction false} DroppedReleases(w: World, ips: seq<string>, refs: set<string>)
    returns (pss: seq<seq<Pool>>)
    requires ValidPools(w.pools)
    ensures ReleasesEach(pss, w.mask, Unlisted(ips, refs), Deletions(w.pools, w.mask, ips, refs))
    ensures pss[0] == w.pools && pss[|pss| - 1] == Dropped(w, ips, refs).pools
    decreases |ips|
  {
    if ips == [] {
      pss := [w.pools];
    } else if ips[0] in refs {
      pss := DroppedReleases(w, ips[1..], refs);
      assert [] + Unlisted(ips[1..], refs) == Unlisted(ips[1..], refs);
    } else {
      var t := Released(w, ips[0]);
      pss := DroppedReleases(t, ips[1..], refs);
      ReleaseFrees(w.pools, w.mask, ips[0]);
      OneMoreRelease(w.pools, w.mask, ips[0], ReleaseRequest(w.pools, w.mask, ips[0]), pss,
                     Unlisted(ips[1..], refs), Deletions(t.pools, t.mask, ips[1..], refs));
      pss := [w.pools] + pss;
    }
  }

  /** After its creations an event asks for deletions: one for each address of the old object
      that no stored service lists any more, in order, each of which is released. */
  lemma EventReleases(w: World, offer: Offers, key: string, cur: Option<Service>)
    returns (cs: seq<Request>, ds: seq<Request>, pss: seq<seq<Pool>>)
    requires Sound(w, offer) && Enabled(w, ServiceEvent(key, cur))
    ensures var t, was := ServiceHandled(w, key, cur), if key in w.services then w.services[key].ips else [];
            && Pending(t) == Pending(w) + cs + ds && (forall r | r in cs :: r.change.Create?)
            && ReleasesEach(pss, w.mask, Unlisted(was, Listed(t.services)), ds)
            && pss[|pss| - 1] == t.pools && (cur.None? ==> pss[0] == w.pools && cs == [])
  {
    var u: World;
    u, cs := FirstHalfAsks(w, offer, key, cur);
    DroppedSends(u, OldIPs(w, key), Listed(u.services));
    ds := Deletions(u.pools, u.mask, OldIPs(w, key), Listed(u.services));
    pss := DroppedReleases(u, OldIPs(w, key), Listed(u.services));
    DroppingKeepsServices(u, OldIPs(w, key), Listed(u.services));
  }
}
