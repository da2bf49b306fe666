/** What the change worker does to the API (pkg/scheduler/scheduler.go:339-426), and that it
    loses no update: an update made from an old version of a claim is not carried out. */
module Changes {
  import opened Cluster
  import opened ClaimNames
  import opened Soundness
  import opened Strings

  predicate SameClaim(claims: map<string, Claim>, claims': map<string, Claim>, n: string) {
    (n in claims' <==> n in claims) && (n in claims ==> claims'[n] == claims[n])
  }

  /** A creation stores a claim that the API does not hold; of one that it holds it asks to add
      the owner, unless that is recorded. */
  ghost predicate IsCreated(w: World, c: Claim, t: World, rest: seq<Request>)
    requires c.owners != []
  {
    if c.name in w.claims then
      var held := w.claims[c.name];
      && t.claims == w.claims
      && if c.owners[0] in held.owners then Pending(t) == rest
         else Pending(t) == rest + [Request(Update, held.(owners := held.owners + [c.owners[0]]))]
    else c.name in t.claims && t.claims[c.name] == c.(version := 1) && Pending(t) == rest
  }

  /** An update replaces a claim that the API holds in the version it was made from, or in any
      version if versions are not checked; every replacement is a new version. */
  ghost predicate IsUpdated(w: World, c: Claim, t: World, rest: seq<Request>) {
    && Pending(t) == rest
    && if c.name in w.claims && (w.strict ==> c.version == w.claims[c.name].version) then
         c.name in t.claims && t.claims[c.name] == c.(version := w.claims[c.name].version + 1)
       else t.claims == w.claims
  }

  /** `t` is `w` after the request; nothing happened to other claims. */
  ghost predicate IsCarriedOut(w: World, r: Request, t: World, rest: seq<Request>)
    requires r.change.Create? ==> r.claim.owners != []
  {
    && (forall n | n != r.claim.name :: SameClaim(w.claims, t.claims, n))
    && match r.change
       case Create => IsCreated(w, r.claim, t, rest)
       case Update => IsUpdated(w, r.claim, t, rest)
       case Delete => r.claim.name !in t.claims && Pending(t) == rest
  }

  lemma StoredIsCarriedOut(w: World, r: Request, t: World, rest: seq<Request>)
    requires r.change.Create? ==> r.claim.owners != []
    requires t.claims == StoredAfter(w.claims, w.strict, r) && Pending(t) == rest + Reaction(w, r)
    ensures IsCarriedOut(w, r, t, rest)
  {
    assert rest + [] == rest;
  }

  /** What one request does to the API and to the queue. */
  lemma RequestIsCarriedOut(w: World)
    requires GoodQueue(w) && Serviceable(w)
    ensures IsCarriedOut(w, w.busy.value.request, ChangeHandled(w), Pending(w)[1..])
  {
    HandlingPops(w);
    AppliedStores(w, w.busy.value.request);
    StoredIsCarriedOut(w, w.busy.value.request, ChangeHandled(w), Pending(w)[1..]);
  }

  // ----- Versions -----

  /** The step carries out a deletion of the claim. */
  predicate Deletes(w: World, step: Step, name: string) {
    && step.HandleChange? && w.busy.Some?
    && w.busy.value.request.change.Delete? && w.busy.value.request.claim.name == name
  }

  /** The API holds the claim in this version or a later one. */
  predicate HoldsSince(w: World, name: string, version: nat) {
    name in w.claims && w.claims[name].version >= version
  }

  lemma HandlingRaises(w: World, offer: Offers, t: World, name: string, version: nat)
    requires Sound(w, offer) && Goes(w, HandleChange, t) && HoldsSince(w, name, version)
    requires !Deletes(w, HandleChange, name)
    ensures HoldsSince(t, name, version)
  {
    RequestIsCarriedOut(w);
    if w.busy.value.request.claim.name != name {
      assert SameClaim(w.claims, t.claims, name);
    }
  }

  lemma OtherStepsKeepClaims(w: World, offer: Offers, step: Step, t: World)
    requires Sound(w, offer) && Goes(w, step, t) && !step.HandleChange?
    ensures t.claims == w.claims
  {
    if step.ServiceEvent? {
      EventKeepsClaims(w, step.key, step.cur);
    } else if step.ProcessKey? {
      ProcessingKeepsClaims(w);
    } else if step.Tick? {
      TickedTouchesOnlyKeys(w, step.order, w.nodes);
    }
  }

  lemma {:induction false} DroppingKeepsClaims(w: World, ips: seq<string>, refs: set<string>)
    requires ValidPools(w.pools)
    ensures Dropped(w, ips, refs).claims == w.claims
    decreases |ips|
  {
    if ips != [] {
      DroppingKeepsClaims(if ips[0] in refs then w else Released(w, ips[0]), ips[1..], refs);
    }
  }

  lemma EventKeepsClaims(w: World, key: string, cur: Option<Service>)
    requires ValidPools(w.pools)
    ensures ServiceHandled(w, key, cur).claims == w.claims
  {
    var t := Stored(w, key, cur);
    var u := if cur.Some? then ExternalIPsProcessed(t, key) else t;
    StaysValid(t, key, cur);
    if cur.Some? {
      SendAllChangesOnlyTheQueue(t, ClaimRequests(t.pools, t.mask, key, t.services[key].ips));
    }
    DroppingKeepsClaims(u, OldIPs(w, key), Listed(u.services));
  }

  lemma ProcessingKeepsClaims(w: World)
    requires w.stage.KeyTaken? && ValidPools(w.pools)
    ensures KeyProcessed(w).claims == w.claims
  {
    var key := w.stage.key;
    if key in w.cache && OwnersAlive(w, w.cache[key].owners) != [] {
      var (e, rs) := ClaimOutcome(w, key);
      SendAllChangesOnlyTheQueue(w.(cache := w.cache[key := e]), rs);
    }
  }

  /** From point j - 1 to point j. */
  lemma NextHoldsSince(ws: seq<World>, steps: seq<Step>, offer: Offers, j: nat, name: string, version: nat)
    requires IsRun(ws, steps, offer) && 0 < j <= |steps| && HoldsSince(ws[j - 1], name, version)
    requires !Deletes(ws[j - 1], steps[j - 1], name)
    ensures HoldsSince(ws[j], name, version)
  {
    StepOfRun(ws, steps, offer, j);
    if steps[j - 1].HandleChange? {
      HandlingRaises(ws[j - 1], offer, ws[j], name, version);
    } else {
      OtherStepsKeepClaims(ws[j - 1], offer, steps[j - 1], ws[j]);
    }
  }

  /** On every run the version of a claim never falls until it is deleted. */
  lemma {:induction false} VersionsRise(ws: seq<World>, steps: seq<Step>, offer: Offers, i: nat, j: nat, name: string)
    requires IsRun(ws, steps, offer) && i <= j <= |steps| && name in ws[i].claims
    requires forall n :: i <= n < j ==> !Deletes(ws[n], steps[n], name)
    ensures HoldsSince(ws[j], name, ws[i].claims[name].version)
  {
    if i < j {
      VersionsRise(ws, steps, offer, i, j - 1, name);
      NextHoldsSince(ws, steps, offer, j, name, ws[i].claims[name].version);
    }
  }

  /** No update is lost: on every run with versions checked, an update that was made from an
      older version than the API once held is not carried out, unless the claim was deleted
      meanwhile. */
  lemma StaleUpdatesAreRejected(ws: seq<World>, steps: seq<Step>, offer: Offers, i: nat, j: nat, c: Claim)
    requires IsRun(ws, steps, offer) && i <= j < |steps| && steps[j].HandleChange? && ws[j].strict
    requires ws[j].busy.Some? && ws[j].busy.value.request == Request(Update, c)
    requires c.name in ws[i].claims && c.version < ws[i].claims[c.name].version
    requires forall n :: i <= n < j ==> !Deletes(ws[n], steps[n], c.name)
    ensures ws[j + 1].claims == ws[j].claims
  {
    VersionsRise(ws, steps, offer, i, j, c.name);
    StepOfRun(ws, steps, offer, j + 1);
    RequestIsCarriedOut(ws[j]);
  }
}
