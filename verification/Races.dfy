/** Runs of the scheduler on which a result fails whose condition is not met. */
module Races {
  import opened Strings
  import opened Naming
  import opened WorkQueue
  import opened QueueRuns
  import opened Cluster
  import opened ClaimNames
  import opened Soundness
  import opened ClaimSet
  import opened Grants
  import opened Ownership
  import opened PoolClaims
  import opened Pools

  // ----- Building runs -----

  datatype Trace = Trace(ws: seq<World>, steps: seq<Step>)

  /** A run that ends in `w`. */
  ghost predicate Reaches(r: Trace, offer: Offers, w: World) {
    IsRun(r.ws, r.steps, offer) && r.ws[|r.steps|] == w
  }

  predicate Extends(r: Trace, q: Trace) {
    r.ws <= q.ws && r.steps <= q.steps
  }

  function Further(r: Trace, step: Step, t: World): Trace {
    Trace(r.ws + [t], r.steps + [step])
  }

  /** The change queue drains between events, and claims are processed as the API has them. */
  ghost predicate Calmly(r: Trace) {
    CalmRun(r.ws, r.steps)
  }

  lemma GoesFurther(r: Trace, offer: Offers, w: World, step: Step, t: World)
    requires Reaches(r, offer, w) && Goes(w, step, t)
    ensures Reaches(Further(r, step, t), offer, t)
  {
    var q := Further(r, step, t);
    forall i | 0 <= i < |q.ws| ensures Reached(q.ws, q.steps, offer, i) {
      assert i < |r.ws| ==> Reached(r.ws, r.steps, offer, i);
    }
  }

  lemma OneStepFurther(r: Trace, offer: Offers, w: World, step: Step)
    requires Reaches(r, offer, w) && Enabled(w, step)
    ensures Sound(w, offer) && (step.HandleChange? ==> Serviceable(w))
    ensures Reaches(Further(r, step, Do(w, step)), offer, Do(w, step))
  {
    EveryRunIsSound(r.ws, r.steps, offer, |r.steps|);
    StepIsSound(w, offer, step);
    GoesFurther(r, offer, w, step, Do(w, step));
  }

  lemma CalmFurther(r: Trace, offer: Offers, w: World, step: Step, t: World)
    requires Reaches(r, offer, w) && Calmly(r) && Calm(w, step)
    ensures Calmly(Further(r, step, t))
  {
    var q := Further(r, step, t);
    forall i | 0 <= i < |q.steps| ensures Calm(q.ws[i], q.steps[i]) {
      assert i < |r.steps| ==> Calm(r.ws[i], r.steps[i]);
    }
  }

  lemma CalmStepFurther(r: Trace, offer: Offers, w: World, step: Step, t: World)
    requires Reaches(r, offer, w) && Goes(w, step, t) && Calm(w, step)
    ensures Reaches(Further(r, step, t), offer, t) && (Calmly(r) ==> Calmly(Further(r, step, t)))
  {
    GoesFurther(r, offer, w, step, t);
    if Calmly(r) {
      CalmFurther(r, offer, w, step, t);
    }
  }

  lemma ReachedIsSound(r: Trace, offer: Offers, w: World)
    requires Reaches(r, offer, w)
    ensures Sound(w, offer)
  {
    EveryRunIsSound(r.ws, r.steps, offer, |r.steps|);
  }

  // ----- Carrying out requests -----

  /** `t` is `w` after the first of the pending requests `rs` is carried out. */
  ghost predicate CarriesOutFirst(w: World, rs: seq<Request>, t: World)
    requires rs != []
  {
    && (rs[0].change.Create? ==> rs[0].claim.owners != [])
    && t.busy.None? && Pending(t) == rs[1..] + Reaction(w, rs[0])
    && t == w.(claims := Applied(w, rs[0]).claims, changes := t.changes, next := t.next)
  }

  lemma TakenIsFirst(w: World, rs: seq<Request>)
    requires GoodQueue(w) && w.busy.None? && Pending(w) == rs != []
    ensures Enabled(w, TakeChange)
    ensures var u := ChangeTaken(w);
            && u.busy.Some? && u.busy.value.request == rs[0] && GoodQueue(u) && Pending(u) == rs
            && u == w.(changes := u.changes, busy := u.busy)
  {
    TakenFromExclusive(w.changes);
    TakingKeepsPending(w);
    assert Pending(ChangeTaken(w))[0] == ChangeTaken(w).busy.value.request;
  }

  lemma SameReaction(w: World, u: World, r: Request)
    requires u.claims == w.claims && u.strict == w.strict && (r.change.Create? ==> r.claim.owners != [])
    ensures Reaction(u, r) == Reaction(w, r) && Applied(u, r).claims == Applied(w, r).claims
  {
    AppliedStores(w, r);
    AppliedStores(u, r);
  }

  lemma HandledIsFirst(w: World, u: World, rs: seq<Request>)
    requires rs != [] && Serviceable(u) && u.busy.value.request == rs[0] && GoodQueue(u) && Pending(u) == rs
    requires w.busy.None? && u == w.(changes := u.changes, busy := u.busy)
    ensures CarriesOutFirst(w, rs, ChangeHandled(u))
  {
    HandlingPops(u);
    SameReaction(w, u, rs[0]);
  }

  lemma Taking(r: Trace, offer: Offers, w: World, rs: seq<Request>) returns (q: Trace, u: World)
    requires Reaches(r, offer, w) && w.busy.None? && Pending(w) == rs != []
    ensures q == Further(r, TakeChange, u) && Reaches(q, offer, u) && (Calmly(r) ==> Calmly(q))
    ensures u.busy.Some? && u.busy.value.request == rs[0] && Pending(u) == rs
    ensures u == w.(changes := u.changes, busy := u.busy)
  {
    ReachedIsSound(r, offer, w);
    TakenIsFirst(w, rs);
    OneStepFurther(r, offer, w, TakeChange);
    u := ChangeTaken(w);
    q := Further(r, TakeChange, u);
    if Calmly(r) {
      CalmFurther(r, offer, w, TakeChange, u);
    }
  }

  lemma Handling(r: Trace, offer: Offers, w: World, u: World, rs: seq<Request>) returns (q: Trace, t: World)
    requires Reaches(r, offer, u) && u.busy.Some? && w.busy.None? && u == w.(changes := u.changes, busy := u.busy)
    requires rs != [] && u.busy.value.request == rs[0] && Pending(u) == rs
    ensures q == Further(r, HandleChange, t) && Reaches(q, offer, t) && (Calmly(r) ==> Calmly(q))
    ensures CarriesOutFirst(w, rs, t)
  {
    OneStepFurther(r, offer, u, HandleChange);
    t := ChangeHandled(u);
    q := Further(r, HandleChange, t);
    if Calmly(r) {
      CalmFurther(r, offer, u, HandleChange, t);
    }
    HandledIsFirst(w, u, rs);
  }

  /** The change worker takes and carries out the first pending request. */
  lemma FirstRequestHandled(r: Trace, offer: Offers, w: World, rs: seq<Request>)
    returns (q: Trace, t: World)
    requires Reaches(r, offer, w) && w.busy.None? && Pending(w) == rs != []
    ensures Reaches(q, offer, t) && Extends(r, q) && CarriesOutFirst(w, rs, t) && (Calmly(r) ==> Calmly(q))
    ensures |q.ws| == |r.ws| + 2 && q.ws[|r.ws|].services == w.services && t.services == w.services
  {
    var p, u := Taking(r, offer, w, rs);
    q, t := Handling(p, offer, w, u, rs);
  }

  // ----- Events -----

  /** A service that lists one address and asks for none. */
  function Listing(x: string): Service {
    Service([x], map[], false)
  }

  function ClaimFor(w: World, x: string, key: string): Request {
    Request(Create, MakeClaim(x, w.mask, [key]))
  }

  lemma ListingHandled(w: World, key: string, x: string)
    requires ValidPools(w.pools) && key !in w.services && PoolOf(w.pools, x).None?
    ensures ServiceHandled(w, key, Some(Listing(x)))
         == Send(w.(services := w.services[key := Listing(x)]), ClaimFor(w, x, key))
  {
    var t := Stored(w, key, Some(Listing(x)));
    assert [x][1..] == [];
    assert ClaimRequests(t.pools, t.mask, key, [x]) == [ClaimFor(w, x, key)] + [];
    assert [ClaimFor(w, x, key)][1..] == [];
    assert SendAll(t, [ClaimFor(w, x, key)]) == Send(t, ClaimFor(w, x, key));
    assert OldIPs(w, key) == [];
  }

  /** `t` is `w` with one more service, and its request pending. */
  ghost predicate ListsToo(w: World, key: string, x: string, t: World) {
    && t == w.(services := w.services[key := Listing(x)], changes := t.changes, next := t.next)
    && Pending(t) == Pending(w) + [ClaimFor(w, x, key)]
  }

  /** A new service lists an address that no pool has allocated. */
  lemma NewLister(r: Trace, offer: Offers, w: World, key: string, x: string) returns (q: Trace, t: World)
    requires Reaches(r, offer, w) && key !in w.services && Plain(x)
    requires ValidPools(w.pools) && PoolOf(w.pools, x).None?
    ensures Reaches(q, offer, t) && Extends(r, q) && ListsToo(w, key, x, t)
    ensures Calmly(r) && Pending(w) == [] ==> Calmly(q)
  {
    var step := ServiceEvent(key, Some(Listing(x)));
    ReachedIsSound(r, offer, w);
    t := ListerComes(w, offer, key, x);
    q := Further(r, step, t);
    GoesFurther(r, offer, w, step, t);
    if Calmly(r) && Pending(w) == [] {
      CalmFurther(r, offer, w, step, t);
    }
  }

  lemma ListerComes(w: World, offer: Offers, key: string, x: string) returns (t: World)
    requires Sound(w, offer) && key !in w.services && Plain(x) && PoolOf(w.pools, x).None?
    ensures Goes(w, ServiceEvent(key, Some(Listing(x))), t) && ListsToo(w, key, x, t)
  {
    ListingHandled(w, key, x);
    var u := w.(services := w.services[key := Listing(x)]);
    t := Send(u, ClaimFor(w, x, key));
    assert Pending(u) == Pending(w);
    SendAppends(u, ClaimFor(w, x, key));
  }

  // ----- Lost owners -----

  /** The services are all recorded as owners of the claim. */
  predicate AllRecorded(claims: map<string, Claim>, name: string, keys: seq<string>) {
    name in claims && forall k | k in keys :: k in claims[name].owners
  }

  /** Those of the services that are not owners yet. */
  function Missing(owners: seq<string>, keys: seq<string>): (r: seq<string>)
    ensures forall k :: k in r <==> k in keys && k !in owners
  {
    if keys == [] then [] else (if keys[0] in owners then [] else [keys[0]]) + Missing(owners, keys[1..])
  }

  lemma {:induction false} MissingOnce(owners: seq<string>, keys: seq<string>)
    requires NoDuplicates(keys)
    ensures NoDuplicates(Missing(owners, keys))
  {
    if keys != [] {
      HeadOccursOnce(keys);
      MissingOnce(owners, keys[1..]);
    }
  }

  function NewOwner(c: Claim, key: string): Request {
    Request(Update, c.(owners := c.owners + [key]))
  }

  function NewOwners(c: Claim, keys: seq<string>): (us: seq<Request>)
    ensures |us| == |keys| && forall i :: 0 <= i < |us| ==> us[i] == NewOwner(c, keys[i])
  {
    seq(|keys|, i requires 0 <= i < |keys| => NewOwner(c, keys[i]))
  }

  /** What the API holds after all of the requests. */
  function StoredAfterAll(claims: map<string, Claim>, strict: bool, rs: seq<Request>): map<string, Claim>
    decreases |rs|
  {
    if rs == [] then claims else StoredAfterAll(StoredAfter(claims, strict, rs[0]), strict, rs[1..])
  }

  /** The claim with one new owner. */
  predicate OneNew(claims: map<string, Claim>, c: Claim, keys: seq<string>) {
    && c.name in claims && claims[c.name].version > c.version
    && exists k | k in keys :: claims[c.name].owners == c.owners + [k]
  }

  /** Further updates that start from the same version are rejected, or replace the new owner. */
  lemma {:induction false} LaterUpdates(claims: map<string, Claim>, strict: bool, c: Claim, keys: seq<string>,
                                        more: seq<string>)
    requires OneNew(claims, c, keys)
    ensures OneNew(StoredAfterAll(claims, strict, NewOwners(c, more)), c, keys + more)
    decreases |more|
  {
    if more == [] {
      assert keys + more == keys;
    } else {
      var us, next := NewOwners(c, more), StoredAfter(claims, strict, NewOwner(c, more[0]));
      assert us[1..] == NewOwners(c, more[1..]);
      if next == claims {
        assert OneNew(next, c, keys + [more[0]]) by {
          var k :| k in keys && claims[c.name].owners == c.owners + [k];
          assert k in keys + [more[0]];
        }
      } else {
        assert more[0] in keys + [more[0]];
      }
      LaterUpdates(next, strict, c, keys + [more[0]], more[1..]);
      assert keys + [more[0]] + more[1..] == keys + more;
    }
  }

  /** Updates that start from the same claim leave one new owner between them, whether or not
      the API checks versions. */
  lemma UpdatesLeaveOne(claims: map<string, Claim>, strict: bool, c: Claim, keys: seq<string>)
    requires c.name in claims && claims[c.name] == c && keys != []
    ensures OneNew(StoredAfterAll(claims, strict, NewOwners(c, keys)), c, keys)
  {
    var us, next := NewOwners(c, keys), StoredAfter(claims, strict, NewOwner(c, keys[0]));
    assert us[1..] == NewOwners(c, keys[1..]) && [keys[0]] + keys[1..] == keys;
    assert keys[0] in [keys[0]] && next[c.name].owners == c.owners + [keys[0]];
    LaterUpdates(next, strict, c, [keys[0]], keys[1..]);
  }

  lemma OneOwnerIsEnoughIff(claims: map<string, Claim>, c: Claim, keys: seq<string>)
    requires NoDuplicates(keys) && OneNew(claims, c, Missing(c.owners, keys))
    ensures AllRecorded(claims, c.name, keys) <==> |Missing(c.owners, keys)| <= 1
  {
    var ms := Missing(c.owners, keys);
    MissingOnce(c.owners, keys);
    var m :| m in ms && claims[c.name].owners == c.owners + [m];
    if |ms| > 1 {
      assert ms[0] in keys && ms[1] in keys && ms[0] != ms[1];
      var lost := if ms[0] == m then ms[1] else ms[0];
      assert lost in ms && lost !in c.owners + [m];
    } else {
      assert forall k | k in ms :: k == m;
    }
  }

  /** What all the updates for the new services make of an existing claim. */
  lemma AllRecordedIff(claims: map<string, Claim>, strict: bool, c: Claim, keys: seq<string>)
    requires c.name in claims && claims[c.name] == c && NoDuplicates(keys)
    ensures AllRecorded(StoredAfterAll(claims, strict, NewOwners(c, Missing(c.owners, keys))), c.name, keys)
       <==> |Missing(c.owners, keys)| <= 1
  {
    var ms := Missing(c.owners, keys);
    if ms != [] {
      UpdatesLeaveOne(claims, strict, c, ms);
      OneOwnerIsEnoughIff(StoredAfterAll(claims, strict, NewOwners(c, ms)), c, keys);
    } else {
      assert forall k | k in keys :: k !in ms;
    }
  }

  // ----- The runs -----

  function Creations(mask: string, x: string, keys: seq<string>): seq<Request> {
    if keys == [] then [] else [Request(Create, MakeClaim(x, mask, [keys[0]]))] + Creations(mask, x, keys[1..])
  }

  /** The store once all of the services list the address. */
  function WithListers(services: map<string, Service>, x: string, keys: seq<string>): (r: map<string, Service>)
    ensures forall k :: k in r <==> k in services || k in keys
    ensures forall k | k in r :: r[k] == if k in keys then Listing(x) else services[k]
    decreases |keys|
  {
    if keys == [] then services else WithListers(services[keys[0] := Listing(x)], x, keys[1..])
  }

  /** New services come one after the other. */
  lemma {:induction false} AllCome(r: Trace, offer: Offers, w: World, x: string, keys: seq<string>)
    returns (q: Trace, t: World)
    requires Reaches(r, offer, w) && NoDuplicates(keys) && Plain(x) && Outside(offer, x)
    requires forall k | k in keys :: k !in w.services
    ensures Reaches(q, offer, t) && Extends(r, q)
    ensures t == w.(services := WithListers(w.services, x, keys), changes := t.changes, next := t.next)
    ensures Pending(t) == Pending(w) + Creations(w.mask, x, keys)
    decreases |keys|
  {
    if keys == [] {
      q, t := r, w;
      assert Pending(w) + [] == Pending(w);
    } else {
      var u;
      q, u := OneComes(r, offer, w, x, keys);
      q, t := AllCome(q, offer, u, x, keys[1..]);
      ConcatIsAssociative(Pending(w), [ClaimFor(w, x, keys[0])], Creations(w.mask, x, keys[1..]));
    }
  }

  lemma OneComes(r: Trace, offer: Offers, w: World, x: string, keys: seq<string>) returns (q: Trace, t: World)
    requires Reaches(r, offer, w) && keys != [] && NoDuplicates(keys) && Plain(x) && Outside(offer, x)
    requires forall k | k in keys :: k !in w.services
    ensures Reaches(q, offer, t) && Extends(r, q) && ListsToo(w, keys[0], x, t)
    ensures NoDuplicates(keys[1..]) && forall k | k in keys[1..] :: k !in t.services
  {
    HeadOccursOnce(keys);
    ReachedIsSound(r, offer, w);
    OutsideHasNoPool(w.pools, offer, x);
    q, t := NewLister(r, offer, w, keys[0], x);
  }

  lemma ReactionOfLister(w: World, x: string, key: string)
    requires NameOf(w, x) in w.claims
    ensures var c := w.claims[NameOf(w, x)];
            Reaction(w, ClaimFor(w, x, key)) == NewOwners(c, Missing(c.owners, [key]))
  {
    assert [key][1..] == [];
  }

  lemma NewOwnersConcat(c: Claim, ks: seq<string>, ls: seq<string>)
    ensures NewOwners(c, ks + ls) == NewOwners(c, ks) + NewOwners(c, ls)
  {
  }

  lemma MissingOfCons(owners: seq<string>, keys: seq<string>)
    requires keys != []
    ensures Missing(owners, keys) == Missing(owners, [keys[0]]) + Missing(owners, keys[1..])
  {
    var none: seq<string> := [];
    assert [keys[0]][1..] == none && Missing(owners, none) == [];
  }

  lemma MissingOneByOne(c: Claim, us: seq<Request>, keys: seq<string>)
    requires keys != []
    ensures us + NewOwners(c, Missing(c.owners, [keys[0]])) + NewOwners(c, Missing(c.owners, keys[1..]))
         == us + NewOwners(c, Missing(c.owners, keys))
  {
    var one, more := Missing(c.owners, [keys[0]]), Missing(c.owners, keys[1..]);
    MissingOfCons(c.owners, keys);
    NewOwnersConcat(c, one, more);
    ConcatIsAssociative(us, NewOwners(c, one), NewOwners(c, more));
  }

  /** The worker carries out the first creation. */
  lemma OneCreationHandled(r: Trace, offer: Offers, w: World, x: string, keys: seq<string>, us: seq<Request>)
    returns (q: Trace, t: World)
    requires Reaches(r, offer, w) && w.busy.None? && NameOf(w, x) in w.claims && keys != []
    requires Pending(w) == Creations(w.mask, x, keys) + us
    ensures Reaches(q, offer, t) && Extends(r, q) && t.busy.None? && t == w.(changes := t.changes, next := t.next)
    ensures var c := w.claims[NameOf(w, x)];
            Pending(t) == Creations(w.mask, x, keys[1..]) + (us + NewOwners(c, Missing(c.owners, [keys[0]])))
  {
    var first, rest := ClaimFor(w, x, keys[0]), Creations(w.mask, x, keys[1..]);
    assert [first] + rest + us == [first] + (rest + us);
    q, t := FirstRequestHandled(r, offer, w, [first] + (rest + us));
    ReactionOfLister(w, x, keys[0]);
    assert ([first] + (rest + us))[1..] == rest + us;
    ConcatIsAssociative(rest, us, Reaction(w, first));
  }

  /** It carries out all of them: they only ask for updates. */
  lemma {:induction false} CreationsHandled(r: Trace, offer: Offers, w: World, x: string, keys: seq<string>,
                                            us: seq<Request>)
    returns (q: Trace, t: World)
    requires Reaches(r, offer, w) && w.busy.None? && NameOf(w, x) in w.claims
    requires Pending(w) == Creations(w.mask, x, keys) + us
    ensures Reaches(q, offer, t) && Extends(r, q) && t.busy.None? && t == w.(changes := t.changes, next := t.next)
    ensures var c := w.claims[NameOf(w, x)]; Pending(t) == us + NewOwners(c, Missing(c.owners, keys))
    decreases |keys|
  {
    if keys == [] {
      q, t := r, w;
      assert [] + us == us + [];
    } else {
      var u, c := w, w.claims[NameOf(w, x)];
      q, u := OneCreationHandled(r, offer, w, x, keys, us);
      q, t := CreationsHandled(q, offer, u, x, keys[1..], us + NewOwners(c, Missing(c.owners, [keys[0]])));
      MissingOneByOne(c, us, keys);
    }
  }

  lemma AllCreationsHandled(r: Trace, offer: Offers, w: World, x: string, keys: seq<string>)
    returns (q: Trace, t: World)
    requires Reaches(r, offer, w) && w.busy.None? && NameOf(w, x) in w.claims
    requires Pending(w) == Creations(w.mask, x, keys)
    ensures Reaches(q, offer, t) && Extends(r, q) && t.busy.None? && t == w.(changes := t.changes, next := t.next)
    ensures var c := w.claims[NameOf(w, x)]; Pending(t) == NewOwners(c, Missing(c.owners, keys))
  {
    var us := NewOwners(w.claims[NameOf(w, x)], Missing(w.claims[NameOf(w, x)].owners, keys));
    assert Pending(w) + [] == Pending(w) && [] + us == us;
    q, t := CreationsHandled(r, offer, w, x, keys, []);
  }

  /** Then it carries out the updates. */
  lemma {:induction false} UpdatesHandled(r: Trace, offer: Offers, w: World, us: seq<Request>)
    returns (q: Trace, t: World)
    requires Reaches(r, offer, w) && w.busy.None? && Pending(w) == us && forall u | u in us :: u.change.Update?
    ensures Reaches(q, offer, t) && Extends(r, q) && Pending(t) == [] && t.mask == w.mask && t.services == w.services
    ensures t.claims == StoredAfterAll(w.claims, w.strict, us)
    decreases |us|
  {
    if us == [] {
      q, t := r, w;
    } else {
      var u;
      q, u := FirstRequestHandled(r, offer, w, us);
      AppliedStores(w, us[0]);
      assert us[1..] + [] == us[1..];
      q, t := UpdatesHandled(q, offer, u, us[1..]);
    }
  }

  /** Any number of new services list an address whose claim exists, and only then the worker
      runs until nothing is pending.  All of them are recorded as owners exactly if at most one
      of them was not an owner before. */
  lemma UndrainedUpdatesLoseAnOwner(r: Trace, offer: Offers, w: World, x: string, keys: seq<string>)
    returns (q: Trace, t: World)
    requires Reaches(r, offer, w) && w.busy.None? && Pending(w) == [] && NameOf(w, x) in w.claims
    requires NoDuplicates(keys) && (forall k | k in keys :: k !in w.services) && Plain(x) && Outside(offer, x)
    ensures Reaches(q, offer, t) && Extends(r, q) && Pending(t) == [] && t.mask == w.mask
    ensures forall k | k in keys :: ListedBy(t.services, k, x)
    ensures AllRecorded(t.claims, NameOf(w, x), keys) <==> |Missing(w.claims[NameOf(w, x)].owners, keys)| <= 1
  {
    var c := w.claims[NameOf(w, x)];
    ReachedIsSound(r, offer, w);
    AllRecordedIff(w.claims, w.strict, c, keys);
    var u;
    q, u := AllComeAndAreHandled(r, offer, w, x, keys);
    q, t := UpdatesHandled(q, offer, u, NewOwners(c, Missing(c.owners, keys)));
  }

  lemma AllComeAndAreHandled(r: Trace, offer: Offers, w: World, x: string, keys: seq<string>)
    returns (q: Trace, t: World)
    requires Reaches(r, offer, w) && w.busy.None? && Pending(w) == [] && NameOf(w, x) in w.claims
    requires NoDuplicates(keys) && (forall k | k in keys :: k !in w.services) && Plain(x) && Outside(offer, x)
    ensures Reaches(q, offer, t) && Extends(r, q) && t.busy.None?
    ensures t == w.(services := WithListers(w.services, x, keys), changes := t.changes, next := t.next)
    ensures var c := w.claims[NameOf(w, x)]; Pending(t) == NewOwners(c, Missing(c.owners, keys))
  {
    var u;
    q, u := AllCome(r, offer, w, x, keys);
    assert [] + Creations(w.mask, x, keys) == Creations(w.mask, x, keys);
    q, t := AllCreationsHandled(q, offer, u, x, keys);
  }

  // ----- From the start -----

  /** Nothing has happened yet. */
  ghost predicate Start(w: World, offer: Offers) {
    && Sound(w, offer) && w.services == map[] && w.claims == map[] && w.cache == map[]
    && w.busy.None? && Pending(w) == [] && w.keys == Empty() && w.stage.NoKey?
    && forall i :: 0 <= i < |w.pools| ==> w.pools[i].spec.allocations == map[]
  }

  /** A scheduler that starts with one pool. */
  function StartWith(mask: string, strict: bool, pool: Pool, nodes: seq<Node>): World {
    World(mask, strict, Fair, map[], {}, [pool], map[], map[], Empty(), 0, None, Empty(), NoKey, nodes, {}, map[])
  }

  /** Every pool that offers an address is granted from at such a start. */
  lemma AnyPoolCanStart(mask: string, strict: bool, pool: Pool, nodes: seq<Node>)
    requires pool.spec.Valid() && pool.spec.parsed.Some? && pool.spec.allocations == map[] && Offered(pool.spec) != []
    requires Plain(mask) && HasMask(pool.spec) && Plain(PoolMask(pool))
    ensures var w, offer := StartWith(mask, strict, pool, nodes), Offered(pool.spec);
            Start(w, [offer]) && FirstGrant(w.pools) == Some((0, offer[0]))
  {
    var w, offer := StartWith(mask, strict, pool, nodes), Offered(pool.spec);
    forall ip | ip in offer ensures Plain(ip) {
      var k :| 0 <= k < |offer| && offer[k] == ip;
      PrintedAddressIsPlain(Candidates(pool.spec)[k]);
    }
    assert PoolIs(pool, offer);
    StartIsSound(w, [offer]);
  }

  function StoredClaim(w: World, x: string, key: string): Claim {
    MakeClaim(x, w.mask, [key]).(version := 1)
  }

  /** `t` is `w` with one service, whose claim the API holds. */
  ghost predicate HasClaim(w: World, a: string, x: string, t: World) {
    && t.busy.None? && Pending(t) == []
    && t == w.(services := map[a := Listing(x)], claims := map[NameOf(w, x) := StoredClaim(w, x, a)],
               changes := t.changes, next := t.next)
  }

  lemma FirstClaim(w: World, offer: Offers, a: string, x: string) returns (r: Trace, t: World)
    requires Start(w, offer) && Plain(x)
    ensures Reaches(r, offer, t) && Calmly(r) && r.ws[0] == w && HasClaim(w, a, x, t)
  {
    r := Trace([w], []);
    assert Reaches(r, offer, w);
    var u, req := w, ClaimFor(w, x, a);
    r, u := NewLister(r, offer, w, a, x);
    assert Pending(u) == [req];
    r, t := FirstRequestHandled(r, offer, u, [req]);
    assert Reaction(u, req) == [] && [req][1..] == [];
  }

  /** A run on which an owner is lost: one service's claim exists when two more list the
      address before the worker runs. */
  lemma OwnerIsLost(w: World, offer: Offers, first: string, a: string, b: string, x: string)
    returns (r: Trace, t: World)
    requires Start(w, offer) && Plain(x) && Outside(offer, x) && a != b && first != a && first != b
    ensures Reaches(r, offer, t) && r.ws[0] == w && Pending(t) == []
    ensures ListedBy(t.services, a, x) && ListedBy(t.services, b, x) && !AllRecorded(t.claims, NameOf(t, x), [a, b])
  {
    var u;
    r, u := FirstClaim(w, offer, first, x);
    r, t := UndrainedUpdatesLoseAnOwner(r, offer, u, x, [a, b]);
    BothMissing(first, a, b);
    assert a in [a, b] && b in [a, b];
  }

  lemma BothMissing(first: string, a: string, b: string)
    requires first != a && first != b
    ensures |Missing([first], [a, b])| == 2
  {
    assert [a, b][1..] == [b] && [b][1..] == [];
    assert Missing([first], [b]) == [b];
  }

  // ----- A pool with the default mask -----

  /** A service lists a free address of a pool that has the default mask: the claim exists, the
      allocation does not. */
  lemma DefaultMaskGoesOutOfStep(w: World, offer: Offers, a: string, i: nat, x: string) returns (r: Trace, t: World)
    requires Start(w, offer) && i < |w.pools| && x in offer[i]
    requires HasMask(w.pools[i].spec) && PoolMask(w.pools[i]) == w.mask
    ensures Reaches(r, offer, t) && r.ws[0] == w && Pending(t) == [] && !InStep(t, i, x)
  {
    assert PoolIs(w.pools[i], offer[i]);
    r, t := FirstClaim(w, offer, a, x);
    assert Will(t, NameOf(t, x)) == (NameOf(t, x) in t.claims);
  }

  // ----- A claim collected too early -----

  lemma Cached(w: World, offer: Offers, a: string, x: string) returns (r: Trace, t: World)
    requires Start(w, offer) && Plain(x)
    ensures Reaches(r, offer, t) && Calmly(r) && r.ws[0] == w && Pending(t) == [] && t.busy.None?
    ensures var n, c := NameOf(w, x), StoredClaim(w, x, a);
            && t == w.(services := map[a := Listing(x)], claims := map[n := c], cache := map[n := c],
                       changes := t.changes, next := t.next, keys := t.keys)
            && Taken(t.keys).0 == Item(n)
  {
    var u, n;
    r, u := FirstClaim(w, offer, a, x);
    n := NameOf(w, x);
    OneStepFurther(r, offer, u, SyncClaim(n));
    t := ClaimSynced(u, n);
    CalmFurther(r, offer, u, SyncClaim(n), t);
    r := Further(r, SyncClaim(n), t);
    assert t.keys == State({n}, {}, false, [n]);
    assert Pending(t) == Pending(u);
  }

  /** The worker takes the key of the claim, whose only owner is gone. */
  lemma OrphanTaken(r: Trace, offer: Offers, w: World, n: string, a: string) returns (q: Trace, t: World)
    requires Reaches(r, offer, w) && w.stage.NoKey? && Taken(w.keys).0 == Item(n) && n in w.cache
    requires w.cache[n].owners == [a] && |Split(a, '/')| == 2 && a !in w.services && a !in w.existing
    ensures Reaches(q, offer, t) && Extends(r, q) && |q.steps| == |r.steps| + 1 && Enabled(t, ProcessKey)
    ensures Calmly(r) ==> Calmly(q)
    ensures t == w.(keys := t.keys, stage := KeyTaken(n))
    ensures Collected(t, ProcessKey) == Some(AddressOf(w.cache[n].cidr))
  {
    OneStepFurther(r, offer, w, TakeKey);
    t := KeyTakenFrom(w);
    q := Further(r, TakeKey, t);
    if Calmly(r) {
      CalmFurther(r, offer, w, TakeKey, t);
    }
    assert [a][1..] == [];
    assert OwnersAlive(t, [a]) == [];
  }

  lemma ListerGone(w: World, a: string, b: string, x: string)
    requires ValidPools(w.pools) && a in w.services && w.services[a] == Listing(x)
    requires a != b && ListedBy(w.services, b, x)
    ensures ServiceHandled(w, a, None) == w.(services := w.services - {a})
  {
    var t := Stored(w, a, None);
    assert x in Listed(t.services) by {
      assert b in t.services && x in t.services[b].ips;
    }
    assert OldIPs(w, a) == [x] && [x][1..] == [];
    assert Dropped(t, [x], Listed(t.services)) == t;
  }

  /** The cache lags behind: a second service lists the address, the first one goes away, and
      only then is the cached claim processed.  It is deleted although the address is listed. */
  lemma ListedClaimIsCollected(w: World, offer: Offers, a: string, b: string, x: string)
    returns (r: Trace, t: World)
    requires Start(w, offer) && Plain(x) && Outside(offer, x) && a != b
    requires |Split(a, '/')| == 2 && a !in w.existing
    ensures Reaches(r, offer, t) && r.ws[0] == w && Enabled(t, ProcessKey) && x in Listed(t.services)
    ensures !SparesClaims(t, offer, ProcessKey)
  {
    var w1, w2;
    r, w1 := Cached(w, offer, a, x);
    ReachedIsSound(r, offer, w1);
    OutsideHasNoPool(w1.pools, offer, x);
    r, w2 := NewLister(r, offer, w1, b, x);
    OneStepFurther(r, offer, w2, ServiceEvent(a, None));
    ListerGone(w2, a, b, x);
    var w3 := ServiceHandled(w2, a, None);
    r := Further(r, ServiceEvent(a, None), w3);
    assert a !in w3.services && b in w3.services && x in w3.services[b].ips;
    r, t := OrphanTaken(r, offer, w3, NameOf(w, x), a);
    CidrRoundTrip(x, w.mask);
  }

  // ----- A grant released too early -----

  /** A service that lists nothing and asks for an address. */
  function Asking(): Service {
    Service([], map[], true)
  }

  lemma AskerHandled(w: World, b: string, i: nat, x: string)
    requires ValidPools(w.pools) && b !in w.services && FirstGrant(w.pools) == Some((i, x))
    ensures HasMask(w.pools[i].spec)
    ensures ServiceHandled(w, b, Some(Asking())) == Allocate(Stored(w, b, Some(Asking())), b, i, x)
    ensures Granted(w, ServiceEvent(b, Some(Asking()))) == {GrantOf(w.pools, b, i, x)}
  {
    var t := Stored(w, b, Some(Asking()));
    assert OldIPs(w, b) == [];
    assert GrantFor(w.pools, Asking()) == Some((i, x));
    assert ClaimRequests(t.pools, t.mask, b, []) == [];
    assert ExternalIPsProcessed(t, b) == Allocate(t, b, i, x);
  }

  /** The service `b` is granted an address and its claim is asked for. */
  ghost predicate AsksAndGets(w: World, b: string, i: nat, x: string, t: World)
    requires i < |w.pools| && HasMask(w.pools[i].spec)
  {
    && t == w.(services := w.services[b := Asking().(ips := [x])], pools := t.pools,
               changes := t.changes, next := t.next)
    && Pending(t) == Pending(w) + [Request(Create, GrantClaim(w.pools[i], x, b))]
  }

  lemma AllocatedIsGranted(w: World, b: string, i: nat, x: string)
    requires GoodQueue(w) && i < |w.pools| && HasMask(w.pools[i].spec)
    ensures AsksAndGets(w, b, i, x, Allocate(Stored(w, b, Some(Asking())), b, i, x))
  {
    var t := Stored(w, b, Some(Asking()));
    assert Pending(t) == Pending(w);
    AllocateSends(t, b, i, x);
    assert Asking().ips + [x] == [x];
    assert t.services[b := Asking().(ips := [x])] == w.services[b := Asking().(ips := [x])];
  }

  /** A run with the grants its steps make, which ends in `w` and holds `g`. */
  ghost predicate Holds(r: Trace, granted: seq<set<Grant>>, offer: Offers, w: World, g: Grant) {
    && Reaches(r, offer, w) && GrantRun(r.ws, r.steps, granted, offer)
    && g in HeldAt(r.ws, granted, |r.steps|)
  }

  lemma AskerGets(w: World, offer: Offers, b: string, i: nat, x: string) returns (t: World)
    requires Sound(w, offer) && b !in w.services && FirstGrant(w.pools) == Some((i, x))
    ensures Goes(w, ServiceEvent(b, Some(Asking())), t) && HasMask(w.pools[i].spec) && AsksAndGets(w, b, i, x, t)
    ensures Granted(w, ServiceEvent(b, Some(Asking()))) == {GrantOf(w.pools, b, i, x)}
  {
    AskerHandled(w, b, i, x);
    AllocatedIsGranted(w, b, i, x);
    t := ServiceHandled(w, b, Some(Asking()));
  }

  lemma AskerComes(r: Trace, offer: Offers, w: World, b: string, i: nat, x: string) returns (t: World)
    requires Reaches(r, offer, w) && b !in w.services && Pending(w) == []
    requires ValidPools(w.pools) && FirstGrant(w.pools) == Some((i, x))
    ensures HasMask(w.pools[i].spec) && AsksAndGets(w, b, i, x, t)
    ensures var q := Further(r, ServiceEvent(b, Some(Asking())), t); Reaches(q, offer, t) && (Calmly(r) ==> Calmly(q))
    ensures Granted(w, ServiceEvent(b, Some(Asking()))) == {GrantOf(w.pools, b, i, x)}
  {
    ReachedIsSound(r, offer, w);
    t := AskerGets(w, offer, b, i, x);
    CalmStepFurther(r, offer, w, ServiceEvent(b, Some(Asking())), t);
  }

  lemma AskerGranted(r: Trace, offer: Offers, w: World, b: string, i: nat, x: string)
    returns (q: Trace, t: World, granted: seq<set<Grant>>)
    requires Reaches(r, offer, w) && b !in w.services && Pending(w) == []
    requires ValidPools(w.pools) && FirstGrant(w.pools) == Some((i, x))
    requires ValidPools(r.ws[0].pools) && NamedAllocations(r.ws[0].pools)
    ensures HasMask(w.pools[i].spec) && AsksAndGets(w, b, i, x, t)
    ensures Extends(r, q) && (Calmly(r) ==> Calmly(q)) && Holds(q, granted, offer, t, GrantOf(w.pools, b, i, x))
  {
    t := AskerComes(r, offer, w, b, i, x);
    q := Further(r, ServiceEvent(b, Some(Asking())), t);
    granted := NewGrantHeld(r, offer, w, ServiceEvent(b, Some(Asking())), t, GrantOf(w.pools, b, i, x));
  }

  lemma GrantedIsHeld(ws: seq<World>, steps: seq<Step>, granted: seq<set<Grant>>, offer: Offers, k: nat, g: Grant)
    requires GrantRun(ws, steps, granted, offer) && 0 < k <= |steps|
    requires ValidPools(ws[k - 1].pools) && g in Granted(ws[k - 1], steps[k - 1])
    ensures g in HeldAt(ws, granted, k)
  {
    assert GrantsAt(ws, steps, granted, k - 1);
  }

  lemma NewGrantHeld(r: Trace, offer: Offers, w: World, step: Step, t: World, g: Grant)
    returns (granted: seq<set<Grant>>)
    requires Reaches(r, offer, w) && Reaches(Further(r, step, t), offer, t)
    requires ValidPools(w.pools) && Granted(w, step) == {g}
    requires ValidPools(r.ws[0].pools) && NamedAllocations(r.ws[0].pools)
    ensures Holds(Further(r, step, t), granted, offer, t, g)
  {
    var q, k := Further(r, step, t), |r.steps| + 1;
    assert q.ws[k - 1] == w && q.steps[k - 1] == step && q.ws[0] == r.ws[0];
    granted := GrantsOfRun(q.ws, q.steps, offer);
    GrantedIsHeld(q.ws, q.steps, granted, offer, k, g);
  }

  /** From point j to point k a service lists the address. */
  ghost predicate KeepsListing(ws: seq<World>, j: nat, k: nat, key: string, x: string)
    requires j <= k < |ws|
    decreases k
  {
    (j == k || KeepsListing(ws, j, k - 1, key, x)) && ListedBy(ws[k].services, key, x)
  }

  lemma {:induction false} ListsThroughout(ws: seq<World>, j: nat, k: nat, key: string, x: string)
    requires j <= k < |ws| && forall i :: j <= i <= k ==> ListedBy(ws[i].services, key, x)
    ensures KeepsListing(ws, j, k, key, x)
    decreases k
  {
    if j < k {
      ListsThroughout(ws, j, k - 1, key, x);
    }
  }

  /** A grant is held as long as its service lists the address. */
  lemma {:induction false} GrantStaysHeld(ws: seq<World>, granted: seq<set<Grant>>, g: Grant, j: nat, k: nat)
    requires |ws| == |granted| + 1 && j <= k <= |granted| && g in HeldAt(ws, granted, j)
    requires KeepsListing(ws, j, k, g.service, g.ip)
    ensures g in HeldAt(ws, granted, k)
  {
    if j < k {
      GrantStaysHeld(ws, granted, g, j, k - 1);
    }
  }

  lemma {:induction false} HeldOnPrefix(ws: seq<World>, granted: seq<set<Grant>>, ws': seq<World>,
                                        granted': seq<set<Grant>>, k: nat)
    requires |ws| == |granted| + 1 && |ws'| == |granted'| + 1 && ws <= ws' && granted <= granted' && k <= |granted|
    ensures HeldAt(ws', granted', k) == HeldAt(ws, granted, k)
  {
    if k > 0 {
      HeldOnPrefix(ws, granted, ws', granted', k - 1);
    }
  }

  lemma SameGrantsOnPrefix(r: Trace, q: Trace, offer: Offers, granted: seq<set<Grant>>, granted': seq<set<Grant>>)
    requires GrantRun(r.ws, r.steps, granted, offer) && GrantRun(q.ws, q.steps, granted', offer) && Extends(r, q)
    ensures granted <= granted'
  {
    forall i | 0 <= i < |granted| ensures granted[i] == granted'[i] {
      assert GrantsAt(r.ws, r.steps, granted, i) && GrantsAt(q.ws, q.steps, granted', i);
    }
  }

  /** It is held on every extension of the run on which that is so. */
  lemma GrantHeldFurther(r: Trace, granted: seq<set<Grant>>, q: Trace, offer: Offers, w: World, t: World, g: Grant)
    returns (granted': seq<set<Grant>>)
    requires Holds(r, granted, offer, w, g) && Reaches(q, offer, t) && Extends(r, q)
    requires KeepsListing(q.ws, |r.steps|, |q.steps|, g.service, g.ip)
    ensures Holds(q, granted', offer, t, g)
  {
    assert GrantsAt(r.ws, r.steps, granted, 0);
    granted' := GrantsOfRun(q.ws, q.steps, offer);
    SameGrantsOnPrefix(r, q, offer, granted, granted');
    HeldOnPrefix(r.ws, granted, q.ws, granted', |r.steps|);
    GrantStaysHeld(q.ws, granted', g, |r.steps|, |q.steps|);
  }

  lemma OtherMaskOtherName(w: World, offer: Offers, i: nat, x: string)
    requires PoolsAre(w.pools, offer) && i < |w.pools| && HasMask(w.pools[i].spec) && Plain(w.mask) && Plain(x)
    requires PoolMask(w.pools[i]) != w.mask
    ensures ClaimName(x, PoolMask(w.pools[i])) != NameOf(w, x)
  {
    assert PoolIs(w.pools[i], offer[i]);
    if ClaimName(x, PoolMask(w.pools[i])) == NameOf(w, x) {
      ClaimNameIsInjective(x, PoolMask(w.pools[i]), x, w.mask);
    }
  }

  /** Both services list the address, and the API's claim for the first is cached and queued. */
  ghost predicate BothListed(w: World, a: string, b: string, x: string, t: World) {
    && t.services == map[a := Listing(x), b := Asking().(ips := [x])] && t.existing == w.existing && t.mask == w.mask
    && t.stage.NoKey? && Taken(t.keys).0 == Item(NameOf(w, x)) && Pending(t) == []
    && t.cache == map[NameOf(w, x) := StoredClaim(w, x, a)]
    && NameOf(w, x) in t.claims && t.claims[NameOf(w, x)] == StoredClaim(w, x, a)
  }

  lemma BothAreListed(w: World, u: World, v: World, t: World, a: string, b: string, x: string, i: nat)
    requires a != b && i < |u.pools| && HasMask(u.pools[i].spec) && AsksAndGets(u, b, i, x, v) && Pending(u) == []
    requires ClaimName(x, PoolMask(u.pools[i])) != NameOf(w, x)
    requires CarriesOutFirst(v, [Request(Create, GrantClaim(u.pools[i], x, b))], t)
    requires u.services == map[a := Listing(x)] && u.existing == w.existing && u.mask == w.mask && u.stage.NoKey?
    requires Taken(u.keys).0 == Item(NameOf(w, x))
    requires u.claims == map[NameOf(w, x) := StoredClaim(w, x, a)] == u.cache
    ensures BothListed(w, a, b, x, t)
  {
    var req := Request(Create, GrantClaim(u.pools[i], x, b));
    assert [req][1..] == [] && Reaction(v, req) == [];
  }

  /** The granted service's claim is created while the other stays. */
  lemma ClaimCreatedToo(w: World, offer: Offers, q: Trace, u: World, v: World, a: string, b: string, i: nat, x: string)
    returns (r: Trace, t: World)
    requires a != b && i < |u.pools| && HasMask(u.pools[i].spec) && AsksAndGets(u, b, i, x, v) && Pending(u) == []
    requires ClaimName(x, PoolMask(u.pools[i])) != NameOf(w, x)
    requires u.services == map[a := Listing(x)] && u.existing == w.existing && u.mask == w.mask && u.stage.NoKey?
    requires Taken(u.keys).0 == Item(NameOf(w, x)) && u.busy.None?
    requires u.claims == map[NameOf(w, x) := StoredClaim(w, x, a)] == u.cache
    requires Reaches(q, offer, v)
    ensures Reaches(r, offer, t) && Extends(q, r) && (Calmly(q) ==> Calmly(r)) && BothListed(w, a, b, x, t)
    ensures KeepsListing(r.ws, |q.steps|, |r.steps|, b, x)
  {
    r, t := FirstRequestHandled(q, offer, v, [Request(Create, GrantClaim(u.pools[i], x, b))]);
    assert r.ws[|q.steps|] == v && r.ws[|q.ws|].services == v.services && r.ws[|r.steps|] == t;
    ListsThroughout(r.ws, |q.steps|, |r.steps|, b, x);
    BothAreListed(w, u, v, t, a, b, x, i);
  }

  /** A service lists an address of a pool, which then grants it to another service. */
  lemma GrantedToo(w: World, offer: Offers, a: string, b: string, i: nat, x: string)
    returns (r: Trace, t: World, granted: seq<set<Grant>>)
    requires Start(w, offer) && Plain(x) && FirstGrant(w.pools) == Some((i, x)) && a != b
    requires HasMask(w.pools[i].spec) && PoolMask(w.pools[i]) != w.mask
    ensures Calmly(r) && r.ws[0] == w && BothListed(w, a, b, x, t)
    ensures Holds(r, granted, offer, t, GrantOf(w.pools, b, i, x))
  {
    var p, u := Cached(w, offer, a, x);
    ReachedIsSound(p, offer, u);
    var q, v, some := AskerGranted(p, offer, u, b, i, x);
    OtherMaskOtherName(w, offer, i, x);
    r, t := ClaimCreatedToo(w, offer, q, u, v, a, b, i, x);
    granted := GrantHeldFurther(q, some, r, offer, v, t, GrantOf(w.pools, b, i, x));
  }

  /** Deleting the service that listed the address first touches nothing else. */
  lemma FirstListerDeleted(r: Trace, offer: Offers, u: World, a: string, b: string, x: string)
    returns (q: Trace, v: World)
    requires Reaches(r, offer, u) && Calmly(r) && Pending(u) == [] && a in u.services && u.services[a] == Listing(x)
    requires a != b && ListedBy(u.services, b, x)
    ensures v == u.(services := u.services - {a}) && ListedBy(v.services, b, x) && Pending(v) == []
    ensures q == Further(r, ServiceEvent(a, None), v) && Reaches(q, offer, v) && Calmly(q)
  {
    ReachedIsSound(r, offer, u);
    OneStepFurther(r, offer, u, ServiceEvent(a, None));
    ListerGone(u, a, b, x);
    v := u.(services := u.services - {a});
    q := Further(r, ServiceEvent(a, None), v);
    CalmFurther(r, offer, u, ServiceEvent(a, None), v);
    assert Pending(v) == Pending(u);
  }

  /** The service that listed the address first goes away, and its claim is taken up. */
  lemma FirstListerGone(r: Trace, offer: Offers, w: World, u: World, a: string, b: string, x: string)
    returns (q: Trace, t: World)
    requires Reaches(r, offer, u) && Calmly(r) && BothListed(w, a, b, x, u) && a != b && Plain(x) && Plain(w.mask)
    requires |Split(a, '/')| == 2 && a !in w.existing
    ensures Reaches(q, offer, t) && Calmly(q) && Extends(r, q) && Enabled(t, ProcessKey) && Calm(t, ProcessKey)
    ensures Collected(t, ProcessKey) == Some(x) && KeepsListing(q.ws, |r.steps|, |q.steps|, b, x)
  {
    var p, v := FirstListerDeleted(r, offer, u, a, b, x);
    q, t := OrphanTaken(p, offer, v, NameOf(w, x), a);
    CidrRoundTrip(x, w.mask);
    assert Pending(t) == Pending(v);
    assert q.ws[|r.steps|] == u && q.ws[|r.steps| + 1] == v && q.ws[|r.steps| + 2] == t;
  }

  /** A service lists an address before a pool grants it to another service, and goes away.  Its
      claim, which has the default mask, is processed, and its deletion releases the live
      grant: although the change queue drained between all events, and cache and API agree. */
  lemma LiveGrantIsReleased(w: World, offer: Offers, a: string, b: string, i: nat, x: string)
    returns (r: Trace, t: World, granted: seq<set<Grant>>, g: Grant)
    requires Start(w, offer) && Plain(x) && FirstGrant(w.pools) == Some((i, x)) && a != b
    requires HasMask(w.pools[i].spec) && PoolMask(w.pools[i]) != w.mask && |Split(a, '/')| == 2 && a !in w.existing
    ensures Calmly(r) && r.ws[0] == w && Enabled(t, ProcessKey) && Calm(t, ProcessKey)
    ensures g.service == b && g.ip == x && g.pool == i && Holds(r, granted, offer, t, g)
    ensures !SparesGrants(t, {g}, ProcessKey)
  {
    var q, u, some;
    g := GrantOf(w.pools, b, i, x);
    q, u, some := GrantedToo(w, offer, a, b, i, x);
    r, t := FirstListerGone(q, offer, w, u, a, b, x);
    granted := GrantHeldFurther(q, some, r, offer, u, t, g);
  }
}
