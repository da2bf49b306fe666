/** The simple-mode controller (pkg/controller.go): service events become add and remove
    requests for single addresses, and one worker applies them to the interface.

    A request is a pointer to a fresh struct in the source, so no two requests are ever
    equal; here each one carries the number of its allocation. */
module NaiveController {
  import opened NetUtils
  import opened Strings
  import opened WorkQueue
  import opened QueueRuns
  import Naming

  type Store = map<string, seq<string>>

  datatype Service = Service(key: string, ips: seq<string>)

  datatype Request = Request(pointer: nat, assign: bool, cidr: string)

  // ----- What the interface should hold -----

  function Ips(ips: seq<string>): set<string> {
    set ip | ip in ips
  }

  function Listed(store: Store): set<string> {
    set k, ip | k in store && ip in store[k] :: ip
  }

  function ListedByOthers(store: Store, key: string): set<string> {
    set k, ip | k in store && k != key && ip in store[k] :: ip
  }

  function Cidr(ip: string, mask: string): string {
    ip + "/" + mask
  }

  function Cidrs(ips: set<string>, mask: string): set<string> {
    set ip | ip in ips :: Cidr(ip, mask)
  }

  /** The union of the external addresses of all services. */
  function Wanted(store: Store, mask: string): set<string> {
    Cidrs(Listed(store), mask)
  }

  lemma CidrIsInjective(ip: string, ip': string, mask: string)
    requires Cidr(ip, mask) == Cidr(ip', mask)
    ensures ip == ip'
  {
    var c := Cidr(ip, mask);
    assert ip == c[..|c| - |mask| - 1] && ip' == c[..|c| - |mask| - 1];
  }

  /** It is the text that claims carry as well. */
  lemma CidrIsClaimText(ip: string, mask: string)
    ensures Cidr(ip, mask) == Naming.CidrOf(ip, mask)
  {
    assert [ip, mask][1..] == [mask] && Join([mask], '/') == mask;
    assert "/" == ['/'];
  }

  /** The texts for some addresses are those that a slash splits into one of them and the mask. */
  lemma TextsSplit(ips: set<string>, mask: string, text: string)
    requires '/' !in mask && forall ip | ip in ips :: '/' !in ip
    ensures text in Cidrs(ips, mask) <==> exists ip | ip in ips :: Split(text, '/') == [ip, mask]
  {
    if text in Cidrs(ips, mask) {
      var ip :| ip in ips && text == Cidr(ip, mask);
      CidrIsClaimText(ip, mask);
      Naming.CidrRoundTrip(ip, mask);
    }
    if ip :| ip in ips && Split(text, '/') == [ip, mask] {
      JoinOfSplit(text, '/');
      CidrIsClaimText(ip, mask);
      assert text == Cidr(ip, mask);
    }
  }

  // ----- Requests -----

  function ApplyOne(addrs: set<string>, r: Request): set<string> {
    if r.assign then addrs + {r.cidr} else addrs - {r.cidr}
  }

  /** The interface after carrying out requests in order. */
  function Apply(addrs: set<string>, rs: seq<Request>): set<string>
    decreases |rs|
  {
    if rs == [] then addrs else Apply(ApplyOne(addrs, rs[0]), rs[1..])
  }

  lemma {:induction false} ApplyConcat(addrs: set<string>, rs: seq<Request>, ts: seq<Request>)
    ensures Apply(addrs, rs + ts) == Apply(Apply(addrs, rs), ts)
    decreases |rs|
  {
    if rs == [] {
      assert rs + ts == ts;
    } else {
      assert (rs + ts)[1..] == rs[1..] + ts;
      ApplyConcat(ApplyOne(addrs, rs[0]), rs[1..], ts);
    }
  }

  function CidrsOf(rs: seq<Request>): set<string> {
    set r | r in rs :: r.cidr
  }

  /** One request of a kind for each address, in any order. */
  ghost predicate IsBatch(rs: seq<Request>, assign: bool, cidrs: set<string>) {
    && |rs| == |cidrs| && CidrsOf(rs) == cidrs
    && forall r | r in rs :: r.assign == assign
  }

  lemma {:induction false} ApplyBatch(addrs: set<string>, rs: seq<Request>, assign: bool)
    requires forall r | r in rs :: r.assign == assign
    ensures Apply(addrs, rs) == if assign then addrs + CidrsOf(rs) else addrs - CidrsOf(rs)
    decreases |rs|
  {
    if rs == [] {
    } else {
      assert forall r | r in rs[1..] :: r in rs;
      ApplyBatch(ApplyOne(addrs, rs[0]), rs[1..], assign);
      assert forall r :: r in rs <==> r == rs[0] || r in rs[1..];
      assert CidrsOf(rs) == {rs[0].cidr} + CidrsOf(rs[1..]);
    }
  }

  ghost predicate FreshFrom(rs: seq<Request>, next: nat) {
    forall i :: 0 <= i < |rs| ==> rs[i].pointer == next + i
  }

  /** What a handler may send for given additions and removals: map iteration order decides
      nothing but the order within each group. */
  ghost predicate Emits(rs: seq<Request>, next: nat, adds: set<string>, dels: set<string>, mask: string) {
    && FreshFrom(rs, next)
    && exists k :: 0 <= k <= |rs| && IsBatch(rs[..k], true, Cidrs(adds, mask))
                   && IsBatch(rs[k..], false, Cidrs(dels, mask))
  }

  lemma ApplyEmitted(addrs: set<string>, rs: seq<Request>, next: nat, adds: set<string>, dels: set<string>,
                     mask: string)
    requires Emits(rs, next, adds, dels, mask)
    ensures Apply(addrs, rs) == addrs + Cidrs(adds, mask) - Cidrs(dels, mask)
  {
    var k :| 0 <= k <= |rs| && IsBatch(rs[..k], true, Cidrs(adds, mask)) && IsBatch(rs[k..], false, Cidrs(dels, mask));
    assert rs == rs[..k] + rs[k..];
    ApplyConcat(addrs, rs[..k], rs[k..]);
    ApplyBatch(addrs, rs[..k], true);
    ApplyBatch(Apply(addrs, rs[..k]), rs[k..], false);
  }

  // ----- Service events -----

  /** A service event: its object before and after, when there is one. */
  datatype Event = Event(key: string, was: Option<seq<string>>, cur: Option<seq<string>>)

  function EventOf(was: Option<Service>, cur: Option<Service>): Event
    requires was.Some? || cur.Some?
  {
    Event(if cur.Some? then cur.value.key else was.value.key,
          if was.Some? then Some(was.value.ips) else None,
          if cur.Some? then Some(cur.value.ips) else None)
  }

  function IpsOf(o: Option<seq<string>>): set<string> {
    if o.Some? then Ips(o.value) else {}
  }

  /** The store when the handler runs: already updated. */
  function StoreAfter(store: Store, e: Event): Store {
    if e.cur.Some? then store[e.key := e.cur.value] else store - {e.key}
  }

  /** The informer hands out as old object what the store held for the key. */
  predicate Matches(store: Store, e: Event) {
    e.was == if e.key in store then Some(store[e.key]) else None
  }

  function Additions(store: Store, e: Event): set<string> {
    IpsOf(e.cur) - IpsOf(e.was) - ListedByOthers(store, e.key)
  }

  function Removals(store: Store, e: Event): set<string> {
    IpsOf(e.was) - IpsOf(e.cur) - ListedByOthers(store, e.key)
  }

  lemma ListedSplits(store: Store, key: string)
    ensures Listed(store) == IpsOf(if key in store then Some(store[key]) else None) + ListedByOthers(store, key)
  {
    forall ip | ip in Listed(store) && ip !in ListedByOthers(store, key) ensures key in store && ip in store[key] {
      var k :| k in store && ip in store[k];
    }
  }

  lemma OthersAreUnchanged(store: Store, e: Event)
    ensures ListedByOthers(StoreAfter(store, e), e.key) == ListedByOthers(store, e.key)
  {
    var store' := StoreAfter(store, e);
    forall ip ensures ip in ListedByOthers(store', e.key) <==> ip in ListedByOthers(store, e.key) {
      if k :| k in store && k != e.key && ip in store[k] {
        assert k in store' && store'[k] == store[k];
      }
    }
  }

  /** The incremental difference is right: added to the old union it gives the new one. */
  lemma DifferenceUpdatesTheUnion(store: Store, e: Event, store': Store, mask: string)
    requires Matches(store, e) && store' == StoreAfter(store, e)
    ensures Wanted(store, mask) + Cidrs(Additions(store', e), mask) - Cidrs(Removals(store', e), mask)
         == Wanted(store', mask)
  {
    ListedSplits(store, e.key);
    ListedSplits(store', e.key);
    OthersAreUnchanged(store, e);
    var adds, dels := Additions(store', e), Removals(store', e);
    assert Listed(store) + adds - dels == Listed(store');
    forall c ensures c in Cidrs(Listed(store), mask) + Cidrs(adds, mask) - Cidrs(dels, mask)
                <==> c in Cidrs(Listed(store'), mask) {
      if ip, ip' :| ip in Listed(store') && c == Cidr(ip, mask) && ip' in dels && c == Cidr(ip', mask) {
        CidrIsInjective(ip, ip', mask);
      }
    }
  }

  /** The additions are exactly the addresses that became listed, the removals exactly those that
      no service lists any more. */
  lemma DifferencesAreExact(store: Store, e: Event, store': Store)
    requires Matches(store, e) && store' == StoreAfter(store, e)
    ensures Additions(store', e) == Listed(store') - Listed(store)
    ensures Removals(store', e) == Listed(store) - Listed(store')
  {
    ListedSplits(store, e.key);
    ListedSplits(store', e.key);
    OthersAreUnchanged(store, e);
  }

  // ----- The system -----

  /** The worker: idle, holding a request, or past the interface call. */
  datatype Worker = Idle | Holding(r: Request) | Applied(r: Request) | Failed(r: Request)

  datatype System = System(store: Store, q: State<Request>, worker: Worker, addrs: set<string>, next: nat)

  function Initial(): System {
    System(map[], Empty(), Idle, {}, 0)
  }

  ghost predicate Handles(s: System, s': System, e: Event, rs: seq<Request>, mask: string) {
    var store' := StoreAfter(s.store, e);
    && Matches(s.store, e)
    && Emits(rs, s.next, Additions(store', e), Removals(store', e), mask)
    && s' == s.(store := store', q := AddedAll(s.q, rs), next := s.next + |rs|)
  }

  predicate Takes(s: System, s': System) {
    && s.worker.Idle? && Taken(s.q).0.Item?
    && s' == s.(q := Taken(s.q).1, worker := Holding(Taken(s.q).0.item))
  }

  predicate Performs(s: System, s': System) {
    && s.worker.Holding?
    && s' == s.(addrs := ApplyOne(s.addrs, s.worker.r), worker := Applied(s.worker.r))
  }

  /** A failing call may still have added the address (its announcement failed), but does
      nothing else; the request goes back to the queue. */
  predicate Fails(s: System, s': System) {
    && s.worker.Holding?
    && (s'.addrs == s.addrs || (s.worker.r.assign && s'.addrs == ApplyOne(s.addrs, s.worker.r)))
    && s' == s.(q := WorkQueue.Added(s.q, s.worker.r), worker := Failed(s.worker.r), addrs := s'.addrs)
  }

  predicate Finishes(s: System, s': System) {
    && (s.worker.Applied? || s.worker.Failed?)
    && s' == s.(q := Finished(s.q, s.worker.r), worker := Idle)
  }

  // ----- Retries -----

  /** What the last request for an address asks, if there is one. */
  function LastAction(rs: seq<Request>, cidr: string): Option<bool> {
    if rs == [] then None
    else if rs[|rs| - 1].cidr == cidr then Some(rs[|rs| - 1].assign)
    else LastAction(rs[..|rs| - 1], cidr)
  }

  lemma {:induction false} LastActionDecides(addrs: set<string>, rs: seq<Request>, cidr: string)
    ensures cidr in Apply(addrs, rs)
       <==> if LastAction(rs, cidr).Some? then LastAction(rs, cidr).value else cidr in addrs
  {
    if rs == [] {
    } else {
      var front, last := rs[..|rs| - 1], rs[|rs| - 1];
      assert rs == front + [last];
      ApplyConcat(addrs, front, [last]);
      assert [last][1..] == [];
      LastActionDecides(addrs, front, cidr);
    }
  }

  /** No later request contradicts `r`. */
  predicate MayGoLast(r: Request, rs: seq<Request>) {
    LastAction(rs, r.cidr) == None || LastAction(rs, r.cidr) == Some(r.assign)
  }

  /** Retrying at the back of the queue is harmless exactly when no later request for the
      same address asks for the opposite. */
  lemma RetryAtTheBack(addrs: set<string>, r: Request, rs: seq<Request>)
    ensures Apply(addrs, [r] + rs) == Apply(addrs, rs + [r]) <==> MayGoLast(r, rs)
  {
    ApplyConcat(addrs, [r], rs);
    ApplyConcat(addrs, rs, [r]);
    assert [r][1..] == [];
    var first, last := Apply(ApplyOne(addrs, r), rs), ApplyOne(Apply(addrs, rs), r);
    LastActionDecides(ApplyOne(addrs, r), rs, r.cidr);
    forall c | c != r.cidr ensures c in first <==> c in last {
      LastActionDecides(ApplyOne(addrs, r), rs, c);
      LastActionDecides(addrs, rs, c);
    }
    if MayGoLast(r, rs) {
      assert first == last;
    } else {
      assert r.cidr in first <==> r.cidr !in last;
    }
  }

  // ----- Simulation -----

  /** What is still to be done to the interface, in order. */
  function Pending(s: System): seq<Request> {
    if s.worker.Holding? || s.worker.Failed? then [s.worker.r] + s.q.queue else s.q.queue
  }

  ghost predicate WellFormed(s: System) {
    && Exclusive(s.q) && !s.q.closed
    && (forall r | r in s.q.added + s.q.processing :: r.pointer < s.next)
    && s.q.processing == (if s.worker.Idle? then {} else {s.worker.r})
    && (s.worker.Failed? ==> s.worker.r in s.q.added)
    && (s.worker.Holding? || s.worker.Applied? ==> s.worker.r !in s.q.added)
  }

  /** The pending requests turn the interface into the union. */
  ghost predicate Simulates(s: System, mask: string) {
    WellFormed(s) && Apply(s.addrs, Pending(s)) == Wanted(s.store, mask)
  }

  lemma FreshRequestsAreNew(s: System, rs: seq<Request>)
    requires WellFormed(s) && FreshFrom(rs, s.next)
    ensures NoDuplicates(rs)
    ensures forall r | r in rs :: r !in s.q.added && r !in s.q.processing && r.pointer < s.next + |rs|
  {
    forall i, j | 0 <= i < j < |rs| ensures rs[i] != rs[j] {
      assert rs[i].pointer == s.next + i && rs[j].pointer == s.next + j;
    }
  }

  lemma FreshRequestsAreAppended(s: System, rs: seq<Request>)
    requires WellFormed(s) && FreshFrom(rs, s.next)
    ensures WellFormed(s.(q := AddedAll(s.q, rs), next := s.next + |rs|))
    ensures AddedAll(s.q, rs).queue == s.q.queue + rs
  {
    FreshRequestsAreNew(s, rs);
    NewItemsAreAppended(s.q, rs);
  }

  lemma EmittedUpdatesTheUnion(store: Store, e: Event, rs: seq<Request>, next: nat, mask: string)
    requires Matches(store, e)
    requires Emits(rs, next, Additions(StoreAfter(store, e), e), Removals(StoreAfter(store, e), e), mask)
    ensures Apply(Wanted(store, mask), rs) == Wanted(StoreAfter(store, e), mask)
  {
    var store' := StoreAfter(store, e);
    ApplyEmitted(Wanted(store, mask), rs, next, Additions(store', e), Removals(store', e), mask);
    DifferenceUpdatesTheUnion(store, e, store', mask);
  }

  /** The requests of an event come last. */
  lemma HandlerAppends(s: System, s': System, e: Event, rs: seq<Request>, mask: string)
    requires WellFormed(s) && Handles(s, s', e, rs, mask)
    ensures WellFormed(s') && Pending(s') == Pending(s) + rs
  {
    assert FreshFrom(rs, s.next);
    FreshRequestsAreAppended(s, rs);
    assert WellFormed(s'.(store := s.store));
  }

  lemma HandlerKeepsSimulation(s: System, s': System, e: Event, rs: seq<Request>, mask: string)
    requires Simulates(s, mask) && Handles(s, s', e, rs, mask)
    ensures Simulates(s', mask)
  {
    HandlerAppends(s, s', e, rs, mask);
    ApplyConcat(s.addrs, Pending(s), rs);
    EmittedUpdatesTheUnion(s.store, e, rs, s.next, mask);
  }

  lemma TakeKeepsSimulation(s: System, s': System, mask: string)
    requires Simulates(s, mask) && Takes(s, s')
    ensures Simulates(s', mask)
  {
    TakenFromExclusive(s.q);
    assert Pending(s') == Pending(s);
  }

  lemma CallKeepsSimulation(s: System, s': System, mask: string)
    requires Simulates(s, mask) && (Performs(s, s') || Fails(s, s'))
    ensures Simulates(s', mask)
  {
    var r := s.worker.r;
    assert ([r] + s.q.queue)[1..] == s.q.queue;
    if Fails(s, s') {
      StepKeepsOrder(s.q, Add(r));
      assert ApplyOne(s'.addrs, r) == ApplyOne(s.addrs, r);
    }
  }

  /** A failed item does not go behind one that contradicts it; no other step is harmful. */
  predicate Harmless(s: System, s': System) {
    Finishes(s, s') && s.worker.Failed? ==> MayGoLast(s.worker.r, s.q.queue)
  }

  /** The end of an item keeps the simulation exactly when it is harmless. */
  lemma FinishKeepsSimulationIff(s: System, s': System, mask: string)
    requires Simulates(s, mask) && Finishes(s, s')
    ensures Simulates(s', mask) <==> (s.worker.Failed? ==> MayGoLast(s.worker.r, s.q.queue))
  {
    StepKeepsOrder(s.q, Done(s.worker.r));
    assert WellFormed(s');
    if s.worker.Failed? {
      RetryAtTheBack(s.addrs, s.worker.r, s.q.queue);
    }
  }

  /** One step of the handlers or the worker. */
  ghost predicate Next(s: System, s': System, mask: string) {
    || (exists e, rs :: Handles(s, s', e, rs, mask))
    || Takes(s, s') || Performs(s, s') || Fails(s, s') || Finishes(s, s')
  }

  lemma StepKeepsSimulationIff(s: System, s': System, mask: string)
    requires Simulates(s, mask) && Next(s, s', mask)
    ensures Simulates(s', mask) <==> Harmless(s, s')
  {
    if e, rs :| Handles(s, s', e, rs, mask) {
      HandlerKeepsSimulation(s, s', e, rs, mask);
    } else if Takes(s, s') {
      TakeKeepsSimulation(s, s', mask);
    } else if Performs(s, s') || Fails(s, s') {
      CallKeepsSimulation(s, s', mask);
    } else {
      FinishKeepsSimulationIff(s, s', mask);
    }
  }

  ghost predicate NextAt(run: seq<System>, mask: string, i: nat)
    requires i + 1 < |run|
  {
    Next(run[i], run[i + 1], mask)
  }

  ghost predicate IsRun(run: seq<System>, mask: string) {
    && run != [] && run[0] == Initial()
    && forall i :: 0 <= i < |run| - 1 ==> NextAt(run, mask, i)
  }

  /** At each of the first k + 1 points the pending requests lead to the union of the services
      in the store. */
  ghost predicate SimulatesTo(run: seq<System>, mask: string, k: nat)
    requires k < |run|
  {
    (k == 0 || SimulatesTo(run, mask, k - 1)) && Simulates(run[k], mask)
  }

  predicate HarmlessTo(run: seq<System>, k: nat)
    requires k < |run|
  {
    k == 0 || (HarmlessTo(run, k - 1) && Harmless(run[k - 1], run[k]))
  }

  /** On every run from an empty interface the pending requests lead to the union exactly as
      long as no failed item goes behind one that contradicts it. */
  lemma {:induction false} InterfaceFollowsTheStore(run: seq<System>, mask: string, k: nat)
    requires IsRun(run, mask) && k < |run|
    ensures SimulatesTo(run, mask, k) <==> HarmlessTo(run, k)
  {
    if k > 0 {
      InterfaceFollowsTheStore(run, mask, k - 1);
      assert NextAt(run, mask, k - 1);
      if SimulatesTo(run, mask, k - 1) {
        StepKeepsSimulationIff(run[k - 1], run[k], mask);
      }
    }
  }

  /** The request is for one of the addresses: that stands before the slash, the mask after it. */
  predicate IsFor(r: Request, ips: set<string>, mask: string) {
    exists ip | ip in ips :: Split(r.cidr, '/') == [ip, mask]
  }

  predicate HasRequest(rs: seq<Request>, assign: bool, ip: string, mask: string) {
    exists r | r in rs :: r.assign == assign && Split(r.cidr, '/') == [ip, mask]
  }

  /** The requests of an event are one assignment for each added address and one removal for
      each dropped one. */
  lemma RequestTexts(rs: seq<Request>, next: nat, adds: set<string>, dels: set<string>, mask: string)
    requires Emits(rs, next, adds, dels, mask)
    requires '/' !in mask && forall ip | ip in adds + dels :: '/' !in ip
    ensures |rs| == |adds| + |dels|
    ensures forall r | r in rs :: IsFor(r, if r.assign then adds else dels, mask)
    ensures forall ip | ip in adds :: HasRequest(rs, true, ip, mask)
    ensures forall ip | ip in dels :: HasRequest(rs, false, ip, mask)
  {
    var k :| 0 <= k <= |rs| && IsBatch(rs[..k], true, Cidrs(adds, mask)) && IsBatch(rs[k..], false, Cidrs(dels, mask));
    assert rs == rs[..k] + rs[k..];
    BatchTexts(rs[..k], true, adds, mask);
    BatchTexts(rs[k..], false, dels, mask);
    forall ip | ip in adds ensures HasRequest(rs, true, ip, mask) {
      MoreRequests(rs[..k], rs, true, ip, mask);
    }
    forall ip | ip in dels ensures HasRequest(rs, false, ip, mask) {
      MoreRequests(rs[k..], rs, false, ip, mask);
    }
  }

  /** A service event queues one request for each address whose listing it changes: to assign
      it if it became listed, and to remove it if no service lists it any more. */
  lemma EventRequests(s: System, s': System, e: Event, rs: seq<Request>, mask: string)
    requires WellFormed(s) && Handles(s, s', e, rs, mask)
    requires '/' !in mask && forall ip | ip in Listed(s.store) + Listed(s'.store) :: '/' !in ip
    ensures var adds, dels := Listed(s'.store) - Listed(s.store), Listed(s.store) - Listed(s'.store);
            && Pending(s') == Pending(s) + rs && |rs| == |adds| + |dels|
            && (forall r | r in rs :: IsFor(r, if r.assign then adds else dels, mask))
            && (forall ip | ip in adds :: HasRequest(rs, true, ip, mask))
            && (forall ip | ip in dels :: HasRequest(rs, false, ip, mask))
  {
    DifferencesAreExact(s.store, e, s'.store);
    HandlerAppends(s, s', e, rs, mask);
    RequestTexts(rs, s.next, Additions(s'.store, e), Removals(s'.store, e), mask);
  }

  lemma MoreRequests(rs: seq<Request>, ts: seq<Request>, assign: bool, ip: string, mask: string)
    requires HasRequest(rs, assign, ip, mask) && forall r | r in rs :: r in ts
    ensures HasRequest(ts, assign, ip, mask)
  {
  }

  lemma BatchTexts(rs: seq<Request>, assign: bool, ips: set<string>, mask: string)
    requires IsBatch(rs, assign, Cidrs(ips, mask)) && '/' !in mask && forall ip | ip in ips :: '/' !in ip
    ensures |rs| == |ips|
    ensures forall r | r in rs :: r.assign == assign && IsFor(r, ips, mask)
    ensures forall ip | ip in ips :: HasRequest(rs, assign, ip, mask)
  {
    forall r | r in rs ensures IsFor(r, ips, mask) {
      assert r.cidr in CidrsOf(rs);
      TextsSplit(ips, mask, r.cidr);
    }
    forall ip | ip in ips ensures HasRequest(rs, assign, ip, mask) {
      assert Cidr(ip, mask) in CidrsOf(rs);
      var r :| r in rs && r.cidr == Cidr(ip, mask);
      CidrIsClaimText(ip, mask);
      Naming.CidrRoundTrip(ip, mask);
    }
    AsManyTexts(ips, mask);
  }

  lemma {:induction false} AsManyTexts(ips: set<string>, mask: string)
    ensures |Cidrs(ips, mask)| == |ips|
    decreases |ips|
  {
    if ips != {} {
      var ip :| ip in ips;
      var rest := ips - {ip};
      AsManyTexts(rest, mask);
      assert Cidrs(ips, mask) == Cidrs(rest, mask) + {Cidr(ip, mask)};
      if Cidr(ip, mask) in Cidrs(rest, mask) {
        var ip' :| ip' in rest && Cidr(ip', mask) == Cidr(ip, mask);
        CidrIsInjective(ip, ip', mask);
      }
    }
  }

  /** So whenever nothing is pending the interface is that union. */
  lemma DrainedInterfaceIsTheUnion(s: System, mask: string)
    requires Simulates(s, mask) && Pending(s) == []
    ensures s.addrs == Wanted(s.store, mask)
  {
  }

  /** Then the interface holds exactly the texts that a slash splits into an address some
      service lists and the mask. */
  lemma DrainedInterfaceTexts(s: System, mask: string, text: string)
    requires Simulates(s, mask) && Pending(s) == []
    requires '/' !in mask && forall k, ip | k in s.store && ip in s.store[k] :: '/' !in ip
    ensures text in s.addrs
       <==> exists k, ip | k in s.store && ip in s.store[k] :: Split(text, '/') == [ip, mask]
  {
    DrainedInterfaceIsTheUnion(s, mask);
    TextsSplit(Listed(s.store), mask, text);
  }

  /** One request for the address of the only service. */
  lemma EmitsOne(next: nat, assign: bool, ip: string, mask: string)
    ensures var r := Request(next, assign, Cidr(ip, mask));
            Emits([r], next, if assign then {ip} else {}, if assign then {} else {ip}, mask)
  {
    var r := Request(next, assign, Cidr(ip, mask));
    assert Cidrs({ip}, mask) == {r.cidr} && Cidrs({}, mask) == {};
    assert CidrsOf([r]) == {r.cidr} && CidrsOf([]) == {};
    var k := if assign then 1 else 0;
    assert [r][..k] == (if assign then [r] else []) && [r][k..] == if assign then [] else [r];
    assert IsBatch([r][..k], true, Cidrs(if assign then {ip} else {}, mask));
  }

  /** The first service lists an address. */
  lemma FirstService(key: string, ip: string, mask: string)
    ensures var add := Request(0, true, Cidr(ip, mask));
            var s := System(map[key := [ip]], State({add}, {}, false, [add]), Idle, {}, 1);
            Handles(Initial(), s, Event(key, None, Some([ip])), [add], mask)
  {
    var e, add := Event(key, None, Some([ip])), Request(0, true, Cidr(ip, mask));
    EmitsOne(0, true, ip, mask);
    assert Additions(StoreAfter(map[], e), e) == {ip} && Removals(StoreAfter(map[], e), e) == {};
    AddedOne(Initial().q, add);
  }

  lemma OnlyAddress(key: string, ip: string)
    ensures var e: Event := Event(key, Some([ip]), None);
            && StoreAfter(map[key := [ip]], e) == map[] && Matches(map[key := [ip]], e)
            && Additions(map[], e) == {} && Removals(map[], e) == {ip}
  {
    var e: Event := Event(key, Some([ip]), None);
    assert Ips([ip]) == {ip} && ListedByOthers(map[], key) == {};
  }

  /** It is deleted while its request is in process. */
  lemma OnlyServiceGone(key: string, ip: string, mask: string)
    ensures var add, del := Request(0, true, Cidr(ip, mask)), Request(1, false, Cidr(ip, mask));
            var s := System(map[key := [ip]], State({}, {add}, false, []), Holding(add), {}, 1);
            var s' := System(map[], State({del}, {add}, false, [del]), Holding(add), {}, 2);
            Handles(s, s', Event(key, Some([ip]), None), [del], mask)
  {
    var add, del := Request(0, true, Cidr(ip, mask)), Request(1, false, Cidr(ip, mask));
    EmitsOne(1, false, ip, mask);
    OnlyAddress(key, ip);
    AddedOne(State({}, {add}, false, []), del);
    assert [] + [del] == [del];
  }

  lemma HandlingIsNext(s: System, s': System, e: Event, r: Request, mask: string)
    requires Handles(s, s', e, [r], mask)
    ensures Next(s, s', mask)
  {
  }

  lemma RunGoesOn(run: seq<System>, s: System, s': System, mask: string)
    requires IsRun(run, mask) && run[|run| - 1] == s && Next(s, s', mask)
    ensures IsRun(run + [s'], mask)
  {
    forall i | 0 <= i < |run| ensures NextAt(run + [s'], mask, i) {
      assert i < |run| - 1 ==> NextAt(run, mask, i);
    }
  }

  /** A run on which the first service lists an address and the worker takes its request. */
  lemma AssignmentTaken(key: string, ip: string, mask: string) returns (run: seq<System>)
    ensures var add := Request(0, true, Cidr(ip, mask));
            && IsRun(run, mask)
            && run[|run| - 1] == System(map[key := [ip]], State({}, {add}, false, []), Holding(add), {}, 1)
  {
    var add := Request(0, true, Cidr(ip, mask));
    var s1 := System(map[key := [ip]], State({add}, {}, false, [add]), Idle, {}, 1);
    var s2 := System(map[key := [ip]], State({}, {add}, false, []), Holding(add), {}, 1);
    FirstService(key, ip, mask);
    HandlingIsNext(Initial(), s1, Event(key, None, Some([ip])), add, mask);
    RunGoesOn([Initial()], Initial(), s1, mask);
    assert Takes(s1, s2);
    RunGoesOn([Initial()] + [s1], s1, s2, mask);
    run := [Initial()] + [s1] + [s2];
  }

  /** The service is deleted while its assignment is failing. */
  lemma DeletedWhileFailing(key: string, ip: string, mask: string) returns (run: seq<System>)
    ensures var add, del := Request(0, true, Cidr(ip, mask)), Request(1, false, Cidr(ip, mask));
            && IsRun(run, mask)
            && run[|run| - 1] == System(map[], State({add, del}, {add}, false, [del]), Failed(add), {}, 2)
  {
    var add, del := Request(0, true, Cidr(ip, mask)), Request(1, false, Cidr(ip, mask));
    var s2 := System(map[key := [ip]], State({}, {add}, false, []), Holding(add), {}, 1);
    var s3 := System(map[], State({del}, {add}, false, [del]), Holding(add), {}, 2);
    var s4 := System(map[], State({add, del}, {add}, false, [del]), Failed(add), {}, 2);
    run := AssignmentTaken(key, ip, mask);
    OnlyServiceGone(key, ip, mask);
    HandlingIsNext(s2, s3, Event(key, Some([ip]), None), del, mask);
    RunGoesOn(run, s2, s3, mask);
    assert Fails(s3, s4);
    RunGoesOn(run + [s3], s3, s4, mask);
    run := run + [s3] + [s4];
  }

  /** The worker takes the first item, succeeds and is done with it. */
  lemma OneItemDone(run: seq<System>, s: System, mask: string) returns (more: seq<System>, t: System)
    requires IsRun(run, mask) && run[|run| - 1] == s && s.worker.Idle?
    requires Exclusive(s.q) && s.q.processing == {} && s.q.queue != []
    ensures IsRun(more, mask) && more[|more| - 1] == t
    ensures var x := s.q.queue[0];
            t == s.(q := State(s.q.added - {x}, {}, s.q.closed, s.q.queue[1..]), addrs := ApplyOne(s.addrs, x))
  {
    var x := s.q.queue[0];
    TakenFromExclusive(s.q);
    var s1 := s.(q := Taken(s.q).1, worker := Holding(x));
    var s2 := s1.(addrs := ApplyOne(s.addrs, x), worker := Applied(x));
    t := s2.(q := Finished(s1.q, x), worker := Idle);
    RunGoesOn(run, s, s1, mask);
    RunGoesOn(run + [s1], s1, s2, mask);
    RunGoesOn(run + [s1] + [s2], s2, t, mask);
    more := run + [s1] + [s2] + [t];
  }

  /** The retried assignment comes behind the removal of its address: with everything done and
      nothing stored, the address is on the interface. */
  lemma LateRetryLeaksTheAddress(key: string, ip: string, mask: string) returns (run: seq<System>, s: System)
    ensures IsRun(run, mask) && run[|run| - 1] == s && Pending(s) == []
    ensures s.store == map[] && s.addrs == {Cidr(ip, mask)}
  {
    var add, del := Request(0, true, Cidr(ip, mask)), Request(1, false, Cidr(ip, mask));
    run := DeletedWhileFailing(key, ip, mask);
    var failed := System(map[], State({add, del}, {add}, false, [del]), Failed(add), {}, 2);
    s := System(map[], State({add, del}, {}, false, [del, add]), Idle, {}, 2);
    assert [del] + [add] == [del, add];
    RunGoesOn(run, failed, s, mask);
    run, s := OneItemDone(run + [s], s, mask);
    assert s == System(map[], State({add}, {}, false, [add]), Idle, {}, 2);
    run, s := OneItemDone(run, s, mask);
  }

  // ----- The controller -----

  class ExternalIpController {
    const mask: string
    const ipHandler: Link
    const queue: Queue<Request>
    var next: nat

    constructor (mask: string, ipHandler: Link, queue: Queue<Request>)
      ensures this.mask == mask && this.ipHandler == ipHandler && this.queue == queue && next == 0
    {
      this.mask, this.ipHandler, this.queue, next := mask, ipHandler, queue, 0;
    }

    method BoolMapDifference(minuend: set<string>, subtrahend: set<string>) returns (difference: set<string>)
      ensures difference == minuend - subtrahend
    {
      difference := {};
      var rest := minuend;
      while rest != {}
        invariant rest <= minuend
        invariant difference == (minuend - rest) - subtrahend
      {
        var key :| key in rest;
        if key !in subtrahend {
          difference := difference + {key};
        }
        rest := rest - {key};
      }
    }

    /** Deletes the addresses that some other service lists. */
    method NeglectIPsInUse(ips: set<string>, key: string, store: Store) returns (left: set<string>)
      ensures left == ips - ListedByOthers(store, key)
    {
      left := ips;
      ghost var seen := {};
      var rest := store.Keys;
      while rest != {}
        invariant rest <= store.Keys && seen == store.Keys - rest
        invariant left == ips - ListedByOthers(map k | k in seen :: store[k], key)
      {
        var svcKey :| svcKey in rest;
        if svcKey != key {
          var listed := store[svcKey];
          ghost var before := left;
          for i := 0 to |listed|
            invariant left == before - Ips(listed[..i])
          {
            left := left - {listed[i]};
            assert listed[..i + 1] == listed[..i] + [listed[i]];
          }
          assert listed[..|listed|] == listed;
        }
        ghost var was := map k | k in seen :: store[k];
        seen := seen + {svcKey};
        OneMoreService(was, map k | k in seen :: store[k], svcKey, key);
        rest := rest - {svcKey};
      }
      assert (map k | k in seen :: store[k]) == store;
    }

    /** Queues one request per address, in the order in which the map is iterated. */
    method EnqueueRequests(ips: set<string>, assign: bool) returns (ghost rs: seq<Request>)
      modifies this`next, queue
      ensures next == old(next) + |rs| && FreshFrom(rs, old(next))
      ensures IsBatch(rs, assign, Cidrs(ips, mask))
      ensures queue.View() == AddedAll(old(queue.View()), rs)
    {
      rs := [];
      var rest := ips;
      assert CidrsOf(rs) == {};
      while rest != {}
        invariant rest <= ips
        invariant next == old(next) + |rs| && FreshFrom(rs, old(next))
        invariant IsBatch(rs, assign, Cidrs(ips - rest, mask))
        invariant queue.View() == AddedAll(old(queue.View()), rs)
      {
        var ip :| ip in rest;
        ghost var done := ips - rest;
        var r := Request(next, assign, ip + "/" + mask);
        queue.Add(r);
        AddedAllSnoc(old(queue.View()), rs, r);
        OneMoreRequest(rs, r, assign, done, ip, mask);
        next := next + 1;
        rs := rs + [r];
        rest := rest - {ip};
        assert ips - rest == done + {ip};
      }
      assert ips - rest == ips;
    }

    method ProcessServiceExternalIPs(was: Option<Service>, cur: Option<Service>, store: Store)
      returns (ghost rs: seq<Request>)
      requires was.Some? || cur.Some?
      modifies this`next, queue
      ensures var e := EventOf(was, cur);
              Emits(rs, old(next), Additions(store, e), Removals(store, e), mask)
      ensures next == old(next) + |rs| && queue.View() == AddedAll(old(queue.View()), rs)
    {
      ghost var e := EventOf(was, cur);
      var oldIps: set<string>, curIps: set<string>, key := {}, {}, "";
      if was.Some? {
        for i := 0 to |was.value.ips|
          invariant oldIps == Ips(was.value.ips[..i])
        {
          oldIps := oldIps + {was.value.ips[i]};
          assert was.value.ips[..i + 1] == was.value.ips[..i] + [was.value.ips[i]];
        }
        assert was.value.ips[..|was.value.ips|] == was.value.ips;
        key := was.value.key;
      }
      if cur.Some? {
        for i := 0 to |cur.value.ips|
          invariant curIps == Ips(cur.value.ips[..i])
        {
          curIps := curIps + {cur.value.ips[i]};
          assert cur.value.ips[..i + 1] == cur.value.ips[..i] + [cur.value.ips[i]];
        }
        assert cur.value.ips[..|cur.value.ips|] == cur.value.ips;
        key := cur.value.key;
      }
      assert oldIps == IpsOf(e.was) && curIps == IpsOf(e.cur) && key == e.key;
      if curIps == oldIps {
        rs := [];
        NothingToSend(next, mask);
        assert Additions(store, e) == {} && Removals(store, e) == {};
        return;
      }
      var toAdd := BoolMapDifference(curIps, oldIps);
      var toRemove := BoolMapDifference(oldIps, curIps);
      toAdd := NeglectIPsInUse(toAdd, key, store);
      toRemove := NeglectIPsInUse(toRemove, key, store);
      assert toAdd == Additions(store, e) && toRemove == Removals(store, e);
      ghost var adds := EnqueueRequests(toAdd, true);
      ghost var dels := EnqueueRequests(toRemove, false);
      rs := adds + dels;
      AddedAllConcat(old(queue.View()), adds, dels);
      assert rs[..|adds|] == adds && rs[|adds|..] == dels;
    }

    /** One item, `Done` included. */
    method ProcessItem(item: Request) returns (err: bool)
      requires ipHandler as object != queue
      modifies ipHandler, queue
      ensures (ipHandler.addrs, err)
           == if item.assign then Assigned(old(ipHandler.addrs), item.cidr, FaultOf(old(ipHandler.Faults()), item.cidr))
              else Unassigned(old(ipHandler.addrs), item.cidr, FaultOf(old(ipHandler.Faults()), item.cidr))
      ensures queue.View()
           == Finished(if err then WorkQueue.Added(old(queue.View()), item) else old(queue.View()), item)
    {
      if item.assign {
        err := ipHandler.EnsureIPAssigned(item.cidr);
      } else {
        err := ipHandler.EnsureIPUnassigned(item.cidr);
      }
      if err {
        queue.Add(item);
      }
      queue.Done(item);
    }
  }

  lemma OneMoreService(before: Store, after: Store, svcKey: string, key: string)
    requires svcKey !in before && svcKey in after && after == before[svcKey := after[svcKey]]
    ensures ListedByOthers(after, key)
         == ListedByOthers(before, key) + if svcKey != key then Ips(after[svcKey]) else {}
  {
    var added := if svcKey != key then Ips(after[svcKey]) else {};
    forall ip ensures ip in ListedByOthers(after, key) <==> ip in ListedByOthers(before, key) || ip in added {
      if k :| k in before && k != key && ip in before[k] {
        assert k in after && after[k] == before[k];
      }
    }
  }

  lemma OneMoreRequest(rs: seq<Request>, r: Request, assign: bool, ips: set<string>, ip: string, mask: string)
    requires IsBatch(rs, assign, Cidrs(ips, mask)) && ip !in ips
    requires r.assign == assign && r.cidr == Cidr(ip, mask)
    ensures IsBatch(rs + [r], assign, Cidrs(ips + {ip}, mask))
  {
    assert Cidrs(ips + {ip}, mask) == Cidrs(ips, mask) + {r.cidr};
    if r.cidr in Cidrs(ips, mask) {
      var ip' :| ip' in ips && Cidr(ip', mask) == r.cidr;
      CidrIsInjective(ip, ip', mask);
    }
    assert CidrsOf(rs + [r]) == CidrsOf(rs) + {r.cidr};
  }

  lemma NothingToSend(next: nat, mask: string)
    ensures Emits([], next, {}, {}, mask)
  {
    var rs: seq<Request> := [];
    assert IsBatch(rs[..0], true, Cidrs({}, mask)) && IsBatch(rs[0..], false, Cidrs({}, mask)) by {
      assert Cidrs({}, mask) == {} && CidrsOf(rs) == {};
      assert rs[..0] == [] && rs[0..] == [];
    }
  }

  /** A call of the link is one of the worker's steps of the system. */
  lemma ItemIsAStep(s: System, fault: seq<Fault>)
    requires WellFormed(s) && s.worker.Holding?
    ensures var r := s.worker.r;
            var (addrs, err) :=
              if r.assign then Assigned(s.addrs, r.cidr, fault) else Unassigned(s.addrs, r.cidr, fault);
            if err then Fails(s, System(s.store, WorkQueue.Added(s.q, r), Failed(r), addrs, s.next))
            else Performs(s, System(s.store, s.q, Applied(r), addrs, s.next))
  {
  }
}
