/** The claim controller of a node (pkg/claimcontroller/controller.go): it is driven by
    snapshots of claims and brings the node's interface in line with them. */
module ClaimController {
  import opened WorkQueue
  import opened QueueRuns
  import opened NetUtils
  import opened Cluster
  import opened Strings
  import Liveness

  /** A claim object as the informer hands it out; queue items are equal only if the pointers are. */
  datatype Cached = Cached(pointer: nat, claim: Claim)

  datatype Controller = Controller(uid: string, store: map<string, Cached>, queue: State<Cached>,
                                   addrs: set<string>, faults: map<string, seq<Fault>>)

  // ----- Faults to come -----

  ghost function Total(faults: map<string, seq<Fault>>): nat {
    if faults == map[] then 0
    else
      var k :| k in faults;
      |faults[k]| + Total(faults - {k})
  }

  lemma {:induction false} TotalWithout(faults: map<string, seq<Fault>>, k: string)
    requires k in faults
    ensures Total(faults) == |faults[k]| + Total(faults - {k})
    decreases |faults|
  {
    var j :| j in faults && Total(faults) == |faults[j]| + Total(faults - {j});
    if j != k {
      TotalWithout(faults - {j}, k);
      TotalWithout(faults - {k}, j);
      assert faults - {j} - {k} == faults - {k} - {j};
    }
  }

  lemma ConsumingIsProgress(faults: map<string, seq<Fault>>, cidr: string)
    ensures Total(Consumed(faults, cidr)) == Total(faults) - |FaultOf(faults, cidr)|
  {
    if cidr in faults && faults[cidr] != [] {
      var t := Consumed(faults, cidr);
      TotalWithout(faults, cidr);
      TotalWithout(t, cidr);
      assert t - {cidr} == faults - {cidr};
    }
  }

  // ----- One iteration of the worker -----

  /** The address belongs on this node: the claim is still stored and its snapshot names it. */
  predicate Wanted(c: Controller, item: Cached) {
    item.claim.name in c.store && item.claim.node == c.uid
  }

  /** processClaim: the interface afterwards, and whether it failed. */
  function Reconciled(c: Controller, item: Cached): (set<string>, bool) {
    var fault := FaultOf(c.faults, item.claim.cidr);
    if Wanted(c, item) then Assigned(c.addrs, item.claim.cidr, fault)
    else Unassigned(c.addrs, item.claim.cidr, fault)
  }

  function Worked(c: Controller): (r: Controller)
    requires Taken(c.queue).0.Item?
  {
    var (got, q) := Taken(c.queue);
    var (addrs, err) := Reconciled(c, got.item);
    c.(queue := Finished(if err then Added(q, got.item) else q, got.item),
       addrs := addrs, faults := Consumed(c.faults, got.item.claim.cidr))
  }

  /** The worker until it quits or waits. */
  ghost function Drained(c: Controller): Controller
    requires Exclusive(c.queue)
    decreases Total(c.faults), |c.queue.added|
  {
    if c.queue.queue == [] then c
    else
      WorkedAdvances(c);
      Drained(Worked(c))
  }

  /** One iteration: the first item succeeds and is done with, or goes to the back of an open
      queue having used up a fault. */
  lemma WorkedAdvances(c: Controller)
    requires Exclusive(c.queue) && c.queue.queue != []
    ensures Taken(c.queue).0 == Item(c.queue.queue[0]) && c.queue.queue[0] in c.queue.added
    ensures var x, t := c.queue.queue[0], Worked(c);
            var again := Reconciled(c, x).1 && !c.queue.closed;
            && Exclusive(t.queue) && t.queue.closed == c.queue.closed && t.queue.processing == c.queue.processing
            && t.queue.queue == c.queue.queue[1..] + (if again then [x] else [])
            && t.queue.added == (if again then c.queue.added else c.queue.added - {x})
            && (again ==> Total(t.faults) < Total(c.faults)) && Total(t.faults) <= Total(c.faults)
            && |t.queue.added| == |c.queue.added| - if again then 0 else 1
  {
    var x := c.queue.queue[0];
    TurnOnQueue(c.queue, Reconciled(c, x).1);
    ConsumingIsProgress(c.faults, x.claim.cidr);
  }

  /** Once closed, the worker quits after exactly as many iterations as items are pending,
      whether they fail or not. */
  lemma ClosedQueueShrinks(c: Controller)
    requires Exclusive(c.queue) && c.queue.queue != [] && c.queue.closed
    ensures |Worked(c).queue.added| == |c.queue.added| - 1
    ensures Worked(c).queue.queue == c.queue.queue[1..]
  {
    WorkedAdvances(c);
    assert c.queue.queue[1..] + [] == c.queue.queue[1..];
  }

  // ----- Events -----

  function Resynced(c: Controller, order: seq<Cached>): Controller {
    c.(queue := AddedAll(c.queue, order))
  }

  /** The informer lists its store in some order. */
  ghost predicate ListsStore(c: Controller, order: seq<Cached>) {
    && NoDuplicates(order)
    && forall item :: item in order <==> item.claim.name in c.store && c.store[item.claim.name] == item
  }

  /** The store is keyed by claim name, and no two claims have the same address. */
  ghost predicate ProperStore(store: map<string, Cached>) {
    && (forall n | n in store :: store[n].claim.name == n)
    && forall m, n | m in store && n in store && m != n :: store[m].claim.cidr != store[n].claim.cidr
  }

  // ----- Convergence -----

  /** The interface is right about a claim. */
  predicate Settled(c: Controller, item: Cached) {
    item.claim.cidr in c.addrs <==> item.claim.node == c.uid
  }

  /** Every stored claim is settled or pending, nothing else is pending, and other addresses
      are as they were in `addrs`. */
  ghost predicate Converging(c: Controller, addrs: set<string>) {
    && Exclusive(c.queue) && !c.queue.closed && c.queue.processing == {} && ProperStore(c.store)
    && (forall item | item in c.queue.added :: item.claim.name in c.store && c.store[item.claim.name] == item)
    && (forall n | n in c.store :: c.store[n] in c.queue.added || Settled(c, c.store[n]))
    && forall x | !IsClaimed(c.store, x) :: x in c.addrs <==> x in addrs
  }

  predicate IsClaimed(store: map<string, Cached>, x: string) {
    exists n | n in store :: store[n].claim.cidr == x
  }

  lemma WorkedSettles(c: Controller)
    requires Exclusive(c.queue) && c.queue.queue != [] && !c.queue.closed
    requires c.queue.queue[0].claim.name in c.store
    ensures var x, t := c.queue.queue[0], Worked(c);
            && Taken(c.queue).0.Item?
            && (x in t.queue.added || Settled(t, x))
            && (forall y | y != x.claim.cidr :: y in t.addrs <==> y in c.addrs)
            && t.uid == c.uid && t.store == c.store
            && c.queue.added - {x} <= t.queue.added <= c.queue.added
            && Exclusive(t.queue) && !t.queue.closed && t.queue.processing == c.queue.processing
  {
    WorkedAdvances(c);
  }

  lemma OthersStaySettled(c: Controller, t: Controller, x: Cached)
    requires ProperStore(c.store) && x.claim.name in c.store && c.store[x.claim.name] == x
    requires t.uid == c.uid && t.store == c.store && forall y | y != x.claim.cidr :: y in t.addrs <==> y in c.addrs
    requires c.queue.added - {x} <= t.queue.added && (x in t.queue.added || Settled(t, x))
    requires forall n | n in c.store :: c.store[n] in c.queue.added || Settled(c, c.store[n])
    ensures forall n | n in t.store :: t.store[n] in t.queue.added || Settled(t, t.store[n])
  {
    forall n | n in t.store ensures t.store[n] in t.queue.added || Settled(t, t.store[n]) {
      if n != x.claim.name {
        assert t.store[n].claim.cidr != x.claim.cidr;
      }
    }
  }

  lemma WorkedConverges(c: Controller, addrs: set<string>)
    requires Converging(c, addrs) && c.queue.queue != []
    ensures Taken(c.queue).0.Item? && Converging(Worked(c), addrs)
  {
    var x := c.queue.queue[0];
    assert x in c.queue.queue && x in c.queue.added;
    assert c.store[x.claim.name] == x;
    WorkedSettles(c);
    OthersStaySettled(c, Worked(c), x);
    assert IsClaimed(c.store, x.claim.cidr);
  }

  lemma {:induction false} DrainConverges(c: Controller, addrs: set<string>)
    requires Converging(c, addrs)
    ensures Converging(Drained(c), addrs) && Drained(c).queue.queue == []
    ensures Drained(c).uid == c.uid && Drained(c).store == c.store
    decreases Total(c.faults), |c.queue.added|
  {
    if c.queue.queue != [] {
      WorkedAdvances(c);
      WorkedConverges(c, addrs);
      DrainConverges(Worked(c), addrs);
    }
  }

  lemma {:induction false} AddingAllIsConverging(c: Controller, rest: seq<Cached>, addrs: set<string>)
    requires NoDuplicates(rest) && Exclusive(c.queue) && !c.queue.closed && c.queue.processing == {}
    requires forall x | x in rest :: x !in c.queue.added
    ensures var q := AddedAll(c.queue, rest);
            Exclusive(q) && !q.closed && q.processing == {} && q.added == c.queue.added + Elements(rest)
  {
    NewItemsAreAppended(c.queue, rest);
  }

  /** From any interface, with an idle worker and any finitely many faults, one resync of all
      stored claims drains to an interface that holds the address of a stored claim exactly
      when the claim names this node, and is otherwise unchanged. */
  lemma ResyncConverges(c: Controller, order: seq<Cached>)
    requires c.queue == Empty() && ProperStore(c.store) && ListsStore(c, order)
    ensures Exclusive(Resynced(c, order).queue)
    ensures var d := Drained(Resynced(c, order));
            && d.queue.added == {} && d.store == c.store
            && (forall n | n in c.store :: c.store[n].claim.cidr in d.addrs <==> c.store[n].claim.node == c.uid)
            && (forall x | !IsClaimed(c.store, x) :: x in d.addrs <==> x in c.addrs)
  {
    var t := Resynced(c, order);
    AddingAllIsConverging(c, order, c.addrs);
    assert Converging(t, c.addrs) by {
      forall n | n in c.store ensures c.store[n] in t.queue.added {
        assert c.store[n] in order;
      }
    }
    DrainConverges(t, c.addrs);
  }

  // ----- Several nodes -----

  /** The controllers' stores all hold the claims of the API. */
  ghost predicate HoldsClaims(store: map<string, Cached>, claims: map<string, Claim>) {
    store.Keys == claims.Keys && forall n | n in claims :: store[n].claim == claims[n]
  }

  /** What one resync and a drain make of each controller. */
  ghost predicate Resyncs(c: Controller, d: Controller) {
    && c.queue == Empty() && ProperStore(c.store)
    && exists order :: ListsStore(c, order) && Exclusive(Resynced(c, order).queue) && d == Drained(Resynced(c, order))
  }

  /** With distinct names, every claimed address ends on the node its claim names, on no other. */
  lemma EachAddressOnItsNode(cs: seq<Controller>, ds: seq<Controller>, claims: map<string, Claim>, n: string, i: nat)
    requires |ds| == |cs| && i < |cs| && n in claims
    requires forall j :: 0 <= j < |cs| ==> HoldsClaims(cs[j].store, claims) && Resyncs(cs[j], ds[j])
    requires forall j, k :: 0 <= j < k < |cs| ==> cs[j].uid != cs[k].uid
    ensures claims[n].cidr in ds[i].addrs <==> claims[n].node == cs[i].uid
    ensures claims[n].cidr in ds[i].addrs ==> forall j :: 0 <= j < |cs| && j != i ==> claims[n].cidr !in ds[j].addrs
  {
    forall j | 0 <= j < |cs| ensures claims[n].cidr in ds[j].addrs <==> claims[n].node == cs[j].uid {
      OneResync(cs[j], ds[j], claims, n);
    }
  }

  lemma OneResync(c: Controller, d: Controller, claims: map<string, Claim>, n: string)
    requires HoldsClaims(c.store, claims) && Resyncs(c, d) && n in claims
    ensures claims[n].cidr in d.addrs <==> claims[n].node == c.uid
  {
    var order :| ListsStore(c, order) && Exclusive(Resynced(c, order).queue) && d == Drained(Resynced(c, order));
    ResyncConverges(c, order);
    assert c.store[n].claim == claims[n];
  }

  // ----- The controller itself -----

  class NodeController {
    const uid: string
    const queue: Queue<Cached>
    const link: Link
    var store: map<string, Cached>

    constructor (uid: string, link: Link)
      ensures this.uid == uid && this.link == link && fresh(queue)
      ensures View() == Controller(uid, map[], Empty(), link.addrs, link.Faults())
    {
      this.uid, this.link, this.store := uid, link, map[];
      queue := new Queue();
    }

    function View(): Controller
      reads this, queue, link
    {
      Controller(uid, store, queue.View(), link.addrs, link.Faults())
    }

    /** The handler of additions and updates; the informer stores the object first. */
    method ClaimStored(item: Cached)
      modifies this, queue
      ensures View() == old(View()).(store := old(store)[item.claim.name := item],
                                     queue := Added(old(queue.View()), item))
    {
      store := store[item.claim.name := item];
      queue.Add(item);
    }

    method ClaimDeleted(item: Cached)
      modifies this, queue
      ensures View() == old(View()).(store := old(store) - {item.claim.name},
                                     queue := Added(old(queue.View()), item))
    {
      store := store - {item.claim.name};
      queue.Add(item);
    }

    /** The periodic resync sends an update for every stored claim, in any order. */
    method Resync() returns (ghost order: seq<Cached>)
      requires ProperStore(store)
      modifies queue
      ensures ListsStore(View(), order)
      ensures View() == Resynced(old(View()), order)
    {
      order := [];
      var rest := store.Keys;
      while rest != {}
        invariant rest <= store.Keys && NoDuplicates(order)
        invariant forall item :: item in order <==>
                    item.claim.name in store && item.claim.name !in rest && store[item.claim.name] == item
        invariant queue.View() == AddedAll(old(queue.View()), order)
      {
        var n :| n in rest;
        AddedAllSnoc(old(queue.View()), order, store[n]);
        queue.Add(store[n]);
        order := order + [store[n]];
        rest := rest - {n};
      }
    }

    method ProcessClaim(item: Cached) returns (err: bool)
      modifies link
      ensures (link.addrs, err) == Reconciled(old(View()), item)
      ensures link.Faults() == Consumed(old(link.Faults()), item.claim.cidr)
    {
      if item.claim.name !in store {
        err := link.EnsureIPUnassigned(item.claim.cidr);
      } else if item.claim.node == uid {
        err := link.EnsureIPAssigned(item.claim.cidr);
      } else {
        err := link.EnsureIPUnassigned(item.claim.cidr);
      }
    }

    /** One turn of the worker loop. */
    method Turn() returns (got: Got<Cached>)
      requires Exclusive(queue.View())
      modifies queue, link
      ensures got == Taken(old(queue.View())).0
      ensures View() == if got.Item? then Worked(old(View())) else old(View())
    {
      TakenFromExclusive(queue.View());
      got := queue.Get();
      if got.Item? {
        var err := ProcessClaim(got.item);
        if err {
          queue.Add(got.item);
        }
        queue.Done(got.item);
      }
    }

    /** The worker loop, until it quits or has to wait for work. */
    method Worker() returns (quit: bool)
      requires Exclusive(queue.View())
      modifies queue, link
      ensures View() == Drained(old(View()))
      ensures quit <==> old(queue.closed)
    {
      while true
        invariant Exclusive(queue.View()) && queue.closed == old(queue.closed)
        invariant Drained(View()) == Drained(old(View()))
        decreases Total(link.Faults()), |queue.added|
      {
        ghost var was := View();
        TakenFromExclusive(was.queue);
        if was.queue.queue != [] {
          WorkedAdvances(was);
        }
        var got := Turn();
        if got.Nothing? {
          return got.quit;
        }
      }
    }

    /** One heartbeat against the revisions the API stores, by node name. */
    method Heartbeat(revisions: map<string, int>) returns (r: map<string, int>)
      ensures r.Keys == revisions.Keys + {uid} && r - {uid} == revisions - {uid}
      ensures Some(r[uid]) == Liveness.Beat(if uid in revisions then Some(revisions[uid]) else None)
    {
      if uid !in revisions {
        r := revisions[uid := 0];
      } else {
        r := revisions[uid := revisions[uid] + 1];
      }
    }
  }
}
