/** The claim controller between resyncs (pkg/claimcontroller/controller.go): the snapshots that
    are pending lead to the right interface, and exactly when they stop doing so. */
module Snapshots {
  import opened WorkQueue
  import opened QueueRuns
  import opened NetUtils
  import opened Strings
  import opened ClaimController

  /** The worker: idle, holding a snapshot, or done with it but for the queue's Done. */
  datatype Worker = Idle | Holding(item: Cached) | Settling(item: Cached)

  datatype Machine = Machine(uid: string, store: map<string, Cached>, queue: State<Cached>, worker: Worker,
                             addrs: set<string>)

  datatype Step =
    | Stores(item: Cached)           // a claim is added or updated: a new object
    | Deletes(item: Cached)          // with the last state of a stored claim, perhaps a new object
    | Resyncs(name: string)          // the stored object once more
    | Takes
    | Performs(fault: seq<Fault>)    // processClaim, and Add if it fails
    | Finishes

  function Initial(uid: string): Machine {
    Machine(uid, map[], Empty(), Idle, {})
  }

  // ----- Steps -----

  /** All objects that are stored, pending or in process. */
  ghost predicate Known(m: Machine, item: Cached) {
    || item in m.queue.added || item in m.queue.processing
    || (item.claim.name in m.store && m.store[item.claim.name] == item)
  }

  /** A claim's name and its address determine each other. */
  predicate Agree(a: Cached, b: Cached) {
    a.claim.name == b.claim.name <==> a.claim.cidr == b.claim.cidr
  }

  predicate WantedBy(m: Machine, item: Cached) {
    item.claim.name in m.store && item.claim.node == m.uid
  }

  function Outcome(m: Machine, item: Cached, fault: seq<Fault>): (set<string>, bool) {
    if WantedBy(m, item) then Assigned(m.addrs, item.claim.cidr, fault) else Unassigned(m.addrs, item.claim.cidr, fault)
  }

  ghost predicate Enabled(m: Machine, step: Step) {
    match step
    case Stores(item) => !Known(m, item) && forall y | Known(m, y) :: Agree(item, y)
    case Deletes(item) =>
      && item.claim.name in m.store && item.claim.cidr == m.store[item.claim.name].claim.cidr
      && (m.store[item.claim.name] == item || !Known(m, item))
    case Resyncs(name) => name in m.store
    case Takes => m.worker.Idle? && m.queue.queue != []
    case Performs(_) => m.worker.Holding?
    case Finishes => m.worker.Settling?
  }

  function Do(m: Machine, step: Step): Machine
    requires step.Resyncs? ==> step.name in m.store
    requires step.Takes? ==> Taken(m.queue).0.Item?
    requires step.Performs? ==> m.worker.Holding?
    requires step.Finishes? ==> m.worker.Settling?
  {
    match step
    case Stores(item) => m.(store := m.store[item.claim.name := item], queue := Added(m.queue, item))
    case Deletes(item) => m.(store := m.store - {item.claim.name}, queue := Added(m.queue, item))
    case Resyncs(name) => m.(queue := Added(m.queue, m.store[name]))
    case Takes => m.(queue := Taken(m.queue).1, worker := Holding(Taken(m.queue).0.item))
    case Performs(fault) =>
      var x := m.worker.item;
      var (addrs, err) := Outcome(m, x, fault);
      m.(addrs := addrs, queue := if err then Added(m.queue, x) else m.queue, worker := Settling(x))
    case Finishes => m.(queue := Finished(m.queue, m.worker.item), worker := Idle)
  }

  // ----- What is pending -----

  /** The snapshot in process, when it was added again meanwhile, will be queued at the back. */
  function Back(m: Machine): seq<Cached> {
    if !m.worker.Idle? && m.worker.item in m.queue.added then [m.worker.item] else []
  }

  /** The snapshots still to be processed, in order. */
  function Pending(m: Machine): seq<Cached> {
    (if m.worker.Holding? then [m.worker.item] else []) + m.queue.queue + Back(m)
  }

  function LastOf(rs: seq<Cached>, cidr: string): (r: Option<Cached>)
    ensures r.Some? ==> r.value in rs && r.value.claim.cidr == cidr
    ensures r.None? ==> forall x | x in rs :: x.claim.cidr != cidr
  {
    if rs == [] then None
    else if rs[|rs| - 1].claim.cidr == cidr then Some(rs[|rs| - 1])
    else LastOf(rs[..|rs| - 1], cidr)
  }

  lemma {:induction false} LastOfConcat(rs: seq<Cached>, ts: seq<Cached>, cidr: string)
    ensures LastOf(rs + ts, cidr) == if LastOf(ts, cidr).Some? then LastOf(ts, cidr) else LastOf(rs, cidr)
  {
    if ts == [] {
      assert rs + ts == rs;
    } else {
      assert (rs + ts)[..|rs + ts| - 1] == rs + ts[..|ts| - 1];
      LastOfConcat(rs, ts[..|ts| - 1], cidr);
    }
  }

  /** Whether an address is on the interface once `rs` are processed without a fault. */
  predicate Wish(m: Machine, rs: seq<Cached>, cidr: string) {
    var last := LastOf(rs, cidr);
    if last.Some? then WantedBy(m, last.value) else cidr in m.addrs
  }

  /** A stored claim of the address names this node. */
  predicate Target(m: Machine, cidr: string) {
    exists n | n in m.store :: m.store[n].claim.cidr == cidr && m.store[n].claim.node == m.uid
  }

  /** The pending snapshots lead to the addresses of the claims that name this node. */
  ghost predicate Right(m: Machine) {
    forall cidr :: Wish(m, Pending(m), cidr) <==> Target(m, cidr)
  }

  ghost predicate WellFormed(m: Machine) {
    && Exclusive(m.queue) && !m.queue.closed
    && m.queue.processing == (if m.worker.Idle? then {} else {m.worker.item})
    && (forall n | n in m.store :: m.store[n].claim.name == n)
    && forall a, b | Known(m, a) && Known(m, b) :: Agree(a, b)
  }

  // ----- Which steps are harmless -----

  /** The retry at the back comes after no later snapshot that decides otherwise. */
  predicate MayRetry(m: Machine)
    requires m.worker.Holding?
  {
    var x, later := m.worker.item, LastOf(m.queue.queue, m.worker.item.claim.cidr);
    x in m.queue.added || later.None? || WantedBy(m, later.value) == WantedBy(m, x)
  }

  /** A failing call may be retried; and a new snapshot does not overtake a contrary one that
      goes to the back although it is older. */
  predicate Harmless(m: Machine, step: Step)
    requires step.Performs? ==> m.worker.Holding?
  {
    match step
    case Stores(item) =>
      Back(m) == [] || m.worker.item.claim.cidr != item.claim.cidr
      || ((m.worker.item.claim.node == m.uid) == (item.claim.node == m.uid))
    case Performs(fault) => Outcome(m, m.worker.item, fault).1 ==> MayRetry(m)
    case _ => true
  }

  // ----- Well-formed machines -----

  lemma DoIsDefined(m: Machine, step: Step)
    requires WellFormed(m) && Enabled(m, step)
    ensures step.Takes? ==> Taken(m.queue).0 == Item(m.queue.queue[0])
  {
    TakenFromExclusive(m.queue);
  }

  /** Nothing is known after a step that was not known before, but for the object it brings. */
  lemma KnownAfter(m: Machine, step: Step, y: Cached)
    requires WellFormed(m) && Enabled(m, step) && (step.Takes? ==> Taken(m.queue).0.Item?) && Known(Do(m, step), y)
    ensures Known(m, y) || ((step.Stores? || step.Deletes?) && y == step.item)
  {
    TakenFromExclusive(m.queue);
    if step.Resyncs? {
      assert Known(m, m.store[step.name]);
    }
  }

  /** The queue says which snapshot is in process. */
  ghost predicate InOrder(q: State<Cached>, worker: Worker) {
    Exclusive(q) && !q.closed && q.processing == if worker.Idle? then {} else {worker.item}
  }

  lemma AddingStaysInOrder(q: State<Cached>, worker: Worker, x: Cached)
    requires InOrder(q, worker)
    ensures InOrder(Added(q, x), worker)
  {
    StepKeepsOrder(q, Add(x));
  }

  lemma QueueStaysInOrder(m: Machine, step: Step)
    requires WellFormed(m) && Enabled(m, step) && (step.Takes? ==> Taken(m.queue).0.Item?)
    ensures InOrder(Do(m, step).queue, Do(m, step).worker)
  {
    match step
    case Stores(item) => AddingStaysInOrder(m.queue, m.worker, item);
    case Deletes(item) => AddingStaysInOrder(m.queue, m.worker, item);
    case Resyncs(name) => AddingStaysInOrder(m.queue, m.worker, m.store[name]);
    case Takes => TakenFromExclusive(m.queue);
    case Performs(_) => AddingStaysInOrder(m.queue, m.worker, m.worker.item);
    case Finishes => StepKeepsOrder(m.queue, Done(m.worker.item));
  }

  /** The deleted object is of the stored claim. */
  lemma DeletedAgrees(m: Machine, item: Cached, y: Cached)
    requires WellFormed(m) && Enabled(m, Deletes(item)) && Known(m, y)
    ensures Agree(y, item)
  {
    assert Known(m, m.store[item.claim.name]) && Agree(y, m.store[item.claim.name]);
  }

  lemma StaysWellFormed(m: Machine, step: Step)
    requires WellFormed(m) && Enabled(m, step)
    ensures step.Takes? ==> Taken(m.queue).0.Item?
    ensures WellFormed(Do(m, step))
  {
    DoIsDefined(m, step);
    QueueStaysInOrder(m, step);
    var t := Do(m, step);
    forall a, b | Known(t, a) && Known(t, b) ensures Agree(a, b) {
      KnownAfter(m, step, a);
      KnownAfter(m, step, b);
      if step.Deletes? {
        if Known(m, a) {
          DeletedAgrees(m, step.item, a);
        }
        if Known(m, b) {
          DeletedAgrees(m, step.item, b);
        }
      }
    }
  }

  // ----- What a step does to the wishes -----

  /** Only the latest snapshot of an address matters. */
  lemma SameLastSameWish(m: Machine, rs: seq<Cached>, t: Machine, ts: seq<Cached>, cidr: string)
    requires LastOf(ts, cidr) == LastOf(rs, cidr) && (cidr in t.addrs <==> cidr in m.addrs)
    requires LastOf(rs, cidr).Some? ==> WantedBy(t, LastOf(rs, cidr).value) == WantedBy(m, LastOf(rs, cidr).value)
    ensures Wish(t, ts, cidr) == Wish(m, rs, cidr)
  {
  }

  lemma OneIsLast(x: Cached, cidr: string)
    ensures LastOf([x], cidr) == if x.claim.cidr == cidr then Some(x) else None
  {
  }

  lemma TakingKeepsPending(m: Machine)
    requires WellFormed(m) && Enabled(m, Takes)
    ensures Taken(m.queue).0.Item? && Pending(Do(m, Takes)) == Pending(m)
  {
    TakenFromExclusive(m.queue);
    var t := Do(m, Takes);
    assert Back(t) == [] && Back(m) == [];
    assert [m.queue.queue[0]] + m.queue.queue[1..] == m.queue.queue;
  }

  lemma FinishingKeepsPending(m: Machine)
    requires WellFormed(m) && m.worker.Settling?
    ensures Pending(Do(m, Finishes)) == Pending(m)
  {
  }

  /** A call that succeeds does what the snapshot wishes. */
  lemma SuccessKeepsWishes(m: Machine, fault: seq<Fault>, cidr: string)
    requires WellFormed(m) && m.worker.Holding? && !Outcome(m, m.worker.item, fault).1
    ensures var t := Do(m, Performs(fault)); Wish(t, Pending(t), cidr) == Wish(m, Pending(m), cidr)
  {
    var x, t, rest := m.worker.item, Do(m, Performs(fault)), m.queue.queue + Back(m);
    SuccessTouches(m, fault);
    LastOfConcat([x], rest, cidr);
    OneIsLast(x, cidr);
    if cidr != x.claim.cidr {
      SameLastSameWish(m, Pending(m), t, Pending(t), cidr);
    }
  }

  lemma SuccessTouches(m: Machine, fault: seq<Fault>)
    requires WellFormed(m) && m.worker.Holding? && !Outcome(m, m.worker.item, fault).1
    ensures var t, x, rest := Do(m, Performs(fault)), m.worker.item, m.queue.queue + Back(m);
            && Pending(m) == [x] + rest && Pending(t) == rest && t.store == m.store && t.uid == m.uid
            && forall c :: c in t.addrs <==> if c == x.claim.cidr then WantedBy(m, x) else c in m.addrs
  {
  }

  /** Where a snapshot of another address stands does not matter. */
  lemma MovedToBack(x: Cached, q: seq<Cached>, back: seq<Cached>, cidr: string)
    requires x.claim.cidr != cidr && forall y | y in back :: y.claim.cidr != cidr
    ensures LastOf(q + [x], cidr) == LastOf([x] + q + back, cidr)
  {
    LastOfConcat(q, [x], cidr);
    LastOfConcat([x] + q, back, cidr);
    LastOfConcat([x], q, cidr);
    OneIsLast(x, cidr);
  }

  /** What is wished for the address of the snapshot in hand. */
  lemma WishInHand(m: Machine)
    requires WellFormed(m) && m.worker.Holding?
    ensures var x, later := m.worker.item, LastOf(m.queue.queue, m.worker.item.claim.cidr);
            Wish(m, Pending(m), x.claim.cidr) == (if x in m.queue.added || later.None? then WantedBy(m, x)
                                                  else WantedBy(m, later.value))
  {
    var x, q := m.worker.item, m.queue.queue;
    LastOfConcat([x] + q, Back(m), x.claim.cidr);
    LastOfConcat([x], q, x.claim.cidr);
    OneIsLast(x, x.claim.cidr);
  }

  lemma RetryIsLast(m: Machine, fault: seq<Fault>)
    requires WellFormed(m) && m.worker.Holding? && Outcome(m, m.worker.item, fault).1
    ensures var t := Do(m, Performs(fault)); Pending(t) == m.queue.queue + [m.worker.item]
  {
  }

  lemma FailureElsewhere(m: Machine, fault: seq<Fault>, cidr: string)
    requires WellFormed(m) && m.worker.Holding? && Outcome(m, m.worker.item, fault).1
    requires cidr != m.worker.item.claim.cidr
    ensures var t := Do(m, Performs(fault)); Wish(t, Pending(t), cidr) == Wish(m, Pending(m), cidr)
  {
    var x, q, t := m.worker.item, m.queue.queue, Do(m, Performs(fault));
    RetryIsLast(m, fault);
    MovedToBack(x, q, Back(m), cidr);
    SameLastSameWish(m, Pending(m), t, Pending(t), cidr);
  }

  /** A call that fails moves its snapshot to the back. */
  lemma FailureMovesBack(m: Machine, fault: seq<Fault>, cidr: string)
    requires WellFormed(m) && m.worker.Holding? && Outcome(m, m.worker.item, fault).1
    ensures var t, x := Do(m, Performs(fault)), m.worker.item;
            Wish(t, Pending(t), cidr) == if cidr == x.claim.cidr then WantedBy(m, x) else Wish(m, Pending(m), cidr)
  {
    if cidr == m.worker.item.claim.cidr {
      RetryIsLast(m, fault);
      LastOfConcat(m.queue.queue, [m.worker.item], cidr);
      OneIsLast(m.worker.item, cidr);
    } else {
      FailureElsewhere(m, fault, cidr);
    }
  }

  lemma PerformsRightIff(m: Machine, fault: seq<Fault>)
    requires WellFormed(m) && Right(m) && m.worker.Holding?
    ensures Right(Do(m, Performs(fault))) <==> Harmless(m, Performs(fault))
  {
    var t, x := Do(m, Performs(fault)), m.worker.item;
    if !Outcome(m, x, fault).1 {
      forall cidr ensures Wish(t, Pending(t), cidr) == Wish(m, Pending(m), cidr) {
        SuccessKeepsWishes(m, fault, cidr);
      }
      assert forall cidr :: Target(t, cidr) == Target(m, cidr);
    } else {
      forall cidr
        ensures Wish(t, Pending(t), cidr) == if cidr == x.claim.cidr then WantedBy(m, x) else Wish(m, Pending(m), cidr)
      {
        FailureMovesBack(m, fault, cidr);
      }
      WishInHand(m);
      assert forall cidr :: Target(t, cidr) == Target(m, cidr);
      assert Wish(t, Pending(t), x.claim.cidr) == Target(t, x.claim.cidr) <==> MayRetry(m);
    }
  }

  // ----- Events -----

  /** The stored claim of an address decides its target. */
  lemma TargetOf(m: Machine, name: string)
    requires WellFormed(m) && name in m.store
    ensures Target(m, m.store[name].claim.cidr) <==> m.store[name].claim.node == m.uid
  {
    var y := m.store[name];
    forall n | n in m.store && m.store[n].claim.cidr == y.claim.cidr ensures n == name {
      assert Known(m, m.store[n]) && Known(m, y);
    }
  }

  /** An object that joins the queue goes behind what is queued, but before the back. */
  lemma AddedToPending(m: Machine, item: Cached)
    requires WellFormed(m)
    ensures var t := m.(queue := Added(m.queue, item));
            Pending(t) == if item in m.queue.added then Pending(m)
                          else if item in m.queue.processing then Pending(m) + [item]
                          else (if m.worker.Holding? then [m.worker.item] else []) + m.queue.queue + [item] + Back(m)
  {
    var t := m.(queue := Added(m.queue, item));
    if item !in m.queue.added && item in m.queue.processing {
      assert Back(m) == [] && Back(t) == [item];
      assert Pending(m) + [item] == Pending(t);
    }
  }

  lemma LastAfterQueueing(m: Machine, item: Cached, cidr: string)
    ensures var hand := if m.worker.Holding? then [m.worker.item] else [];
            LastOf(hand + m.queue.queue + [item] + Back(m), cidr) ==
            if item.claim.cidr != cidr then LastOf(Pending(m), cidr)
            else if LastOf(Back(m), cidr).Some? then LastOf(Back(m), cidr) else Some(item)
  {
    var front := (if m.worker.Holding? then [m.worker.item] else []) + m.queue.queue;
    LastOfConcat(front + [item], Back(m), cidr);
    LastOfConcat(front, [item], cidr);
    LastOfConcat(front, Back(m), cidr);
    OneIsLast(item, cidr);
  }

  /** The latest pending snapshot of an address once an object is added. */
  lemma LastAfterAdding(m: Machine, item: Cached, cidr: string)
    requires WellFormed(m)
    ensures var t := m.(queue := Added(m.queue, item));
            LastOf(Pending(t), cidr) ==
            if item in m.queue.added || item.claim.cidr != cidr then LastOf(Pending(m), cidr)
            else if item in m.queue.processing then Some(item)
            else if LastOf(Back(m), cidr).Some? then LastOf(Back(m), cidr) else Some(item)
  {
    AddedToPending(m, item);
    if item !in m.queue.added {
      if item in m.queue.processing {
        LastOfConcat(Pending(m), [item], cidr);
        OneIsLast(item, cidr);
      } else {
        LastAfterQueueing(m, item, cidr);
      }
    }
  }

  /** Only what is stored under one name differs. */
  lemma TargetElsewhere(m: Machine, t: Machine, name: string, cidr: string)
    requires t.uid == m.uid && forall n | n != name :: (n in t.store <==> n in m.store)
    requires forall n | n != name && n in m.store :: t.store[n] == m.store[n]
    requires name in m.store ==> m.store[name].claim.cidr != cidr
    requires name in t.store ==> t.store[name].claim.cidr != cidr
    ensures Target(t, cidr) == Target(m, cidr)
  {
    if n :| n in m.store && m.store[n].claim.cidr == cidr && m.store[n].claim.node == m.uid {
      assert n in t.store && t.store[n] == m.store[n];
    }
    if n :| n in t.store && t.store[n].claim.cidr == cidr && t.store[n].claim.node == t.uid {
      assert n in m.store && t.store[n] == m.store[n];
    }
  }

  lemma StoresElsewhere(m: Machine, item: Cached, cidr: string)
    requires WellFormed(m) && Enabled(m, Stores(item)) && cidr != item.claim.cidr
    ensures var t := Do(m, Stores(item));
            Wish(t, Pending(t), cidr) == Wish(m, Pending(m), cidr) && Target(t, cidr) == Target(m, cidr)
  {
    var t := Do(m, Stores(item));
    LastAfterAdding(m, item, cidr);
    assert Pending(t) == Pending(m.(queue := Added(m.queue, item)));
    var last := LastOf(Pending(m), cidr);
    if last.Some? {
      PendingIsKnown(m, last.value);
      assert Agree(item, last.value);
    }
    SameLastSameWish(m, Pending(m), t, Pending(t), cidr);
    if item.claim.name in m.store {
      assert Known(m, m.store[item.claim.name]);
    }
    TargetElsewhere(m, t, item.claim.name, cidr);
  }

  lemma PendingIsKnown(m: Machine, y: Cached)
    requires WellFormed(m) && y in Pending(m)
    ensures Known(m, y)
  {
  }

  lemma StoresHere(m: Machine, item: Cached)
    requires WellFormed(m) && Enabled(m, Stores(item))
    ensures var t := Do(m, Stores(item));
            (Wish(t, Pending(t), item.claim.cidr) == Target(t, item.claim.cidr)) == Harmless(m, Stores(item))
  {
    var t, cidr := Do(m, Stores(item)), item.claim.cidr;
    StaysWellFormed(m, Stores(item));
    TargetOf(t, item.claim.name);
    LastAfterAdding(m, item, cidr);
    assert Pending(t) == Pending(m.(queue := Added(m.queue, item)));
    if Back(m) != [] {
      OneIsLast(m.worker.item, cidr);
      PendingIsKnown(m, m.worker.item);
    }
  }

  lemma StoresRightIff(m: Machine, item: Cached)
    requires WellFormed(m) && Right(m) && Enabled(m, Stores(item))
    ensures Right(Do(m, Stores(item))) <==> Harmless(m, Stores(item))
  {
    var t := Do(m, Stores(item));
    forall cidr | cidr != item.claim.cidr ensures Wish(t, Pending(t), cidr) <==> Target(t, cidr) {
      StoresElsewhere(m, item, cidr);
    }
    StoresHere(m, item);
  }

  lemma DeletesElsewhere(m: Machine, item: Cached, cidr: string)
    requires WellFormed(m) && Enabled(m, Deletes(item)) && cidr != item.claim.cidr
    ensures var t := Do(m, Deletes(item));
            Wish(t, Pending(t), cidr) == Wish(m, Pending(m), cidr) && Target(t, cidr) == Target(m, cidr)
  {
    var t := Do(m, Deletes(item));
    LastAfterAdding(m, item, cidr);
    assert Pending(t) == Pending(m.(queue := Added(m.queue, item)));
    var last := LastOf(Pending(m), cidr);
    if last.Some? {
      PendingIsKnown(m, last.value);
      DeletedAgrees(m, item, last.value);
    }
    SameLastSameWish(m, Pending(m), t, Pending(t), cidr);
    TargetElsewhere(m, t, item.claim.name, cidr);
  }

  /** The deleted object is pending. */
  lemma DeletedIsPending(m: Machine, item: Cached)
    requires WellFormed(m) && Enabled(m, Deletes(item))
    ensures item in Pending(Do(m, Deletes(item)))
  {
    var t := Do(m, Deletes(item));
    AddedToPending(m, item);
    assert Pending(t) == Pending(m.(queue := Added(m.queue, item)));
  }

  /** What is pending for its address is of the same claim. */
  lemma PendingOfDeleted(m: Machine, item: Cached, y: Cached)
    requires WellFormed(m) && Enabled(m, Deletes(item)) && y in Pending(Do(m, Deletes(item)))
    requires y.claim.cidr == item.claim.cidr
    ensures y.claim.name == item.claim.name
  {
    var t := Do(m, Deletes(item));
    StaysWellFormed(m, Deletes(item));
    PendingIsKnown(t, y);
    KnownAfter(m, Deletes(item), y);
    if y != item {
      DeletedAgrees(m, item, y);
    }
  }

  lemma DeletesHere(m: Machine, item: Cached)
    requires WellFormed(m) && Enabled(m, Deletes(item))
    ensures var t := Do(m, Deletes(item));
            !Wish(t, Pending(t), item.claim.cidr) && !Target(t, item.claim.cidr)
  {
    var t := Do(m, Deletes(item));
    DeletedIsPending(m, item);
    PendingOfDeleted(m, item, LastOf(Pending(t), item.claim.cidr).value);
    forall n | n in t.store ensures m.store[n].claim.cidr != item.claim.cidr {
      assert Known(m, m.store[n]);
      DeletedAgrees(m, item, m.store[n]);
    }
  }

  lemma DeletesKeepsRight(m: Machine, item: Cached)
    requires WellFormed(m) && Right(m) && Enabled(m, Deletes(item))
    ensures Right(Do(m, Deletes(item)))
  {
    var t := Do(m, Deletes(item));
    forall cidr | cidr != item.claim.cidr ensures Wish(t, Pending(t), cidr) <==> Target(t, cidr) {
      DeletesElsewhere(m, item, cidr);
    }
    DeletesHere(m, item);
  }

  lemma ResyncsKeepsRight(m: Machine, name: string)
    requires WellFormed(m) && Right(m) && name in m.store
    ensures Right(Do(m, Resyncs(name)))
  {
    var t, item := Do(m, Resyncs(name)), m.store[name];
    TargetOf(m, name);
    forall cidr ensures Wish(t, Pending(t), cidr) <==> Target(t, cidr) {
      LastAfterAdding(m, item, cidr);
      LastOfConcat((if m.worker.Holding? then [m.worker.item] else []) + m.queue.queue, Back(m), cidr);
      assert Wish(m, Pending(m), cidr) <==> Target(m, cidr);
    }
  }

  // ----- Runs -----

  /** A step keeps the pending snapshots right exactly when it is harmless. */
  lemma StepKeepsRightIff(m: Machine, step: Step)
    requires WellFormed(m) && Right(m) && Enabled(m, step)
    ensures step.Takes? ==> Taken(m.queue).0.Item?
    ensures WellFormed(Do(m, step))
    ensures Right(Do(m, step)) <==> Harmless(m, step)
  {
    StaysWellFormed(m, step);
    match step
    case Stores(item) => StoresRightIff(m, item);
    case Deletes(item) => DeletesKeepsRight(m, item);
    case Resyncs(name) => ResyncsKeepsRight(m, name);
    case Performs(fault) => PerformsRightIff(m, fault);
    case _ => SamePendingSameRight(m, step);
  }

  lemma SamePendingSameRight(m: Machine, step: Step)
    requires WellFormed(m) && Right(m) && Enabled(m, step) && (step.Takes? || step.Finishes?)
    ensures step.Takes? ==> Taken(m.queue).0.Item?
    ensures Right(Do(m, step))
  {
    if step.Takes? {
      TakingKeepsPending(m);
    } else {
      FinishingKeepsPending(m);
    }
    var t := Do(m, step);
    forall cidr ensures Wish(t, Pending(t), cidr) <==> Target(t, cidr) {
      assert Wish(m, Pending(m), cidr) <==> Target(m, cidr);
    }
  }

  ghost predicate Goes(m: Machine, step: Step, m': Machine) {
    Enabled(m, step) && (step.Takes? ==> Taken(m.queue).0.Item?) && m' == Do(m, step)
  }

  ghost predicate GoesAt(ms: seq<Machine>, steps: seq<Step>, i: nat)
    requires |ms| == |steps| + 1 && i < |steps|
  {
    Goes(ms[i], steps[i], ms[i + 1])
  }

  /** A run from an empty interface. */
  ghost predicate IsRun(ms: seq<Machine>, steps: seq<Step>) {
    && |ms| == |steps| + 1 && ms[0] == Initial(ms[0].uid)
    && forall i :: 0 <= i < |steps| ==> GoesAt(ms, steps, i)
  }

  ghost predicate RightTo(ms: seq<Machine>, k: nat)
    requires k < |ms|
  {
    (k == 0 || RightTo(ms, k - 1)) && Right(ms[k])
  }

  ghost predicate HarmlessTo(ms: seq<Machine>, steps: seq<Step>, k: nat)
    requires IsRun(ms, steps) && k <= |steps|
  {
    assert k > 0 ==> GoesAt(ms, steps, k - 1);
    k == 0 || (HarmlessTo(ms, steps, k - 1) && Harmless(ms[k - 1], steps[k - 1]))
  }

  lemma {:induction false} RunIsWellFormed(ms: seq<Machine>, steps: seq<Step>, k: nat)
    requires IsRun(ms, steps) && k <= |steps|
    ensures WellFormed(ms[k])
  {
    if k > 0 {
      RunIsWellFormed(ms, steps, k - 1);
      assert GoesAt(ms, steps, k - 1);
      StaysWellFormed(ms[k - 1], steps[k - 1]);
    }
  }

  lemma RightAfter(m: Machine, step: Step, t: Machine)
    requires WellFormed(m) && Right(m) && Goes(m, step, t)
    ensures Right(t) <==> Harmless(m, step)
  {
    StepKeepsRightIff(m, step);
  }

  /** From point k - 1 to point k. */
  lemma NextIsRightIff(ms: seq<Machine>, steps: seq<Step>, k: nat)
    requires IsRun(ms, steps) && 0 < k <= |steps| && Right(ms[k - 1])
    ensures steps[k - 1].Performs? ==> ms[k - 1].worker.Holding?
    ensures Right(ms[k]) <==> Harmless(ms[k - 1], steps[k - 1])
  {
    RunIsWellFormed(ms, steps, k - 1);
    assert GoesAt(ms, steps, k - 1);
    RightAfter(ms[k - 1], steps[k - 1], ms[k]);
  }

  lemma InitialIsRight(uid: string)
    ensures Right(Initial(uid))
  {
  }

  /** On every run of events and worker steps the pending snapshots lead to the addresses of
      the claims that name this node, exactly as long as no step is harmful. */
  lemma {:induction false} InterfaceFollowsTheClaims(ms: seq<Machine>, steps: seq<Step>, k: nat)
    requires IsRun(ms, steps) && k <= |steps|
    ensures RightTo(ms, k) <==> HarmlessTo(ms, steps, k)
  {
    if k == 0 {
      InitialIsRight(ms[0].uid);
    } else {
      InterfaceFollowsTheClaims(ms, steps, k - 1);
      if RightTo(ms, k - 1) {
        NextIsRightIff(ms, steps, k);
      }
    }
  }

  /** So once everything is processed the interface has exactly these addresses. */
  lemma DrainedInterfaceIsRight(m: Machine, cidr: string)
    requires Right(m) && Pending(m) == []
    ensures cidr in m.addrs <==> Target(m, cidr)
  {
    assert Wish(m, Pending(m), cidr) == (cidr in m.addrs);
  }

  // ----- Harmful steps -----

  datatype Trace = Trace(ms: seq<Machine>, steps: seq<Step>)

  /** A run that ends in `m`. */
  ghost predicate Reaches(r: Trace, m: Machine) {
    IsRun(r.ms, r.steps) && r.ms[|r.steps|] == m
  }

  lemma Start(uid: string) returns (r: Trace)
    ensures Reaches(r, Initial(uid)) && r.steps == []
  {
    r := Trace([Initial(uid)], []);
  }

  lemma OneStepFurther(r: Trace, m: Machine, step: Step) returns (q: Trace)
    requires Reaches(r, m) && Enabled(m, step)
    ensures step.Takes? ==> Taken(m.queue).0.Item?
    ensures Reaches(q, Do(m, step)) && q == Trace(r.ms + [Do(m, step)], r.steps + [step])
  {
    RunIsWellFormed(r.ms, r.steps, |r.steps|);
    DoIsDefined(m, step);
    q := Trace(r.ms + [Do(m, step)], r.steps + [step]);
    forall i | 0 <= i < |q.steps| ensures GoesAt(q.ms, q.steps, i) {
      assert i < |r.steps| ==> GoesAt(r.ms, r.steps, i);
    }
  }

  /** Two snapshots of one claim, which moves from this node to another. */
  predicate Moves(uid: string, before: Cached, after: Cached) {
    && before.pointer != after.pointer && before.claim.name == after.claim.name
    && before.claim.cidr == after.claim.cidr && before.claim.node == uid != after.claim.node
  }

  /** The claim moves away while its old snapshot is in process. */
  lemma MovesInProcess(uid: string, before: Cached, after: Cached) returns (r: Trace, m: Machine)
    requires Moves(uid, before, after)
    ensures Reaches(r, m)
    ensures m == Machine(uid, map[after.claim.name := after], State({after}, {before}, false, [after]),
                         Holding(before), {})
  {
    var name := before.claim.name;
    r := Start(uid);
    r := OneStepFurther(r, Initial(uid), Stores(before));
    var m1 := Machine(uid, map[name := before], State({before}, {}, false, [before]), Idle, {});
    assert Do(Initial(uid), Stores(before)) == m1;
    r := OneStepFurther(r, m1, Takes);
    var m2 := Machine(uid, map[name := before], State({}, {before}, false, []), Holding(before), {});
    assert Do(m1, Takes) == m2;
    r := OneStepFurther(r, m2, Stores(after));
    m := Do(m2, Stores(after));
  }

  /** The call for the old snapshot fails and its retry comes last: with everything processed
      and no further fault, the address is on the interface although the claim names another
      node. */
  lemma LateRetryLeavesTheAddress(uid: string, before: Cached, after: Cached) returns (r: Trace, m: Machine)
    requires Moves(uid, before, after)
    ensures Reaches(r, m) && Pending(m) == [] && m.addrs == {after.claim.cidr} && !Target(m, after.claim.cidr)
  {
    var name, cidr, store := before.claim.name, before.claim.cidr, map[before.claim.name := after];
    r, m := MovesInProcess(uid, before, after);
    r := OneStepFurther(r, m, Performs([LinkFault]));
    var m1 := Machine(uid, store, State({before, after}, {before}, false, [after]), Settling(before), {});
    assert Do(m, Performs([LinkFault])) == m1;
    r := OneStepFurther(r, m1, Finishes);
    var m2 := Machine(uid, store, State({before, after}, {}, false, [after, before]), Idle, {});
    assert Do(m1, Finishes) == m2;
    r, m := RetriedLast(r, uid, before, after, m2);
  }

  lemma RetriedLast(r: Trace, uid: string, before: Cached, after: Cached, m: Machine) returns (q: Trace, t: Machine)
    requires Moves(uid, before, after) && Reaches(r, m)
    requires m == Machine(uid, map[before.claim.name := after],
                          State({before, after}, {}, false, [after, before]), Idle, {})
    ensures Reaches(q, t) && Pending(t) == [] && t.addrs == {after.claim.cidr} && !Target(t, after.claim.cidr)
  {
    var store := m.store;
    q := OneStepFurther(r, m, Takes);
    var m1 := Machine(uid, store, State({before}, {after}, false, [before]), Holding(after), {});
    assert Do(m, Takes) == m1;
    q := OneStepFurther(q, m1, Performs([]));
    var m2 := m1.(worker := Settling(after));
    assert Do(m1, Performs([])) == m2;
    q := OneStepFurther(q, m2, Finishes);
    var m3 := Machine(uid, store, State({before}, {}, false, [before]), Idle, {});
    assert Do(m2, Finishes) == m3;
    q, t := ProcessedLast(q, before, m3);
  }

  lemma ProcessedLast(r: Trace, x: Cached, m: Machine) returns (q: Trace, t: Machine)
    requires Reaches(r, m) && m.worker.Idle? && m.queue == State({x}, {}, false, [x]) && m.addrs == {} && WantedBy(m, x)
    ensures Reaches(q, t) && Pending(t) == [] && t.addrs == {x.claim.cidr} && t.store == m.store && t.uid == m.uid
  {
    q := OneStepFurther(r, m, Takes);
    var m1 := m.(queue := State({}, {x}, false, []), worker := Holding(x));
    assert Do(m, Takes) == m1;
    q := OneStepFurther(q, m1, Performs([]));
    var m2 := m1.(worker := Settling(x), addrs := {x.claim.cidr});
    assert Do(m1, Performs([])) == m2;
    q := OneStepFurther(q, m2, Finishes);
    t := m2.(queue := State({}, {}, false, []), worker := Idle);
    assert Do(m2, Finishes) == t;
  }

  /** No fault is needed: a resync of a snapshot in process puts it behind a later update. */
  lemma ResyncOvertakesUpdate(uid: string, before: Cached, after: Cached) returns (r: Trace, m: Machine)
    requires Moves(uid, before, after)
    ensures Reaches(r, m) && Enabled(m, Stores(after)) && Right(m) && !Harmless(m, Stores(after))
    ensures forall step | step in r.steps :: !step.Performs?
  {
    var name := before.claim.name;
    r := Start(uid);
    r := OneStepFurther(r, Initial(uid), Stores(before));
    var m1 := Machine(uid, map[name := before], State({before}, {}, false, [before]), Idle, {});
    assert Do(Initial(uid), Stores(before)) == m1;
    r := OneStepFurther(r, m1, Takes);
    var m2 := Machine(uid, map[name := before], State({}, {before}, false, []), Holding(before), {});
    assert Do(m1, Takes) == m2;
    r := OneStepFurther(r, m2, Resyncs(name));
    m := Machine(uid, map[name := before], State({before}, {before}, false, []), Holding(before), {});
    assert Do(m2, Resyncs(name)) == m;
    assert r.steps == [] + [Stores(before)] + [Takes] + [Resyncs(name)];
    OnlyWishIsItsOwn(m, before);
  }

  lemma OnlyWishIsItsOwn(m: Machine, x: Cached)
    requires m.store == map[x.claim.name := x] && Pending(m) == [x, x] && m.addrs == {}
    ensures Right(m)
  {
    forall cidr ensures Wish(m, Pending(m), cidr) <==> Target(m, cidr) {
      assert [x, x] == [x] + [x];
      LastOfConcat([x], [x], cidr);
      OneIsLast(x, cidr);
      assert x.claim.name in m.store;
    }
  }

  // ----- The controller's methods -----

  /** The machine a controller is while its worker is idle. */
  function Of(c: Controller): Machine {
    Machine(c.uid, c.store, c.queue, Idle, c.addrs)
  }

  /** One turn of the worker is three steps of the machine. */
  lemma TurnIsThreeSteps(c: Controller, item: Cached)
    requires Taken(c.queue).0 == Item(item)
    ensures var held := Do(Of(c), Takes);
            && held.worker == Holding(item)
            && Do(Do(held, Performs(FaultOf(c.faults, item.claim.cidr))), Finishes) == Of(Worked(c))
  {
  }
}
