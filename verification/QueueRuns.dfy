/** What the work queue guarantees over whole runs: order, exclusivity, no lost work,
    and a bounded amount of work after Close. */
module QueueRuns {
  import opened WorkQueue

  datatype Op<T> = Add(item: T) | Get | Done(item: T) | Remove(item: T) | Close

  function Step<T>(s: State<T>, op: Op<T>): State<T> {
    match op
    case Add(x) => Added(s, x)
    case Get => Taken(s).1
    case Done(x) => Finished(s, x)
    case Remove(x) => Removed(s, x)
    case Close => Closed(s)
  }

  function Run<T>(s: State<T>, ops: seq<Op<T>>): State<T>
    decreases |ops|
  {
    if ops == [] then s else Run(Step(s, ops[0]), ops[1..])
  }

  /** The item an operation hands out, if any. */
  function HandedBy<T>(s: State<T>, op: Op<T>): seq<T> {
    if op.Get? && Taken(s).0.Item? then [Taken(s).0.item] else []
  }

  /** The items handed out by a run, in order. */
  function HandedOut<T>(s: State<T>, ops: seq<Op<T>>): seq<T>
    decreases |ops|
  {
    if ops == [] then [] else HandedBy(s, ops[0]) + HandedOut(Step(s, ops[0]), ops[1..])
  }

  /** The item an operation makes ready: a new item nobody is processing, or at the end
      of its processing an item that was added again meanwhile. */
  function ReadiedBy<T>(s: State<T>, op: Op<T>): seq<T> {
    match op
    case Add(x) => if !s.closed && x !in s.added && x !in s.processing then [x] else []
    case Done(x) => if x in s.added then [x] else []
    case _ => []
  }

  /** The items in the order in which a run makes them ready. */
  function BecameReady<T>(s: State<T>, ops: seq<Op<T>>): seq<T>
    decreases |ops|
  {
    if ops == [] then [] else ReadiedBy(s, ops[0]) + BecameReady(Step(s, ops[0]), ops[1..])
  }

  ghost predicate NoDuplicates<T>(q: seq<T>) {
    forall i, j :: 0 <= i < j < |q| ==> q[i] != q[j]
  }

  /** The slice holds each item that is added and not being processed exactly once. */
  ghost predicate Exclusive<T>(s: State<T>) {
    && NoDuplicates(s.queue)
    && (forall x | x in s.queue :: x in s.added && x !in s.processing)
    && (forall x | x in s.added && x !in s.processing :: x in s.queue)
  }

  /** Neither Remove nor Done meets an item that is queued.  All callers keep to it: nobody
      calls Remove, and Done follows a Get. */
  predicate Proper<T(==)>(s: State<T>, op: Op<T>) {
    !((op.Remove? || op.Done?) && op.item in s.queue)
  }

  ghost predicate Disciplined<T>(s: State<T>, ops: seq<Op<T>>)
    decreases |ops|
  {
    ops != [] ==> Proper(s, ops[0]) && Disciplined(Step(s, ops[0]), ops[1..])
  }

  ghost predicate AlwaysExclusive<T>(s: State<T>, ops: seq<Op<T>>)
    decreases |ops|
  {
    Exclusive(s) && (ops != [] ==> AlwaysExclusive(Step(s, ops[0]), ops[1..]))
  }

  /** No Get of the run returns an item that is being processed at that moment. */
  ghost predicate NeverTakesProcessing<T>(s: State<T>, ops: seq<Op<T>>)
    decreases |ops|
  {
    ops != [] ==>
      && (ops[0].Get? && Taken(s).0.Item? ==> Taken(s).0.item !in s.processing)
      && NeverTakesProcessing(Step(s, ops[0]), ops[1..])
  }

  lemma HeadOccursOnce<T>(q: seq<T>)
    requires NoDuplicates(q) && q != []
    ensures q[0] !in q[1..]
  {
    forall i | 0 <= i < |q| - 1 ensures q[1..][i] != q[0] {
      assert q[i + 1] != q[0];
    }
  }

  lemma TakenFromExclusive<T>(s: State<T>)
    requires Exclusive(s)
    ensures s.queue == [] ==> Taken(s) == (Nothing(s.closed), s)
    ensures s.queue != [] ==>
              var x := s.queue[0];
              && x !in s.processing
              && Taken(s) == (Item(x), State(s.added - {x}, s.processing + {x}, s.closed, s.queue[1..]))
    ensures Exclusive(Taken(s).1)
  {
    if s.queue != [] {
      var x, t := s.queue[0], Taken(s).1;
      assert x in s.queue;
      assert s.queue == [x] + t.queue;
      HeadOccursOnce(s.queue);
    }
  }

  lemma StepKeepsOrder<T>(s: State<T>, op: Op<T>)
    requires Exclusive(s) && Proper(s, op)
    ensures Exclusive(Step(s, op))
    ensures s.queue + ReadiedBy(s, op) == HandedBy(s, op) + Step(s, op).queue
  {
    if op.Get? {
      TakenFromExclusive(s);
    }
  }

  /** An operation keeps the slice exclusive exactly when it is proper. */
  lemma ExclusiveIffProper<T>(s: State<T>, op: Op<T>)
    requires Exclusive(s)
    ensures Exclusive(Step(s, op)) <==> Proper(s, op)
  {
    if Proper(s, op) {
      StepKeepsOrder(s, op);
    } else {
      ImproperBreaks(s, op);
    }
  }

  /** Done queues a second entry, Remove leaves an entry behind that is not pending. */
  lemma ImproperBreaks<T>(s: State<T>, op: Op<T>)
    requires Exclusive(s) && !Proper(s, op)
    ensures !Exclusive(Step(s, op))
  {
    var x, t := op.item, Step(s, op);
    var i :| 0 <= i < |s.queue| && s.queue[i] == x;
    assert t.queue[i] == x;
    if op.Done? {
      assert t.queue[|s.queue|] == x;
    } else {
      assert x in t.queue && x !in t.added;
    }
  }

  /** A run keeps it at every point exactly when all its operations are proper. */
  lemma {:induction false} ExclusiveRunIffDisciplined<T>(s: State<T>, ops: seq<Op<T>>)
    requires Exclusive(s)
    ensures AlwaysExclusive(s, ops) <==> Disciplined(s, ops)
    decreases |ops|
  {
    if ops != [] {
      ExclusiveIffProper(s, ops[0]);
      if Proper(s, ops[0]) {
        ExclusiveRunIffDisciplined(Step(s, ops[0]), ops[1..]);
      }
    }
  }

  /** First in, first out over every disciplined run: what was queued followed by what
      became ready is what was handed out followed by what is queued now. */
  lemma {:induction false} HandsOutInReadyOrder<T>(s: State<T>, ops: seq<Op<T>>)
    requires Exclusive(s) && Disciplined(s, ops)
    ensures Exclusive(Run(s, ops))
    ensures NeverTakesProcessing(s, ops)
    ensures s.queue + BecameReady(s, ops) == HandedOut(s, ops) + Run(s, ops).queue
    decreases |ops|
  {
    if ops == [] {
    } else {
      var op, t := ops[0], Step(s, ops[0]);
      StepKeepsOrder(s, op);
      HandsOutInReadyOrder(t, ops[1..]);
      Regroup(s.queue, ReadiedBy(s, op), BecameReady(t, ops[1..]),
              HandedBy(s, op), t.queue, HandedOut(t, ops[1..]), Run(t, ops[1..]).queue);
    }
  }

  lemma Regroup<T>(q: seq<T>, r: seq<T>, r': seq<T>, h: seq<T>, t: seq<T>, h': seq<T>, f: seq<T>)
    requires q + r == h + t && t + r' == h' + f
    ensures q + (r + r') == (h + h') + f
  {
    assert q + (r + r') == (q + r) + r';
    assert h + (t + r') == (h + t) + r';
  }

  /** An item at position i is handed out after exactly i others. */
  lemma {:induction false} HandedOutAfterItsPredecessors<T>(s: State<T>, ops: seq<Op<T>>, i: nat)
    requires Exclusive(s) && Disciplined(s, ops) && i < |s.queue|
    ensures i < |HandedOut(s, ops)| + |Run(s, ops).queue|
    ensures if i < |HandedOut(s, ops)| then HandedOut(s, ops)[i] == s.queue[i]
            else Run(s, ops).queue[i - |HandedOut(s, ops)|] == s.queue[i]
  {
    HandsOutInReadyOrder(s, ops);
    var all := s.queue + BecameReady(s, ops);
    assert all[i] == s.queue[i];
    assert all == HandedOut(s, ops) + Run(s, ops).queue;
  }

  // ----- With Remove -----

  /** Every accepted item is queued or being processed. */
  ghost predicate NothingLost<T>(s: State<T>) {
    forall x | x in s.added :: x in s.queue || x in s.processing
  }

  lemma TakenLosesNothing<T>(s: State<T>)
    requires NothingLost(s)
    ensures NothingLost(Taken(s).1)
  {
    var (got, t) := Taken(s);
    forall y | y in t.added ensures y in t.queue || y in t.processing {
      var d := DropStale(s);
      DropsOnlyStale(s);
      if y in s.queue {
        var i :| 0 <= i < |s.queue| && s.queue[i] == y;
        var k := |s.queue| - |d.queue|;
        assert i >= k && d.queue[i - k] == y;
        assert got.Item? && y != got.item && t.queue[i - k - 1] == y;
      }
    }
  }

  lemma {:induction false} NeverLosesWork<T>(s: State<T>, ops: seq<Op<T>>)
    requires NothingLost(s)
    ensures NothingLost(Run(s, ops))
    decreases |ops|
  {
    if ops == [] {
    } else {
      if ops[0].Get? {
        TakenLosesNothing(s);
      }
      NeverLosesWork(Step(s, ops[0]), ops[1..]);
    }
  }

  function Bit(b: bool): nat {
    if b then 1 else 0
  }

  /** Adds of `x` that the queue accepts. */
  function AcceptedAdds<T(==)>(s: State<T>, ops: seq<Op<T>>, x: T): nat
    decreases |ops|
  {
    if ops == [] then 0
    else Bit(ops[0] == Add(x) && !s.closed && x !in s.added) + AcceptedAdds(Step(s, ops[0]), ops[1..], x)
  }

  /** Removes of `x` that take away a pending item. */
  function EffectiveRemoves<T(==)>(s: State<T>, ops: seq<Op<T>>, x: T): nat
    decreases |ops|
  {
    if ops == [] then 0
    else Bit(ops[0] == Remove(x) && x in s.added) + EffectiveRemoves(Step(s, ops[0]), ops[1..], x)
  }

  function Occurrences<T(==)>(q: seq<T>, x: T): nat {
    if q == [] then 0 else Bit(q[0] == x) + Occurrences(q[1..], x)
  }

  /** Conservation on every run whatever the callers do: an accepted item is handed out
      once, removed once, or still pending. */
  lemma {:induction false} WorkIsConserved<T>(s: State<T>, ops: seq<Op<T>>, x: T)
    ensures Bit(x in s.added) + AcceptedAdds(s, ops, x)
         == Occurrences(HandedOut(s, ops), x) + EffectiveRemoves(s, ops, x) + Bit(x in Run(s, ops).added)
    decreases |ops|
  {
    if ops == [] {
    } else {
      var op, t := ops[0], Step(s, ops[0]);
      StepConserves(s, op, x);
      WorkIsConserved(t, ops[1..], x);
      OccurrencesOfConcat(HandedBy(s, op), HandedOut(t, ops[1..]), x);
    }
  }

  lemma StepConserves<T>(s: State<T>, op: Op<T>, x: T)
    ensures Bit(x in s.added) + Bit(op == Add(x) && !s.closed && x !in s.added)
         == Occurrences(HandedBy(s, op), x) + Bit(op == Remove(x) && x in s.added) + Bit(x in Step(s, op).added)
  {
    if op.Get? && Taken(s).0.Item? {
      var y := Taken(s).0.item;
      assert y == DropStale(s).queue[0] && HandedBy(s, op) == [y];
    }
  }

  lemma {:induction false} OccurrencesOfConcat<T>(a: seq<T>, b: seq<T>, x: T)
    ensures Occurrences(a + b, x) == Occurrences(a, x) + Occurrences(b, x)
  {
    if a == [] {
      assert a + b == b;
    } else {
      assert (a + b)[1..] == a[1..] + b;
      OccurrencesOfConcat(a[1..], b, x);
    }
  }

  /** An Add accepted while its item is being processed is not forgotten: unless it is
      removed or still pending at the end, the item is handed out again. */
  lemma AddWhileProcessingIsServed<T>(s: State<T>, ops: seq<Op<T>>, x: T)
    requires x in s.processing && x !in s.added && !s.closed
    requires EffectiveRemoves(Added(s, x), ops, x) == 0
    requires x !in Run(Added(s, x), ops).added
    ensures x in HandedOut(Added(s, x), ops)
  {
    WorkIsConserved(Added(s, x), ops, x);
    OccursOnlyIfPresent(HandedOut(Added(s, x), ops), x);
  }

  lemma {:induction false} OccursOnlyIfPresent<T>(q: seq<T>, x: T)
    ensures Occurrences(q, x) > 0 <==> x in q
  {
    if q == [] {
    } else {
      OccursOnlyIfPresent(q[1..], x);
    }
  }

  /** After Close the work left is bounded by what is pending, whatever workers do. */
  lemma {:induction false} ShutdownIsBounded<T>(s: State<T>, ops: seq<Op<T>>)
    requires s.closed
    ensures |HandedOut(s, ops)| + |Run(s, ops).added| <= |s.added|
    decreases |ops|
  {
    if ops == [] {
    } else {
      var t := Step(s, ops[0]);
      ShutdownIsBounded(t, ops[1..]);
      if ops[0].Remove? {
        assert t.added <= s.added;
        SubsetIsNotLarger(t.added, s.added);
      }
    }
  }

  lemma {:induction false} SubsetIsNotLarger<T>(a: set<T>, b: set<T>)
    requires a <= b
    ensures |a| <= |b|
  {
    if a == {} {
    } else {
      var x :| x in a;
      SubsetIsNotLarger(a - {x}, b - {x});
    }
  }

  /** Remove followed by Add leaves two entries, and the item is handed out while it is
      being processed: without the discipline exclusivity is lost. */
  lemma RemoveBreaksExclusivity<T>(x: T)
    ensures var s := Run(Empty(), [Add(x), Remove(x), Add(x), Get, Add(x)]);
            x in s.processing && Taken(s).0 == Item(x)
  {
    var s3: State<T> := State({x}, {}, false, [x, x]);
    assert Added(Removed(Added(Empty(), x), x), x) == s3;
    var s4: State<T> := State({}, {x}, false, [x]);
    assert Taken(s3).1 == s4 by {
      TakesLiveHead(s3, x);
    }
    var s5: State<T> := State({x}, {x}, false, [x]);
    assert Added(s4, x) == s5;
    TakesLiveHead(s5, x);
    RunFive(Empty(), Add(x), Remove(x), Add(x), Get, Add(x));
  }

  lemma TakesLiveHead<T>(s: State<T>, x: T)
    requires s.queue != [] && s.queue[0] == x && x in s.added
    ensures Taken(s) == (Item(x), State(s.added - {x}, s.processing + {x}, s.closed, s.queue[1..]))
  {
  }

  lemma RunFive<T>(s: State<T>, a: Op<T>, b: Op<T>, c: Op<T>, d: Op<T>, e: Op<T>)
    ensures Run(s, [a, b, c, d, e]) == Step(Step(Step(Step(Step(s, a), b), c), d), e)
  {
    var t := Step(Step(Step(s, a), b), c);
    assert [d, e][1..] == [e] && [e][1..] == [];
    assert Run(Step(t, d), [e]) == Step(Step(t, d), e);
    assert Run(t, [d, e]) == Step(Step(t, d), e);
    assert [c, d, e][1..] == [d, e];
    assert Run(Step(Step(s, a), b), [c, d, e]) == Run(t, [d, e]);
    assert [b, c, d, e][1..] == [c, d, e];
    assert Run(Step(s, a), [b, c, d, e]) == Run(t, [d, e]);
    assert [a, b, c, d, e][1..] == [b, c, d, e];
  }

  /** Process moves a failing item to the back of the queue, ready again, and finishes a
      succeeding one. */
  lemma ProcessRetriesAtTheBack<T>(s: State<T>, nil: T, fails: T -> bool)
    requires Exclusive(s) && !s.closed && s.queue != []
    ensures var x, t := s.queue[0], Processed(s, nil, fails);
            && Exclusive(t) && t.processing == s.processing
            && (fails(x) ==> t.added == s.added && t.queue == s.queue[1..] + [x])
            && (!fails(x) ==> t.added == s.added - {x} && t.queue == s.queue[1..])
  {
    TakenFromExclusive(s);
    var x, u := s.queue[0], Taken(s).1;
    StepKeepsOrder(u, Add(x));
    var v := if fails(x) then Added(u, x) else u;
    StepKeepsOrder(v, Done(x));
    assert x in s.queue;
  }

  lemma FinishedTurn<T>(s: State<T>, x: T)
    requires Exclusive(s) && s.queue != [] && x == s.queue[0]
    ensures x !in s.queue[1..] && x in s.added && x !in s.processing
    ensures Exclusive(State(s.added - {x}, s.processing, s.closed, s.queue[1..]))
    ensures Exclusive(State(s.added, s.processing, s.closed, s.queue[1..] + [x]))
  {
    assert x in s.queue && s.queue == [x] + s.queue[1..];
    HeadOccursOnce(s.queue);
  }

  /** One turn on the queue: the first item is done with, or back at the end of an open queue. */
  lemma TurnOnQueue<T>(s: State<T>, err: bool)
    requires Exclusive(s) && s.queue != []
    ensures Taken(s).0 == Item(s.queue[0]) && s.queue[0] in s.added
    ensures var x, u, again := s.queue[0], Taken(s).1, err && !s.closed;
            var t := Finished(if err then Added(u, x) else u, x);
            && Exclusive(t)
            && t == State(if again then s.added else s.added - {x}, s.processing, s.closed,
                          s.queue[1..] + if again then [x] else [])
  {
    var x := s.queue[0];
    TakenFromExclusive(s);
    FinishedTurn(s, x);
    assert s.processing + {x} - {x} == s.processing;
    assert s.added - {x} + {x} == s.added;
    assert s.queue[1..] + [] == s.queue[1..];
  }

  // ----- Items that are never equal -----

  function AddedAll<T>(s: State<T>, xs: seq<T>): State<T>
    decreases |xs|
  {
    if xs == [] then s else AddedAll(Added(s, xs[0]), xs[1..])
  }

  lemma {:induction false} AddedAllConcat<T>(s: State<T>, xs: seq<T>, ys: seq<T>)
    ensures AddedAll(s, xs + ys) == AddedAll(AddedAll(s, xs), ys)
    decreases |xs|
  {
    if xs == [] {
      assert xs + ys == ys;
    } else {
      assert (xs + ys)[1..] == xs[1..] + ys;
      AddedAllConcat(Added(s, xs[0]), xs[1..], ys);
    }
  }

  lemma AddedAllSnoc<T>(s: State<T>, xs: seq<T>, x: T)
    ensures AddedAll(s, xs + [x]) == Added(AddedAll(s, xs), x)
  {
    AddedAllConcat(s, xs, [x]);
    assert [x][1..] == [];
  }

  lemma AddedOne<T>(s: State<T>, x: T)
    ensures AddedAll(s, [x]) == Added(s, x)
  {
    assert [x][1..] == [];
  }

  /** Adding items the queue has never seen appends them all. */
  lemma {:induction false} NewItemsAreAppended<T>(s: State<T>, xs: seq<T>)
    requires Exclusive(s) && !s.closed && NoDuplicates(xs)
    requires forall x | x in xs :: x !in s.added && x !in s.processing
    ensures var t := AddedAll(s, xs);
            && t.queue == s.queue + xs && t.processing == s.processing && !t.closed
            && t.added == s.added + Elements(xs)
            && Exclusive(t)
    decreases |xs|
  {
    if xs == [] {
      assert s.queue + xs == s.queue;
    } else {
      var x, rest := xs[0], xs[1..];
      NewItemIsAppended(s, x);
      assert x !in rest by {
        HeadOccursOnce(xs);
      }
      assert NoDuplicates(rest);
      forall y | y in rest ensures y !in Added(s, x).added && y !in s.processing {
        assert y in xs;
      }
      NewItemsAreAppended(Added(s, x), rest);
      assert s.queue + xs == (s.queue + [x]) + rest;
      ElementsOfCons(xs);
    }
  }

  lemma NewItemIsAppended<T>(s: State<T>, x: T)
    requires Exclusive(s) && !s.closed && x !in s.added && x !in s.processing
    ensures Added(s, x) == State(s.added + {x}, s.processing, false, s.queue + [x])
    ensures Exclusive(Added(s, x))
  {
    StepKeepsOrder(s, Add(x));
  }

  function Elements<T>(xs: seq<T>): set<T> {
    set x | x in xs
  }

  lemma ElementsOfCons<T>(xs: seq<T>)
    requires xs != []
    ensures Elements(xs) == {xs[0]} + Elements(xs[1..])
  {
    assert xs == [xs[0]] + xs[1..];
  }
}
