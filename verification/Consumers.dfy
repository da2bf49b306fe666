/** Producers, consumers and a closer interleaved over one work queue.

    `Get` waits on the condition variable under an `if`, not a loop, so what it finds
    after waking up depends on who else takes items.  This module runs any number of
    consumers against the queue, one atomic critical section per step, and shows that
    the wake-up is never spurious exactly when there is at most one consumer. */
module Consumers {
  import opened WorkQueue
  import opened QueueRuns

  /** Where a consumer is: outside Get, blocked in Wait, signalled but not yet running,
      processing an item, told to quit, or returned from Get with `(nil, false)`. */
  datatype Pc<T> = Idle | Waiting | Woken | Working(item: T) | Exited | GotNothing

  datatype Machine<T(==)> = Machine(q: State<T>, pcs: seq<Pc<T>>)

  /** Signal wakes one waiting consumer, if there is one. */
  ghost predicate Signals<T(!new)>(pcs: seq<Pc<T>>, pcs': seq<Pc<T>>) {
    if Waiting in pcs then exists i :: 0 <= i < |pcs| && pcs[i] == Waiting && pcs' == pcs[i := Woken]
    else pcs' == pcs
  }

  function Broadcast<T>(pcs: seq<Pc<T>>): seq<Pc<T>> {
    seq(|pcs|, i requires 0 <= i < |pcs| => if pcs[i].Waiting? then Woken else pcs[i])
  }

  ghost predicate Produces<T(!new)>(m: Machine<T>, m': Machine<T>, x: T) {
    && m'.q == Added(m.q, x)
    && (if ReadiedBy(m.q, Add(x)) != [] then Signals(m.pcs, m'.pcs) else m'.pcs == m.pcs)
  }

  predicate Closes<T>(m: Machine<T>, m': Machine<T>) {
    m' == Machine(Closed(m.q), Broadcast(m.pcs))
  }

  /** The part of Get that follows the wait. */
  predicate Delivers<T(==)>(m: Machine<T>, m': Machine<T>, i: nat)
    requires i < |m.pcs|
  {
    var (got, q) := Taken(m.q);
    var pc := match got
              case Item(x) => Working(x)
              case Nothing(quit) => if quit then Exited else GotNothing;
    m' == Machine(q, m.pcs[i := pc])
  }

  predicate Gets<T(==)>(m: Machine<T>, m': Machine<T>, i: nat)
    requires i < |m.pcs|
  {
    m.pcs[i].Idle? &&
    if m.q.queue == [] && !m.q.closed then m' == m.(pcs := m.pcs[i := Waiting]) else Delivers(m, m', i)
  }

  ghost predicate Finishes<T(!new)>(m: Machine<T>, m': Machine<T>, i: nat)
    requires i < |m.pcs|
  {
    m.pcs[i].Working? &&
    var x, pcs := m.pcs[i].item, m.pcs[i := Idle];
    && m'.q == Finished(m.q, x)
    && if x in m.q.added then Signals(pcs, m'.pcs) else m'.pcs == pcs
  }

  ghost predicate Consumes<T(!new)>(m: Machine<T>, m': Machine<T>, i: nat) {
    i < |m.pcs| && (Gets(m, m', i) || (m.pcs[i].Woken? && Delivers(m, m', i)) || Finishes(m, m', i))
  }

  /** One critical section of some goroutine; nobody calls Remove. */
  ghost predicate Next<T(!new)>(m: Machine<T>, m': Machine<T>) {
    || (exists x :: Produces(m, m', x))
    || Closes(m, m')
    || (exists i: nat :: Consumes(m, m', i))
  }

  function Initial<T>(n: nat): Machine<T> {
    Machine(Empty(), seq(n, _ => Idle))
  }

  ghost predicate IsRun<T(!new)>(n: nat, run: seq<Machine<T>>) {
    && run != [] && run[0] == Initial(n)
    && forall i :: 0 <= i < |run| - 1 ==> Next(run[i], run[i + 1])
  }

  // ----- One consumer -----

  ghost predicate SingleConsumer<T>(m: Machine<T>) {
    && |m.pcs| == 1
    && Exclusive(m.q)
    && m.q.processing == (if m.pcs[0].Working? then {m.pcs[0].item} else {})
    && (m.pcs[0].Waiting? ==> m.q.queue == [] && !m.q.closed)
    && (m.pcs[0].Woken? ==> m.q.queue != [] || m.q.closed)
    && !m.pcs[0].GotNothing?
  }

  lemma DeliveryIsSound<T>(m: Machine<T>, m': Machine<T>)
    requires SingleConsumer(m) && Delivers(m, m', 0) && !m.pcs[0].Working?
    requires m.q.queue != [] || m.q.closed
    ensures SingleConsumer(m')
  {
    TakenFromExclusive(m.q);
  }

  lemma ProducingKeepsSingleConsumer<T(!new)>(m: Machine<T>, m': Machine<T>, x: T)
    requires SingleConsumer(m) && Produces(m, m', x)
    ensures SingleConsumer(m')
  {
    StepKeepsOrder(m.q, Add(x));
    SignalToOne(m.pcs);
    assert m'.q.processing == m.q.processing;
    assert m'.pcs == m.pcs || (m.pcs == [Waiting] && m'.pcs == [Woken] && m'.q.queue != []);
  }

  lemma SignalToOne<T(!new)>(pcs: seq<Pc<T>>)
    requires |pcs| == 1
    ensures forall pcs' :: Signals(pcs, pcs') ==> pcs' == if pcs == [Waiting] then [Woken] else pcs
  {
    assert pcs == [pcs[0]];
  }

  lemma FinishingKeepsSingleConsumer<T(!new)>(m: Machine<T>, m': Machine<T>)
    requires SingleConsumer(m) && Finishes(m, m', 0)
    ensures SingleConsumer(m')
  {
    StepKeepsOrder(m.q, Done(m.pcs[0].item));
    assert m.pcs[0 := Idle] == [Idle];
    assert m'.pcs == [Idle];
  }

  lemma ConsumingKeepsSingleConsumer<T(!new)>(m: Machine<T>, m': Machine<T>, i: nat)
    requires SingleConsumer(m) && Consumes(m, m', i)
    ensures SingleConsumer(m')
  {
    if m.pcs[i].Working? {
      FinishingKeepsSingleConsumer(m, m');
    } else if m.q.queue != [] || m.q.closed {
      DeliveryIsSound(m, m');
    }
  }

  lemma StepKeepsSingleConsumer<T(!new)>(m: Machine<T>, m': Machine<T>)
    requires SingleConsumer(m) && Next(m, m')
    ensures SingleConsumer(m')
  {
    if x :| Produces(m, m', x) {
      ProducingKeepsSingleConsumer(m, m', x);
    } else if Closes(m, m') {
    } else {
      var i: nat :| Consumes(m, m', i);
      ConsumingKeepsSingleConsumer(m, m', i);
    }
  }

  lemma {:induction false} RunKeepsSingleConsumer<T(!new)>(run: seq<Machine<T>>, k: nat)
    requires IsRun(1, run) && k < |run|
    ensures SingleConsumer(run[k])
  {
    if k == 0 {
      assert run[0].q == Empty<T>();
    } else {
      RunKeepsSingleConsumer(run, k - 1);
      StepKeepsSingleConsumer(run[k - 1], run[k - 1 + 1]);
    }
  }

  /** With one consumer, waiting unsignalled means there is nothing to do and the queue is
      open, and Get never returns `(nil, false)`. */
  lemma SingleConsumerWakeUp<T(!new)>(run: seq<Machine<T>>, k: nat)
    requires IsRun(1, run) && k < |run|
    ensures run[k].pcs != [GotNothing]
    ensures run[k].pcs == [Waiting] ==> run[k].q.queue == [] && run[k].q.added == {} && !run[k].q.closed
  {
    RunKeepsSingleConsumer(run, k);
    var q := run[k].q;
    if run[k].pcs == [Waiting] {
      assert forall x | x in q.added :: x in q.queue;
    }
  }

  // ----- Several consumers -----

  /** A second consumer can take the item the first one was woken for. */
  lemma SecondConsumerStealsTheItem<T(!new)>(n: nat, x: T) returns (run: seq<Machine<T>>)
    requires n >= 2
    ensures IsRun(n, run) && GotNothing in run[|run| - 1].pcs
  {
    var m0: Machine<T> := Initial(n);
    var m1 := m0.(pcs := m0.pcs[0 := Waiting]);
    var m2 := Machine(Added(m1.q, x), m1.pcs[0 := Woken]);
    assert m2.q.queue[0] == x;
    TakesLiveHead(m2.q, x);
    var m3 := Machine(Taken(m2.q).1, m2.pcs[1 := Working(x)]);
    var m4 := Machine(m3.q, m3.pcs[0 := GotNothing]);
    assert Consumes(m0, m1, 0);
    assert Produces(m1, m2, x) by {
      assert m1.pcs[0] == Waiting;
    }
    assert Consumes(m2, m3, 1);
    assert m3.q.queue == [];
    assert Taken(m3.q) == (Nothing(false), m3.q);
    assert Consumes(m3, m4, 0);
    run := [m0, m1, m2, m3, m4];
    assert m4.pcs[0] == GotNothing;
  }

  /** Get never comes back empty-handed from an open queue exactly when at most one
      consumer is attached to it. */
  lemma NoSpuriousReturnIffOneConsumer<T(!new)>(n: nat, x: T)
    ensures (forall run: seq<Machine<T>>, k: nat :: IsRun(n, run) && k < |run| ==> GotNothing !in run[k].pcs)
       <==> n <= 1
  {
    if n >= 2 {
      var run := SecondConsumerStealsTheItem(n, x);
      var k := |run| - 1;
      assert IsRun(n, run) && GotNothing in run[k].pcs;
    } else {
      forall run: seq<Machine<T>>, k: nat | IsRun(n, run) && k < |run| ensures GotNothing !in run[k].pcs {
        if n == 1 {
          RunKeepsSingleConsumer(run, k);
        } else {
          NoConsumers(run, k);
        }
      }
    }
  }

  lemma {:induction false} NoConsumers<T(!new)>(run: seq<Machine<T>>, k: nat)
    requires IsRun(0, run) && k < |run|
    ensures run[k].pcs == []
  {
    if k > 0 {
      NoConsumers(run, k - 1);
      assert Next(run[k - 1], run[k - 1 + 1]);
    }
  }
}
