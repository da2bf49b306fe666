/** The fair filter keeps node loads as level as any placement can
    (pkg/scheduler/node_filter.go). */
module Balance {
  import opened Arithmetic
  import opened Cluster
  import opened Soundness

  // ----- Loads -----

  function SumTo(loads: seq<nat>, k: nat): nat
    requires k <= |loads|
  {
    if k == 0 then 0 else SumTo(loads, k - 1) + loads[k - 1]
  }

  function Sum(loads: seq<nat>): nat {
    SumTo(loads, |loads|)
  }

  ghost predicate IsTop(loads: seq<nat>, h: nat) {
    h in loads && forall i :: 0 <= i < |loads| ==> loads[i] <= h
  }

  lemma {:induction false} TopExists(loads: seq<nat>)
    requires loads != []
    ensures exists h :: IsTop(loads, h)
  {
    var n := |loads| - 1;
    if n == 0 {
      assert IsTop(loads, loads[0]);
    } else {
      TopExists(loads[..n]);
      var h :| IsTop(loads[..n], h);
      assert forall i :: 0 <= i < n ==> loads[i] == loads[..n][i];
      assert IsTop(loads, if loads[n] > h then loads[n] else h);
    }
  }

  ghost function Highest(loads: seq<nat>): (h: nat)
    requires loads != []
    ensures IsTop(loads, h)
  {
    TopExists(loads);
    var h :| IsTop(loads, h);
    h
  }

  ghost function Lowest(loads: seq<nat>): nat
    requires loads != []
  {
    loads[Least(loads)]
  }

  ghost function Spread(loads: seq<nat>): int
    requires loads != []
  {
    Highest(loads) - Lowest(loads)
  }

  function PlaceAt(loads: seq<nat>, i: nat): (r: seq<nat>)
    requires i < |loads|
    ensures |r| == |loads|
  {
    loads[i := loads[i] + 1]
  }

  /** One claim goes to the first least loaded node. */
  ghost function PlaceNext(loads: seq<nat>): seq<nat>
    requires loads != []
  {
    PlaceAt(loads, Least(loads))
  }

  ghost function PlaceMany(loads: seq<nat>, k: nat): (r: seq<nat>)
    requires loads != []
    ensures |r| == |loads|
  {
    if k == 0 then loads else PlaceNext(PlaceMany(loads, k - 1))
  }

  /** Any other way to place claims, node by node. */
  function PlaceBy(loads: seq<nat>, choices: seq<nat>): (r: seq<nat>)
    requires forall i :: 0 <= i < |choices| ==> choices[i] < |loads|
    ensures |r| == |loads|
  {
    if choices == [] then loads
    else PlaceAt(PlaceBy(loads, choices[..|choices| - 1]), choices[|choices| - 1])
  }

  // ----- Sums -----

  lemma {:induction false} SumOfUpdate(loads: seq<nat>, i: nat, v: nat, k: nat)
    requires i < |loads| && k <= |loads|
    ensures SumTo(loads[i := v], k) == SumTo(loads, k) + if i < k then v - loads[i] else 0
  {
    if k > 0 {
      SumOfUpdate(loads, i, v, k - 1);
    }
  }

  lemma SumOfPlaceAt(loads: seq<nat>, i: nat)
    requires i < |loads|
    ensures Sum(PlaceAt(loads, i)) == Sum(loads) + 1
  {
    SumOfUpdate(loads, i, loads[i] + 1, |loads|);
  }

  lemma {:induction false} SumIsBounded(loads: seq<nat>, h: nat, k: nat)
    requires k <= |loads| && forall i :: 0 <= i < |loads| ==> loads[i] <= h
    ensures SumTo(loads, k) <= h * k
    ensures SumTo(loads, k) == h * k <==> forall i :: 0 <= i < k ==> loads[i] == h
  {
    if k > 0 {
      SumIsBounded(loads, h, k - 1);
      assert h * k == h * (k - 1) + h;
    }
  }

  /** No placement does better than this height. */
  ghost function Bound(loads: seq<nat>, total: nat): nat
    requires loads != []
  {
    Max(Highest(loads), Ceil(total, |loads|))
  }

  lemma HighestIsAtLeastAverage(loads: seq<nat>)
    requires loads != []
    ensures Ceil(Sum(loads), |loads|) <= Highest(loads)
  {
    SumIsBounded(loads, Highest(loads), |loads|);
    CeilIsLeast(Sum(loads), |loads|, Highest(loads));
  }

  lemma HighestOfPlaceAt(loads: seq<nat>, i: nat)
    requires i < |loads|
    ensures Highest(PlaceAt(loads, i)) == Max(Highest(loads), loads[i] + 1)
  {
    var t := PlaceAt(loads, i);
    assert t[i] == loads[i] + 1;
    var j :| 0 <= j < |loads| && loads[j] == Highest(loads);
    assert t[j] >= loads[j];
  }

  /** Every placement ends at least as high as the bound. */
  lemma {:induction false} NoPlacementBeatsTheBound(loads: seq<nat>, choices: seq<nat>)
    requires loads != [] && forall i :: 0 <= i < |choices| ==> choices[i] < |loads|
    ensures Sum(PlaceBy(loads, choices)) == Sum(loads) + |choices|
    ensures Highest(PlaceBy(loads, choices)) >= Bound(loads, Sum(loads) + |choices|)
  {
    if choices == [] {
    } else {
      var front, c := choices[..|choices| - 1], choices[|choices| - 1];
      NoPlacementBeatsTheBound(loads, front);
      PlaceAtRaises(PlaceBy(loads, front), c);
    }
    HighestIsAtLeastAverage(PlaceBy(loads, choices));
  }

  lemma PlaceAtRaises(loads: seq<nat>, i: nat)
    requires i < |loads|
    ensures Sum(PlaceAt(loads, i)) == Sum(loads) + 1
    ensures Highest(PlaceAt(loads, i)) >= Highest(loads)
  {
    SumOfPlaceAt(loads, i);
    HighestOfPlaceAt(loads, i);
  }

  // ----- The greedy step -----

  lemma SumAgainstTop(loads: seq<nat>)
    requires loads != []
    ensures Lowest(loads) < Highest(loads) ==> Sum(loads) < Highest(loads) * |loads|
    ensures Lowest(loads) == Highest(loads) ==> Sum(loads) == Highest(loads) * |loads|
  {
    var h := Highest(loads);
    SumIsBounded(loads, h, |loads|);
    if Lowest(loads) == h {
      assert forall i :: 0 <= i < |loads| ==> loads[i] == h;
    }
  }

  /** Below the top there is room; level at the top one more makes a new top. */
  lemma NextTop(first: nat, top: nat, low: nat, sum: nat, n: nat)
    requires n > 0 && low <= top && top == Max(first, Ceil(sum, n))
    requires low < top ==> sum < top * n
    requires low == top ==> sum == top * n
    ensures Max(top, low + 1) == Max(first, Ceil(sum + 1, n))
  {
    CeilOfOneMore(sum, n, top);
    CeilIsMonotone(sum, sum + 1, n);
  }

  lemma TopAfterOneMore(first: nat, now: seq<nat>, top: nat, low: nat, sum: nat, n: nat)
    requires now != [] && top == Highest(now) && low == Lowest(now) && sum == Sum(now) && n == |now|
    requires low <= top && top == Max(first, Ceil(sum, n))
    ensures Max(top, low + 1) == Max(first, Ceil(sum + 1, n))
  {
    assert (low < top ==> sum < top * n) && (low == top ==> sum == top * n) by {
      SumAgainstTop(now);
    }
    NextTop(first, top, low, sum, n);
  }

  lemma PlaceNextEffect(now: seq<nat>)
    requires now != []
    ensures Sum(PlaceNext(now)) == Sum(now) + 1
    ensures Highest(PlaceNext(now)) == Max(Highest(now), Lowest(now) + 1)
    ensures Lowest(now) <= Highest(now)
  {
    SumOfPlaceAt(now, Least(now));
    HighestOfPlaceAt(now, Least(now));
  }

  lemma StepStaysOnTheBound(first: nat, now: seq<nat>)
    requires now != [] && Highest(now) == Max(first, Ceil(Sum(now), |now|))
    ensures Sum(PlaceNext(now)) == Sum(now) + 1
    ensures Highest(PlaceNext(now)) == Max(first, Ceil(Sum(now) + 1, |now|))
  {
    PlaceNextEffect(now);
    TopAfterOneMore(first, now, Highest(now), Lowest(now), Sum(now), |now|);
  }

  lemma StepKeepsSpread(now: seq<nat>)
    requires now != []
    ensures Spread(PlaceNext(now)) <= Max(Spread(now), 1)
  {
    HighestOfPlaceAt(now, Least(now));
    var t := PlaceNext(now);
    assert forall i :: 0 <= i < |t| ==> Lowest(now) <= now[i] <= t[i];
    assert Lowest(t) >= Lowest(now);
  }

  /** Placing k claims one after another on the first least loaded of n nodes ends with the
      highest load exactly max(initial highest, ceil((initial total + k) / n)), which no
      other placement undercuts, and never widens the spread beyond max(initial, 1). */
  lemma {:induction false} GreedyIsOptimal(loads: seq<nat>, k: nat)
    requires loads != []
    ensures Sum(PlaceMany(loads, k)) == Sum(loads) + k
    ensures Highest(PlaceMany(loads, k)) == Max(Highest(loads), Ceil(Sum(loads) + k, |loads|))
    ensures Spread(PlaceMany(loads, k)) <= Max(Spread(loads), 1)
  {
    if k == 0 {
      HighestIsAtLeastAverage(loads);
    } else {
      GreedyIsOptimal(loads, k - 1);
      StepStaysOnTheBound(Highest(loads), PlaceMany(loads, k - 1));
      StepKeepsSpread(PlaceMany(loads, k - 1));
    }
  }

  // ----- Placing claims -----

  /** Node names are distinct and not empty. */
  ghost predicate ProperNodes(nodes: seq<Node>) {
    && (forall i, j :: 0 <= i < j < |nodes| ==> nodes[i].name != nodes[j].name)
    && forall i :: 0 <= i < |nodes| ==> nodes[i].name != ""
  }

  /** A cached claim with a living owner that is on no live node. */
  predicate Placeable(w: World, key: string) {
    && key in w.cache && OwnersAlive(w, w.cache[key].owners) != []
    && (w.cache[key].node == "" || w.cache[key].node !in w.live)
  }

  lemma LoadAfterPlacing(cache: map<string, Claim>, key: string, e: Claim, node: string)
    requires key in cache && cache[key].node != node && node != ""
    ensures Load(cache[key := e], node) == Load(cache, node) + if e.node == node then 1 else 0
  {
    var t := cache[key := e];
    var before := set k | k in cache && cache[k].node == node;
    var after := set k | k in t && t[k].node == node;
    assert after == if e.node == node then before + {key} else before;
  }

  lemma LoadsAfterPlacing(cache: map<string, Claim>, key: string, e: Claim, nodes: seq<Node>, i: nat)
    requires key in cache && i < |nodes| && ProperNodes(nodes) && e.node == nodes[i].name
    requires forall j :: 0 <= j < |nodes| ==> cache[key].node != nodes[j].name
    ensures Loads(cache[key := e], nodes) == PlaceAt(Loads(cache, nodes), i)
  {
    forall j | 0 <= j < |nodes|
      ensures Loads(cache[key := e], nodes)[j] == PlaceAt(Loads(cache, nodes), i)[j]
    {
      LoadAfterPlacing(cache, key, e, nodes[j].name);
    }
  }

  /** The live nodes a world offers to the fair filter. */
  ghost predicate FairNodes(w: World, nodes: seq<Node>) {
    w.filter.Fair? && nodes == LiveNodes(w.nodes, w.live) && nodes != [] && ProperNodes(nodes)
  }

  lemma PlacingOneClaim(w: World, key: string, nodes: seq<Node>)
    requires Placeable(w, key) && ValidPools(w.pools) && FairNodes(w, nodes)
    ensures var e := ClaimOutcome(w, key).0;
            && e.node == nodes[Least(Loads(w.cache, nodes))].name
            && Loads(w.cache[key := e], nodes) == PlaceNext(Loads(w.cache, nodes))
  {
    var e, i := ClaimOutcome(w, key).0, Least(Loads(w.cache, nodes));
    assert e.node == nodes[i].name;
    forall j | 0 <= j < |nodes| ensures w.cache[key].node != nodes[j].name {
      assert nodes[j] in nodes;
    }
    LoadsAfterPlacing(w.cache, key, e, nodes, i);
  }

  /** A placeable claim never fails while a live node is listed. */
  lemma PlacingTouches(w: World, key: string, nodes: seq<Node>)
    requires Placeable(w, key) && ValidPools(w.pools) && FairNodes(w, nodes)
    ensures var (t, err) := ClaimProcessed(w, key);
            !err && t == w.(cache := w.cache[key := ClaimOutcome(w, key).0], changes := t.changes, next := t.next)
  {
    var (e, rs) := ClaimOutcome(w, key);
    SendAllChangesOnlyTheQueue(w.(cache := w.cache[key := e]), rs);
  }

  ghost predicate Processes(w: World, key: string, t: World) {
    key in w.cache && ValidPools(w.pools) && t == ClaimProcessed(w, key).0
  }

  /** Claims processed one after another. */
  ghost predicate ProcessesAll(ws: seq<World>, keys: seq<string>) {
    |ws| == |keys| + 1 && forall i {:trigger keys[i]} :: 0 <= i < |keys| ==> Processes(ws[i], keys[i], ws[i + 1])
  }

  /** The claims from index k on are placeable, and all are different. */
  ghost predicate DistinctPlaceable(w: World, keys: seq<string>, k: nat) {
    && (forall i :: k <= i < |keys| ==> Placeable(w, keys[i]))
    && forall i, j :: 0 <= i < j < |keys| ==> keys[i] != keys[j]
  }

  lemma OthersStayPlaceable(w: World, t: World, keys: seq<string>, k: nat)
    requires k < |keys| && DistinctPlaceable(w, keys, k)
    requires t.live == w.live && t.services == w.services && t.existing == w.existing
    requires t.cache.Keys == w.cache.Keys && forall q | q in w.cache && q != keys[k] :: t.cache[q] == w.cache[q]
    ensures DistinctPlaceable(t, keys, k + 1)
  {
    forall i | k + 1 <= i < |keys| ensures Placeable(t, keys[i]) {
      assert Placeable(w, keys[i]) && keys[i] != keys[k];
      SameOwners(w, t, w.cache[keys[i]].owners);
    }
  }

  lemma PlaceStep(w: World, keys: seq<string>, k: nat, nodes: seq<Node>, t: World)
    requires FairNodes(w, nodes) && k < |keys| && DistinctPlaceable(w, keys, k) && Processes(w, keys[k], t)
    ensures FairNodes(t, nodes) && DistinctPlaceable(t, keys, k + 1)
    ensures Loads(t.cache, nodes) == PlaceNext(Loads(w.cache, nodes))
  {
    assert Placeable(w, keys[k]);
    PlacingOneClaim(w, keys[k], nodes);
    PlacingTouches(w, keys[k], nodes);
    OthersStayPlaceable(w, t, keys, k);
  }

  lemma ProcessedAt(ws: seq<World>, keys: seq<string>, k: nat)
    requires ProcessesAll(ws, keys) && 0 < k <= |keys|
    ensures Processes(ws[k - 1], keys[k - 1], ws[k])
  {
  }

  /** The loads are those of greedy placement, and the run can go on. */
  ghost predicate Greedy(first: seq<nat>, w: World, keys: seq<string>, nodes: seq<Node>, k: nat) {
    && first != [] && FairNodes(w, nodes) && DistinctPlaceable(w, keys, k)
    && Loads(w.cache, nodes) == PlaceMany(first, k)
  }

  lemma StaysGreedy(first: seq<nat>, w: World, keys: seq<string>, k: nat, nodes: seq<Node>, t: World)
    requires 0 < k <= |keys| && Processes(w, keys[k - 1], t) && Greedy(first, w, keys, nodes, k - 1)
    ensures Greedy(first, t, keys, nodes, k)
  {
    PlaceStep(w, keys, k - 1, nodes, t);
  }

  /** From point k - 1 to point k. */
  lemma NextGreedy(first: seq<nat>, ws: seq<World>, keys: seq<string>, nodes: seq<Node>, k: nat)
    requires ProcessesAll(ws, keys) && 0 < k <= |keys| && Greedy(first, ws[k - 1], keys, nodes, k - 1)
    ensures Greedy(first, ws[k], keys, nodes, k)
  {
    ProcessedAt(ws, keys, k);
    StaysGreedy(first, ws[k - 1], keys, k, nodes, ws[k]);
  }

  lemma {:induction false} GreedyUpTo(first: seq<nat>, ws: seq<World>, keys: seq<string>, nodes: seq<Node>, k: nat)
    requires ProcessesAll(ws, keys) && k <= |keys| && Greedy(first, ws[0], keys, nodes, 0)
    ensures Greedy(first, ws[k], keys, nodes, k)
  {
    if k > 0 {
      GreedyUpTo(first, ws, keys, nodes, k - 1);
      NextGreedy(first, ws, keys, nodes, k);
    }
  }

  /** The fair filter is the greedy placement. */
  lemma FairPlacementIsGreedy(ws: seq<World>, keys: seq<string>, nodes: seq<Node>)
    requires ProcessesAll(ws, keys) && FairNodes(ws[0], nodes) && DistinctPlaceable(ws[0], keys, 0)
    ensures Loads(ws[|keys|].cache, nodes) == PlaceMany(Loads(ws[0].cache, nodes), |keys|)
  {
    GreedyUpTo(Loads(ws[0].cache, nodes), ws, keys, nodes, |keys|);
  }

  /** `after` is as good as placing |choices| claims on `before` can end: its top load is
      max(initial highest, ceil((initial total + k) / n)), the given choices do no better,
      and the spread is at most max(initial spread, 1). */
  ghost predicate Optimal(before: seq<nat>, after: seq<nat>, choices: seq<nat>) {
    && |after| == |before| > 0
    && (forall i :: 0 <= i < |choices| ==> choices[i] < |before|)
    && Highest(after) == Max(Highest(before), Ceil(Sum(before) + |choices|, |before|))
    && Highest(after) <= Highest(PlaceBy(before, choices))
    && Spread(after) <= Max(Spread(before), 1)
  }

  lemma GreedyAgainstAnyChoice(before: seq<nat>, after: seq<nat>, choices: seq<nat>)
    requires before != [] && after == PlaceMany(before, |choices|)
    requires forall i :: 0 <= i < |choices| ==> choices[i] < |before|
    ensures Optimal(before, after, choices)
  {
    GreedyIsOptimal(before, |choices|);
    NoPlacementBeatsTheBound(before, choices);
  }

  /** A fair placement run: its claims, its live nodes, and the loads before and after. */
  ghost predicate FairRun(ws: seq<World>, keys: seq<string>, nodes: seq<Node>, before: seq<nat>, after: seq<nat>) {
    && ProcessesAll(ws, keys) && FairNodes(ws[0], nodes) && DistinctPlaceable(ws[0], keys, 0)
    && before == Loads(ws[0].cache, nodes) && after == Loads(ws[|keys|].cache, nodes)
  }

  lemma FairRunIsGreedy(ws: seq<World>, keys: seq<string>, nodes: seq<Node>, before: seq<nat>, after: seq<nat>)
    requires FairRun(ws, keys, nodes, before, after)
    ensures |before| == |nodes| > 0 && after == PlaceMany(before, |keys|)
  {
    FairPlacementIsGreedy(ws, keys, nodes);
  }

  /** Placing k claims that are on no live node, one by one, ends with the lowest possible
      top load, and the loads stay as level as they were. */
  lemma FairPlacementIsOptimal(ws: seq<World>, keys: seq<string>, nodes: seq<Node>, choices: seq<nat>,
                               before: seq<nat>, after: seq<nat>)
    requires FairRun(ws, keys, nodes, before, after)
    requires |choices| == |keys| && forall i :: 0 <= i < |choices| ==> choices[i] < |nodes|
    ensures Optimal(before, after, choices)
  {
    FairRunIsGreedy(ws, keys, nodes, before, after);
    GreedyAgainstAnyChoice(before, after, choices);
  }
}
