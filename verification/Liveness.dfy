/** Heartbeats and liveness: what the monitor remembers is a fold of all the revisions it has
    ever been shown (pkg/scheduler/scheduler.go, pkg/claimcontroller/controller.go). */
module Liveness {
  import opened Arithmetic
  import opened Strings
  import opened WorkQueue
  import opened Cluster
  import opened ClaimNames
  import opened Soundness

  // ----- One tick -----

  /** The API lists every node once. */
  ghost predicate UniqueNames(nodes: seq<Node>) {
    forall i, j :: 0 <= i < j < |nodes| ==> nodes[i].name != nodes[j].name
  }

  /** The revision listed for a node. */
  function RevisionOf(nodes: seq<Node>, name: string): (r: Option<int>)
    ensures r.Some? <==> exists i :: 0 <= i < |nodes| && nodes[i].name == name
    ensures r.Some? ==> exists i :: 0 <= i < |nodes| && nodes[i] == Node(name, r.value)
  {
    if nodes == [] then None
    else if nodes[0].name == name then Some(nodes[0].revision)
    else
      var r := RevisionOf(nodes[1..], name);
      assert r.Some? ==> exists i ::
               0 <= i < |nodes[1..]| && nodes[1..][i] == Node(name, r.value) && nodes[i + 1] == nodes[1..][i];
      r
  }

  /** What the sight of a listed revision, or none, makes of a node. */
  ghost predicate Decided(w: World, t: World, name: string, r: Option<int>) {
    if r.Some? then
      && Observed(t.observed, name) == Max(Observed(w.observed, name), r.value)
      && (name in t.live <==> Observed(w.observed, name) < r.value)
    else
      && Observed(t.observed, name) == Observed(w.observed, name)
      && (name in t.live <==> name in w.live)
  }

  lemma SeenDecides(w: World, order: seq<string>, node: Node, name: string)
    ensures Decided(w, NodeSeen(w, order, node), name, if node.name == name then Some(node.revision) else None)
  {
  }

  lemma ListedOnce(nodes: seq<Node>)
    requires UniqueNames(nodes) && nodes != []
    ensures UniqueNames(nodes[1..]) && RevisionOf(nodes[1..], nodes[0].name) == None
  {
    forall i | 0 <= i < |nodes[1..]| ensures nodes[1..][i].name != nodes[0].name {
      assert nodes[1..][i] == nodes[i + 1];
    }
  }

  /** A tick raises the remembered revision of a listed node and decides its liveness; it
      leaves every other node alone. */
  lemma {:induction false} TickDecides(w: World, order: seq<string>, nodes: seq<Node>, name: string)
    requires UniqueNames(nodes)
    ensures Decided(w, Ticked(w, order, nodes), name, RevisionOf(nodes, name))
    decreases |nodes|
  {
    if nodes != [] {
      SeenDecides(w, order, nodes[0], name);
      ListedOnce(nodes);
      TickDecides(NodeSeen(w, order, nodes[0]), order, nodes[1..], name);
    }
  }

  // ----- All ticks of a run -----

  /** The revisions of a node that the ticks before point k were shown, oldest first. */
  function History(ws: seq<World>, steps: seq<Step>, name: string, k: nat): seq<int>
    requires |ws| == |steps| + 1 && k <= |steps|
  {
    if k == 0 then []
    else History(ws, steps, name, k - 1) + Shown(ws[k - 1], steps[k - 1], name)
  }

  function Peak(h: seq<int>): (m: int)
    ensures m >= 0 && forall i :: 0 <= i < |h| ==> h[i] <= m
    ensures m == 0 || m in h
  {
    if h == [] then 0 else Max(Peak(h[..|h| - 1]), h[|h| - 1])
  }

  /** The latest revision exceeds 0 and all earlier ones. */
  predicate Fresh(h: seq<int>) {
    h != [] && h[|h| - 1] > 0 && forall i :: 0 <= i < |h| - 1 ==> h[i] < h[|h| - 1]
  }

  lemma FreshMeansAbovePeak(h: seq<int>, r: int)
    ensures Fresh(h + [r]) <==> Peak(h) < r
    ensures Peak(h + [r]) == Max(Peak(h), r)
  {
    var t := h + [r];
    assert t[..|t| - 1] == h;
    assert forall i :: 0 <= i < |h| ==> t[i] == h[i];
  }

  /** Nothing that concerns nodes or claim keys differs. */
  predicate SameMonitor(w: World, t: World) {
    && t.observed == w.observed && t.live == w.live && t.nodes == w.nodes
    && t.keys == w.keys && t.stage == w.stage
  }

  lemma {:induction false} DroppedLeavesMonitor(w: World, ips: seq<string>, refs: set<string>)
    requires ValidPools(w.pools)
    ensures SameMonitor(w, Dropped(w, ips, refs))
    decreases |ips|
  {
    if ips != [] {
      DroppedLeavesMonitor(if ips[0] in refs then w else Released(w, ips[0]), ips[1..], refs);
    }
  }

  lemma ExternalIPsLeaveMonitor(w: World, key: string)
    requires key in w.services && ValidPools(w.pools)
    ensures SameMonitor(w, ExternalIPsProcessed(w, key)) && ValidPools(ExternalIPsProcessed(w, key).pools)
  {
    SendAllChangesOnlyTheQueue(w, ClaimRequests(w.pools, w.mask, key, w.services[key].ips));
  }

  lemma ServiceHandledLeavesMonitor(w: World, key: string, cur: Option<Service>)
    requires ValidPools(w.pools)
    ensures SameMonitor(w, ServiceHandled(w, key, cur))
  {
    var t := Stored(w, key, cur);
    var u := if cur.Some? then ExternalIPsProcessed(t, key) else t;
    if cur.Some? {
      ExternalIPsLeaveMonitor(t, key);
    }
    DroppedLeavesMonitor(u, OldIPs(w, key), Listed(u.services));
  }

  lemma ProcessedLeavesMonitor(w: World, key: string)
    requires key in w.cache && ValidPools(w.pools)
    ensures SameMonitor(w, ClaimProcessed(w, key).0)
  {
    if OwnersAlive(w, w.cache[key].owners) != [] {
      var (e, rs) := ClaimOutcome(w, key);
      SendAllChangesOnlyTheQueue(w.(cache := w.cache[key := e]), rs);
    }
  }

  lemma AppliedLeavesMonitor(w: World, r: Request)
    requires r.change.Create? ==> r.claim.owners != []
    ensures SameMonitor(w, Applied(w, r))
  {
  }

  lemma HandlingLeavesMonitor(w: World)
    requires Serviceable(w)
    ensures SameMonitor(w, ChangeHandled(w))
  {
    var t := Applied(w, w.busy.value.request);
    AppliedLeavesMonitor(w, w.busy.value.request);
    assert ChangeHandled(w) == t.(changes := Finished(t.changes, w.busy.value), busy := None);
  }

  lemma OtherStepsKeepLiveness(w: World, step: Step)
    requires Enabled(w, step) && ValidPools(w.pools) && !step.Tick?
    requires step.HandleChange? ==> Serviceable(w)
    ensures Do(w, step).observed == w.observed && Do(w, step).live == w.live
  {
    if step.HandleChange? {
      HandlingLeavesMonitor(w);
    } else if step.ServiceEvent? {
      ServiceHandledLeavesMonitor(w, step.key, step.cur);
    } else if step.ProcessKey? && w.stage.key in w.cache {
      ProcessedLeavesMonitor(w, w.stage.key);
    }
  }

  /** Every listing of every run names each node once. */
  ghost predicate ProperListings(ws: seq<World>) {
    forall i :: 0 <= i < |ws| ==> UniqueNames(ws[i].nodes)
  }

  /** What one step adds to the history. */
  function Shown(w: World, step: Step, name: string): seq<int> {
    if step.Tick? && RevisionOf(w.nodes, name).Some? then [RevisionOf(w.nodes, name).value] else []
  }

  lemma StepFolds(w: World, step: Step, name: string, h: seq<int>)
    requires Enabled(w, step) && ValidPools(w.pools) && UniqueNames(w.nodes) && (step.HandleChange? ==> Serviceable(w))
    requires Observed(w.observed, name) == Peak(h) && (name in w.live <==> Fresh(h))
    ensures var t, g := Do(w, step), h + Shown(w, step, name);
            Observed(t.observed, name) == Peak(g) && (name in t.live <==> Fresh(g))
  {
    if step.Tick? {
      TickDecides(w, step.order, w.nodes, name);
      if RevisionOf(w.nodes, name).Some? {
        FreshMeansAbovePeak(h, RevisionOf(w.nodes, name).value);
      }
    } else {
      OtherStepsKeepLiveness(w, step);
    }
    assert h + [] == h;
  }

  /** At every point of every run the monitor remembers, for each node, the highest revision
      it was ever shown, and the node counts as live exactly when the latest one it was shown
      exceeds 0 and all earlier ones. */
  lemma {:induction false} LivenessIsAFoldOfHistory(ws: seq<World>, steps: seq<Step>, offer: Offers, name: string,
                                                    k: nat)
    requires IsRun(ws, steps, offer) && ProperListings(ws) && k <= |steps|
    requires ws[0].observed == map[] && ws[0].live == {}
    ensures Observed(ws[k].observed, name) == Peak(History(ws, steps, name, k))
    ensures name in ws[k].live <==> Fresh(History(ws, steps, name, k))
  {
    if k > 0 {
      LivenessIsAFoldOfHistory(ws, steps, offer, name, k - 1);
      StepOfRun(ws, steps, offer, k);
      StepFolds(ws[k - 1], steps[k - 1], name, History(ws, steps, name, k - 1));
    }
  }

  // ----- Heartbeats -----

  /** One heartbeat of a controller: it registers its node, or raises the revision. */
  function Beat(revision: Option<int>): Option<int> {
    if revision.None? then Some(0) else Some(revision.value + 1)
  }

  function Beats(revision: Option<int>, n: nat): Option<int> {
    if n == 0 then revision else Beat(Beats(revision, n - 1))
  }

  lemma {:induction false} BeatsCount(revision: Option<int>, n: nat)
    ensures Beats(revision, n)
         == if revision.Some? then Some(revision.value + n) else if n == 0 then None else Some(n - 1)
  {
    if n > 0 {
      BeatsCount(revision, n - 1);
    }
  }

  /** `h[i]` is what tick i is shown of a node that beat `beats[i]` times since the tick before. */
  ghost predicate Heartbeats(h: seq<int>, beats: seq<nat>) {
    |beats| == |h| && forall i :: 0 <= i < |h| ==> Some(h[i]) == Beats(Before(h, i), beats[i])
  }

  /** The revision before the beats that lead to `h[i]`. */
  function Before(h: seq<int>, i: nat): Option<int>
    requires i < |h|
  {
    if i == 0 then None else Some(h[i - 1])
  }

  lemma {:induction false} RevisionsNeverFall(h: seq<int>, beats: seq<nat>, i: nat, j: nat)
    requires Heartbeats(h, beats) && i <= j < |h|
    ensures 0 <= h[i] <= h[j]
    decreases j
  {
    BeatsCount(Before(h, j), beats[j]);
    if j > 0 {
      RevisionsNeverFall(h, beats, if i < j then i else j - 1, j - 1);
    }
  }

  /** A node is live after a tick exactly when it beat since the tick before; at its first
      tick it needs a second beat, since registering leaves the revision at 0. */
  lemma FreshIffItBeat(h: seq<int>, beats: seq<nat>)
    requires Heartbeats(h, beats) && h != []
    ensures Fresh(h) <==> beats[|h| - 1] >= if |h| == 1 then 2 else 1
  {
    var n := |h| - 1;
    BeatsCount(Before(h, n), beats[n]);
    if n > 0 {
      RevisionsNeverFall(h, beats, n - 1, n - 1);
      forall i | 0 <= i < n ensures h[i] <= h[n - 1] {
        RevisionsNeverFall(h, beats, i, n - 1);
      }
    }
  }

  /** On every run, a node is live exactly while it beats between consecutive ticks. */
  lemma NodeIsLiveIffItBeat(ws: seq<World>, steps: seq<Step>, offer: Offers, name: string, beats: seq<nat>, k: nat)
    requires IsRun(ws, steps, offer) && ProperListings(ws) && k <= |steps|
    requires ws[0].observed == map[] && ws[0].live == {}
    requires Heartbeats(History(ws, steps, name, k), beats) && beats != []
    ensures name in ws[k].live <==> beats[|beats| - 1] >= if |beats| == 1 then 2 else 1
  {
    LivenessIsAFoldOfHistory(ws, steps, offer, name, k);
    FreshIffItBeat(History(ws, steps, name, k), beats);
  }
}
