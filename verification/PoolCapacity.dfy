/** Which addresses a pool offers, and how many grants it survives. */
module PoolCapacity {
  import opened Strings
  import opened Addresses
  import opened Pools
  import opened QueueRuns

  /** The addresses a, a + 1, ..., b - 1. */
  function UpTo(a: nat, b: nat): (s: seq<Address>)
    requires b <= TOP
    ensures a < b ==> |s| == b - a
    ensures a >= b ==> s == []
    ensures forall i :: 0 <= i < |s| ==> s[i] == a + i
    decreases b - a
  {
    if a < b then [a] + UpTo(a + 1, b) else []
  }

  /** Where the walk from `a` stops in a network that ends at `last`: at `out` when that
      lies ahead, else at the last address, which is never offered. */
  function Stop(a: Address, last: Address, out: Option<Address>): Address {
    if out.Some? && a <= out.value <= last then out.value else last
  }

  lemma {:induction false} WalkOnInterval(net: Network, first: Address, last: Address, a: Address, out: Option<Address>)
    requires IsInterval(net, first, last) && last - first < TOP - 1
    ensures Walk(net, a, out) == if a < first then [] else UpTo(a, Stop(a, last, out))
    decreases last - a
  {
    if first <= a < Stop(a, last, out) {
      WalkOnInterval(net, first, last, a + 1, out);
      assert UpTo(a, Stop(a, last, out)) == [a] + UpTo(a + 1, Stop(a, last, out));
    }
  }

  /** A well-formed range offers, in ascending order, its addresses below the network's
      last one, provided it starts inside the network; otherwise it offers nothing.  The
      range of the whole address space offers nothing either: one past its end is its start. */
  lemma RangeOffers(net: Network, first: Address, last: Address, from: Address, to: Address)
    requires IsInterval(net, first, last) && last - first < TOP - 1 && from <= to
    ensures var offered := WalkRange(net, Some(from), After(Some(to)));
            && (forall x: Address :: x in offered <==>
                  first <= from <= x <= to && x < last && !(from == 0 && to == TOP - 1))
            && (forall i, j :: 0 <= i < j < |offered| ==> offered[i] < offered[j])
  {
    var offered := WalkRange(net, Some(from), After(Some(to)));
    var stop := Stop(from, last, After(Some(to)));
    WalkOnInterval(net, first, last, from, After(Some(to)));
    forall x: Address ensures x in offered <==> first <= from <= x < stop {
      if first <= from <= x < stop {
        assert offered[x - from] == x;
      }
    }
  }

  lemma V4Walk(net: Network, a: Address, out: Option<Address>)
    requires net.V4? && net.Valid()
    ensures FirstOf(net) + net.Size() - 1 < TOP
    ensures Walk(net, a, out)
         == if a < FirstOf(net) then [] else UpTo(a, Stop(a, FirstOf(net) + net.Size() - 1, out))
  {
    V4IsInterval(net);
    WalkOnInterval(net, FirstOf(net), FirstOf(net) + net.Size() - 1, a, out);
  }

  /** A range written backwards is not empty: the walk never meets its end and offers the
      rest of the network.  Only if the end is just below the start it offers nothing. */
  lemma BackwardRangeRunsToTheEnd(net: Network, first: Address, last: Address, from: Address, to: Address)
    requires IsInterval(net, first, last) && last - first < TOP - 1 && to < from
    ensures WalkRange(net, Some(from), After(Some(to)))
         == if first <= from && to + 1 < from then UpTo(from, last) else []
  {
    WalkOnInterval(net, first, last, from, After(Some(to)));
  }

  /** Where a range from `from` ends: just after its last address, but at the network's last
      address at the latest; there too if it is written backwards or its end cannot be parsed. */
  function RangeEnd(from: Address, to: Option<Address>, last: Address): Address {
    if to.None? then last
    else if from == 0 && to.value == TOP - 1 then 0
    else if from <= to.value then if to.value < last then to.value + 1 else last
    else if from == to.value + 1 then from
    else last
  }

  /** The addresses of the ranges, in the order in which they are written. */
  function InRanges(ranges: seq<Range>, first: Address, last: Address): seq<Address>
    requires NoEmptyRange(ranges)
  {
    if ranges == [] then []
    else
      var from, to := ranges[0][0], ranges[0][|ranges[0]| - 1];
      (if from.Some? && first <= from.value then UpTo(from.value, RangeEnd(from.value, to, last)) else [])
      + InRanges(ranges[1..], first, last)
  }

  lemma OneRange(net: Network, first: Address, last: Address, from: Address, to: Option<Address>)
    requires IsInterval(net, first, last) && last - first < TOP - 1
    ensures WalkRange(net, Some(from), After(to)) == if first <= from then UpTo(from, RangeEnd(from, to, last)) else []
  {
    WalkOnInterval(net, first, last, from, After(to));
    assert UpTo(from, Stop(from, last, After(to))) == UpTo(from, RangeEnd(from, to, last));
  }

  lemma {:induction false} RangesOffer(net: Network, first: Address, last: Address, ranges: seq<Range>)
    requires IsInterval(net, first, last) && last - first < TOP - 1 && NoEmptyRange(ranges)
    ensures WalkRanges(net, ranges) == InRanges(ranges, first, last)
  {
    if ranges != [] {
      RangesOffer(net, first, last, ranges[1..]);
      if ranges[0][0].Some? {
        OneRange(net, first, last, ranges[0][0].value, ranges[0][|ranges[0]| - 1]);
      }
    }
  }

  /** What any pool offers whose network is an interval, IPv4 or IPv6: without ranges the
      addresses after the one its CIDR is written with, up to the network's last one; with ranges
      those of the ranges that start inside it.  The last address is never offered. */
  lemma PoolOffers(p: PoolSpec, first: Address, last: Address)
    requires p.Valid() && p.parsed.Some? && IsInterval(p.parsed.value.net, first, last) && last - first < TOP - 1
    requires first <= p.parsed.value.addr <= last
    ensures p.ranges.None? ==> Candidates(p) == UpTo(p.parsed.value.addr + 1, last)
    ensures p.ranges.Some? ==> Candidates(p) == InRanges(p.ranges.value, first, last)
    ensures last !in Candidates(p)
  {
    if p.ranges.None? {
      WalkOnInterval(p.parsed.value.net, first, last, Succ(p.parsed.value.addr), None);
    } else {
      RangesOffer(p.parsed.value.net, first, last, p.ranges.value);
      LastIsNotInRanges(p.ranges.value, first, last);
    }
  }

  lemma {:induction false} LastIsNotInRanges(ranges: seq<Range>, first: Address, last: Address)
    requires NoEmptyRange(ranges)
    ensures last !in InRanges(ranges, first, last)
  {
    if ranges != [] {
      LastIsNotInRanges(ranges[1..], first, last);
    }
  }

  /** updatePoolAllocation, and the release in deleteIPClaimAndAllocation. */
  function Record(p: PoolSpec, ip: string, claim: string): PoolSpec {
    p.(allocations := p.allocations[ip := claim])
  }

  function Release(p: PoolSpec, ip: string): PoolSpec {
    p.(allocations := p.allocations - {ip})
  }

  /** Allocate and record `k` times; `claim` names the claim of an address. */
  function Filled(p: PoolSpec, k: nat, claim: string -> string): (q: PoolSpec)
    requires p.Valid()
    ensures q.Valid() && q.(allocations := p.allocations) == p
  {
    if k == 0 then p
    else
      var q := Filled(p, k - 1, claim);
      if Available(q).Free? then Record(q, Available(q).ip, claim(Available(q).ip)) else q
  }

  /** With the first k texts allocated the search finds text k. */
  lemma FirstFreeAfterPrefix(ts: seq<string>, k: nat, allocations: map<string, string>)
    requires NoDuplicates(ts) && k <= |ts| && allocations.Keys == Elements(ts[..k])
    ensures FirstFree(ts, allocations) == if k < |ts| then Some(ts[k]) else None
  {
    forall j | 0 <= j < |ts| ensures ts[j] in allocations <==> j < k {
      if j < k {
        assert ts[j] == ts[..k][j];
      }
    }
    if FirstFree(ts, allocations).Some? {
      var i := FirstFreeIsFirst(ts, allocations);
    }
  }

  lemma OneMoreKey(ts: seq<string>, k: nat, before: map<string, string>, after: map<string, string>)
    requires 0 < k <= |ts| && before.Keys == Elements(ts[..k - 1]) && |before| == k - 1
    requires ts[k - 1] !in before && after.Keys == before.Keys + {ts[k - 1]}
    ensures after.Keys == Elements(ts[..k]) && |after| == k
  {
    assert ts[..k] == ts[..k - 1] + [ts[k - 1]];
    assert |after.Keys| == |before.Keys| + 1;
  }

  /** The allocations after `k` rounds of searching `ts` and recording. */
  function Granted(ts: seq<string>, k: nat, claim: string -> string): map<string, string> {
    if k == 0 then map[]
    else
      var m := Granted(ts, k - 1, claim);
      match FirstFree(ts, m)
      case Some(ip) => m[ip := claim(ip)]
      case None => m
  }

  /** With the first k - 1 texts granted, text k - 1 is the next. */
  lemma NextGrant(ts: seq<string>, k: nat, m: map<string, string>, claim: string)
    requires NoDuplicates(ts) && 0 < k <= |ts| && m.Keys == Elements(ts[..k - 1]) && |m| == k - 1
    ensures FirstFree(ts, m) == Some(ts[k - 1])
    ensures var m' := m[ts[k - 1] := claim];
            m'.Keys == Elements(ts[..k]) && |m'| == k
  {
    FirstFreeAfterPrefix(ts, k - 1, m);
    OneMoreKey(ts, k, m, m[ts[k - 1] := claim]);
  }

  /** Distinct texts are granted one by one in order, each once. */
  lemma {:induction false} DistinctTextsGranted(ts: seq<string>, k: nat, claim: string -> string)
    requires NoDuplicates(ts) && k <= |ts|
    ensures var m := Granted(ts, k, claim);
            m.Keys == Elements(ts[..k]) && |m| == k
  {
    if k == 0 {
      assert ts[..0] == [];
    } else {
      DistinctTextsGranted(ts, k - 1, claim);
      NextGrant(ts, k, Granted(ts, k - 1, claim), claim(ts[k - 1]));
    }
  }

  // ----- Overlapping ranges -----

  /** The first occurrences only. */
  function FirstOnly(ts: seq<string>): seq<string> {
    if ts == [] then []
    else
      var front, t := FirstOnly(ts[..|ts| - 1]), ts[|ts| - 1];
      if t in front then front else front + [t]
  }

  lemma {:induction false} FirstOnlyIsDistinct(ts: seq<string>)
    ensures NoDuplicates(FirstOnly(ts)) && forall t :: t in FirstOnly(ts) <==> t in ts
  {
    if ts != [] {
      FirstOnlyIsDistinct(ts[..|ts| - 1]);
      assert ts == ts[..|ts| - 1] + [ts[|ts| - 1]];
    }
  }

  lemma {:induction false} DistinctIsFirstOnly(ts: seq<string>)
    requires NoDuplicates(ts)
    ensures FirstOnly(ts) == ts
  {
    if ts != [] {
      DistinctIsFirstOnly(ts[..|ts| - 1]);
      assert ts == ts[..|ts| - 1] + [ts[|ts| - 1]];
    }
  }

  /** Repeated texts do not matter to the search. */
  lemma {:induction false} SearchIgnoresRepeats(ts: seq<string>, allocations: map<string, string>)
    ensures FirstFree(ts, allocations) == FirstFree(FirstOnly(ts), allocations)
  {
    if ts != [] {
      var front, t := ts[..|ts| - 1], ts[|ts| - 1];
      SearchIgnoresRepeats(front, allocations);
      FirstOnlyIsDistinct(front);
      assert ts == front + [t];
      FirstFreeOfConcat(front, [t], allocations);
      FirstFreeOfConcat(FirstOnly(front), [t], allocations);
    }
  }

  lemma {:induction false} GrantsIgnoreRepeats(ts: seq<string>, k: nat, claim: string -> string)
    ensures Granted(ts, k, claim) == Granted(FirstOnly(ts), k, claim)
  {
    if k > 0 {
      GrantsIgnoreRepeats(ts, k - 1, claim);
      SearchIgnoresRepeats(ts, Granted(ts, k - 1, claim));
    }
  }

  /** Texts are granted one by one in order of their first occurrence, each once. */
  lemma GrantsEachTextOnce(ts: seq<string>, k: nat, claim: string -> string)
    requires k <= |FirstOnly(ts)|
    ensures var m := Granted(ts, k, claim);
            m.Keys == Elements(FirstOnly(ts)[..k]) && |m| == k
  {
    FirstOnlyIsDistinct(ts);
    GrantsIgnoreRepeats(ts, k, claim);
    DistinctTextsGranted(FirstOnly(ts), k, claim);
  }

  lemma SearchIgnoresTheRest(p: PoolSpec, m: map<string, string>)
    requires p.Valid() && p.parsed.Some?
    ensures var q := p.(allocations := m);
            && q.Valid()
            && Available(q) == match FirstFree(Offered(p), m) case Some(ip) => Free(ip) case None => NoFreeIP
  {
  }

  /** After k rounds the allocations are `m`. */
  ghost predicate Fills(p: PoolSpec, k: nat, claim: string -> string, m: map<string, string>)
    requires p.Valid()
  {
    Filled(p, k, claim) == p.(allocations := m)
  }

  lemma FilledOnce(p: PoolSpec, k: nat, claim: string -> string, m: map<string, string>, next: map<string, string>)
    requires p.Valid() && p.parsed.Some? && k > 0 && Fills(p, k - 1, claim, m)
    requires next == match FirstFree(Offered(p), m) case Some(ip) => m[ip := claim(ip)] case None => m
    ensures Fills(p, k, claim, next)
  {
    SearchIgnoresTheRest(p, m);
  }

  lemma GrantedOnce(ts: seq<string>, k: nat, claim: string -> string)
    requires k > 0
    ensures var m := Granted(ts, k - 1, claim);
            Granted(ts, k, claim) == match FirstFree(ts, m) case Some(ip) => m[ip := claim(ip)] case None => m
  {
  }

  lemma {:induction false} FilledIsGranted(p: PoolSpec, k: nat, claim: string -> string, ts: seq<string>)
    requires p.Valid() && p.parsed.Some? && p.allocations == map[] && ts == Offered(p)
    ensures Fills(p, k, claim, Granted(ts, k, claim))
  {
    if k > 0 {
      FilledIsGranted(p, k - 1, claim, ts);
      GrantedOnce(ts, k, claim);
      FilledOnce(p, k, claim, Granted(ts, k - 1, claim), Granted(ts, k, claim));
    }
  }

  /** From empty, a pool grants its candidates one by one in search order, each once however
      its ranges overlap, and then nothing. */
  lemma GrantsEachCandidateOnce(p: PoolSpec, k: nat, claim: string -> string)
    requires p.Valid() && p.parsed.Some? && p.allocations == map[] && k <= |FirstOnly(Offered(p))|
    ensures var ts, q := FirstOnly(Offered(p)), Filled(p, k, claim);
            && q.allocations.Keys == Elements(ts[..k]) && |q.allocations| == k
            && Available(q) == if k < |ts| then Free(ts[k]) else NoFreeIP
  {
    var ts, m := Offered(p), Granted(Offered(p), k, claim);
    FilledIsGranted(p, k, claim, ts);
    GrantsEachTextOnce(ts, k, claim);
    FirstOnlyIsDistinct(ts);
    FirstFreeAfterPrefix(FirstOnly(ts), k, m);
    SearchIgnoresRepeats(ts, m);
    SearchIgnoresTheRest(p, m);
  }

  lemma DistinctTexts(a: nat, b: nat)
    requires b <= TOP
    ensures NoDuplicates(Texts(UpTo(a, b)))
  {
    var cs := UpTo(a, b);
    var ts := Texts(cs);
    forall i, j | 0 <= i < j < |ts| ensures ts[i] != ts[j] {
      if ts[i] == ts[j] {
        ShowIsInjective(cs[i], cs[j]);
      }
    }
  }

  function Max0(n: int): nat {
    if n < 0 then 0 else n
  }

  /** A range-less IPv4 pool written with its network address. */
  ghost predicate WholeNetwork(p: PoolSpec) {
    && p.Valid() && p.parsed.Some? && p.ranges.None?
    && p.parsed.value.net.V4? && p.parsed.value.addr == FirstOf(p.parsed.value.net)
  }

  lemma WholeNetworkWalk(p: PoolSpec)
    requires WholeNetwork(p)
    ensures var first, size := p.parsed.value.addr, p.parsed.value.net.Size();
            first + size <= TOP && Candidates(p) == UpTo(first + 1, first + size - 1)
  {
    var net, addr := p.parsed.value.net, p.parsed.value.addr;
    V4IsInterval(net);
    V4Walk(net, addr + 1, None);
  }

  lemma SizeOfInterval(a: nat, b: nat)
    requires b <= TOP
    ensures |Texts(UpTo(a, b))| == Max0(b - a) && NoDuplicates(Texts(UpTo(a, b)))
  {
    DistinctTexts(a, b);
  }

  lemma OffersInterval(p: PoolSpec, a: nat, b: nat)
    requires p.Valid() && p.parsed.Some? && b <= TOP && Candidates(p) == UpTo(a, b)
    ensures Offered(p) == Texts(UpTo(a, b)) && NoDuplicates(Offered(p)) && |Offered(p)| == Max0(b - a)
  {
    SizeOfInterval(a, b);
  }

  /** It offers everything between its network address and its last address, in order. */
  lemma WholeNetworkOffers(p: PoolSpec)
    requires WholeNetwork(p)
    ensures var first, size := p.parsed.value.addr, p.parsed.value.net.Size();
            && first + size <= TOP
            && Offered(p) == Texts(UpTo(first + 1, first + size - 1))
            && NoDuplicates(Offered(p))
            && |Offered(p)| == Max0(size - 2)
  {
    var first, size := p.parsed.value.addr, p.parsed.value.net.Size();
    WholeNetworkWalk(p);
    OffersInterval(p, first + 1, first + size - 1);
  }

  /** With prefix length L it grants exactly max(0, 2^(32-L) - 2) pairwise distinct
      addresses and then fails. */
  lemma V4PoolCapacity(p: PoolSpec, k: nat, claim: string -> string)
    requires WholeNetwork(p) && p.allocations == map[]
    ensures var capacity, q := Max0(Pow2(32 - p.parsed.value.net.bits) - 2), Filled(p, k, claim);
            && |Offered(p)| == capacity && NoDuplicates(Offered(p))
            && (k < capacity ==> Available(q) == Free(Offered(p)[k]))
            && (k == capacity ==> Available(q) == NoFreeIP)
            && (k <= capacity ==> |q.allocations| == k)
  {
    WholeNetworkOffers(p);
    SizeOfV4(p.parsed.value.net);
    FillingThePool(p, Offered(p), k, claim);
  }

  lemma SizeOfV4(net: Network)
    requires net.V4? && net.Valid()
    ensures net.Size() == Pow2(32 - net.bits)
  {
  }

  lemma FillingThePool(p: PoolSpec, ts: seq<string>, k: nat, claim: string -> string)
    requires p.Valid() && p.parsed.Some? && p.allocations == map[]
    requires ts == Offered(p) && NoDuplicates(ts)
    ensures k <= |ts| ==> |Filled(p, k, claim).allocations| == k
    ensures k < |ts| ==> Available(Filled(p, k, claim)) == Free(ts[k])
    ensures k == |ts| ==> Available(Filled(p, k, claim)) == NoFreeIP
  {
    DistinctIsFirstOnly(ts);
    if k <= |ts| {
      GrantsEachCandidateOnce(p, k, claim);
    }
  }

  /** Releasing any address of an exhausted pool makes exactly that address available. */
  lemma ReleaseMakesAvailable(p: PoolSpec, ip: string)
    requires p.Valid() && Available(p).NoFreeIP? && ip in Offered(p)
    ensures ip !in Release(p, ip).allocations && Available(Release(p, ip)) == Free(ip)
  {
    var q := Release(p, ip);
    assert Offered(q) == Offered(p);
    assert ip !in q.allocations;
  }
}
