/** Address pools: the first-free search of pkg/extensions/types.go and the recording of
    what it grants (pkg/scheduler/scheduler.go:616-626). */
module Pools {
  import opened Arithmetic
  import opened NetUtils
  import opened Strings
  import opened Addresses

  /** What net.ParseCIDR makes of the pool's CIDR: the address as written, and its network. */
  datatype Cidr = Cidr(addr: Address, net: Network)

  /** A range as written: its texts parsed by net.ParseIP, `None` for an unparsable one. */
  type Range = seq<Option<Address>>

  predicate NoEmptyRange(ranges: seq<Range>) {
    forall i :: 0 <= i < |ranges| ==> ranges[i] != []
  }

  datatype PoolSpec = PoolSpec(cidr: string, parsed: Option<Cidr>, ranges: Option<seq<Range>>,
                               allocations: map<string, string>)
  {
    /** The source indexes the first and the last text of every range. */
    ghost predicate Valid() {
      && (parsed.Some? ==> parsed.value.net.Valid())
      && (ranges.Some? ==> NoEmptyRange(ranges.value))
    }
  }

  datatype Answer = Free(ip: string) | NoFreeIP | InvalidCidr

  // ----- What the search looks at -----

  /** The addresses visited from `a` on: while it and its successor are in the network and
      it is not `out`. */
  function Walk(net: Network, a: Address, out: Option<Address>): seq<Address>
    requires net.Valid()
    decreases if a <= net.Wall() then net.Wall() - a else TOP + net.Wall() - a
  {
    if net.Contains(a) && net.Contains(Succ(a)) && out != Some(a) then
      net.NothingBeyondWall();
      [a] + Walk(net, Succ(a), out)
    else []
  }

  /** One past the last address of a range. */
  function After(last: Option<Address>): Option<Address> {
    if last.Some? then Some(Succ(last.value)) else None
  }

  function WalkRange(net: Network, first: Option<Address>, out: Option<Address>): seq<Address>
    requires net.Valid()
  {
    if first.Some? then Walk(net, first.value, out) else []
  }

  function WalkRanges(net: Network, ranges: seq<Range>): seq<Address>
    requires net.Valid() && NoEmptyRange(ranges)
  {
    if ranges == [] then []
    else
      var r := ranges[0];
      WalkRange(net, r[0], After(r[|r| - 1])) + WalkRanges(net, ranges[1..])
  }

  /** All addresses the pool can ever grant, in the order of the search. */
  function Candidates(p: PoolSpec): seq<Address>
    requires p.Valid() && p.parsed.Some?
  {
    var net := p.parsed.value.net;
    match p.ranges
    case Some(rs) => WalkRanges(net, rs)
    case None => Walk(net, Succ(p.parsed.value.addr), None)
  }

  function Texts(cs: seq<Address>): (ts: seq<string>)
    ensures |ts| == |cs| && forall i :: 0 <= i < |cs| ==> ts[i] == Show(cs[i])
  {
    seq(|cs|, i requires 0 <= i < |cs| => Show(cs[i]))
  }

  /** The candidates as they appear in the pool's allocations. */
  function Offered(p: PoolSpec): seq<string>
    requires p.Valid() && p.parsed.Some?
  {
    Texts(Candidates(p))
  }

  function FirstFree(ts: seq<string>, allocations: map<string, string>): (r: Option<string>)
    ensures r.None? <==> forall t | t in ts :: t in allocations
    ensures r.Some? ==> r.value in ts && r.value !in allocations
  {
    if ts == [] then None
    else if ts[0] !in allocations then Some(ts[0])
    else FirstFree(ts[1..], allocations)
  }

  function Available(p: PoolSpec): Answer
    requires p.Valid()
  {
    if p.parsed.None? then InvalidCidr
    else match FirstFree(Offered(p), p.allocations)
      case Some(ip) => Free(ip)
      case None => NoFreeIP
  }

  /** Everything before the granted address in search order is allocated. */
  lemma {:induction false} FirstFreeIsFirst(ts: seq<string>, allocations: map<string, string>) returns (i: nat)
    requires FirstFree(ts, allocations).Some?
    ensures i < |ts| && FirstFree(ts, allocations) == Some(ts[i]) && ts[i] !in allocations
    ensures forall j :: 0 <= j < i ==> ts[j] in allocations
  {
    if ts[0] !in allocations {
      i := 0;
    } else {
      var k := FirstFreeIsFirst(ts[1..], allocations);
      i := k + 1;
      forall j | 0 <= j < i ensures ts[j] in allocations {
        if j > 0 {
          assert ts[j] == ts[1..][j - 1];
        }
      }
    }
  }

  /** The answer is exact: an error exactly when the CIDR is malformed or every candidate is
      allocated, and otherwise the first free candidate of the search order. */
  lemma AvailableIsExact(p: PoolSpec)
    requires p.Valid()
    ensures Available(p).InvalidCidr? <==> p.parsed.None?
    ensures Available(p).NoFreeIP? <==> p.parsed.Some? && forall t | t in Offered(p) :: t in p.allocations
    ensures Available(p).Free? ==>
              && Available(p).ip !in p.allocations
              && exists i :: 0 <= i < |Offered(p)| && Available(p).ip == Offered(p)[i]
                             && forall j :: 0 <= j < i ==> Offered(p)[j] in p.allocations
  {
    if Available(p).Free? {
      var i := FirstFreeIsFirst(Offered(p), p.allocations);
    }
  }

  lemma {:induction false} FirstFreeOfConcat(ts: seq<string>, us: seq<string>, allocations: map<string, string>)
    ensures FirstFree(ts + us, allocations)
         == if FirstFree(ts, allocations).Some? then FirstFree(ts, allocations) else FirstFree(us, allocations)
  {
    if ts == [] {
      assert ts + us == us;
    } else {
      assert (ts + us)[1..] == ts[1..] + us;
      FirstFreeOfConcat(ts[1..], us, allocations);
    }
  }

  lemma SearchInParts(cs: seq<Address>, ds: seq<Address>, allocations: map<string, string>)
    ensures FirstFree(Texts(cs + ds), allocations)
         == if FirstFree(Texts(cs), allocations).Some? then FirstFree(Texts(cs), allocations)
            else FirstFree(Texts(ds), allocations)
  {
    assert Texts(cs + ds) == Texts(cs) + Texts(ds);
    FirstFreeOfConcat(Texts(cs), Texts(ds), allocations);
  }

  /** What the search from `a` finds. */
  function FoundFrom(net: Network, a: Option<Address>, out: Option<Address>,
                     allocations: map<string, string>): Option<string>
    requires net.Valid()
  {
    FirstFree(Texts(WalkRange(net, a, out)), allocations)
  }

  /** One address further. */
  lemma SearchOne(net: Network, a: Address, out: Option<Address>, allocations: map<string, string>)
    requires net.Valid()
    ensures FoundFrom(net, Some(a), out, allocations) ==
            if !(net.Contains(a) && net.Contains(Succ(a)) && out != Some(a)) then None
            else if Show(a) !in allocations then Some(Show(a))
            else FoundFrom(net, Some(Succ(a)), out, allocations)
  {
    if net.Contains(a) && net.Contains(Succ(a)) && out != Some(a) {
      net.NothingBeyondWall();
      SearchInParts([a], Walk(net, Succ(a), out), allocations);
      assert Texts([a]) == [Show(a)];
    }
  }

  /** What the search of the ranges from index k on finds. */
  function FoundIn(net: Network, ranges: seq<Range>, k: nat, allocations: map<string, string>): Option<string>
    requires net.Valid() && NoEmptyRange(ranges) && k <= |ranges|
  {
    FirstFree(Texts(WalkRanges(net, ranges[k..])), allocations)
  }

  lemma RangesFrom(net: Network, ranges: seq<Range>, k: nat)
    requires net.Valid() && NoEmptyRange(ranges) && k < |ranges|
    ensures WalkRanges(net, ranges[k..])
         == WalkRange(net, ranges[k][0], After(ranges[k][|ranges[k]| - 1])) + WalkRanges(net, ranges[k + 1..])
  {
    assert ranges[k..][0] == ranges[k] && ranges[k..][1..] == ranges[k + 1..];
  }

  /** One range further. */
  lemma SearchOneRange(net: Network, ranges: seq<Range>, k: nat, allocations: map<string, string>)
    requires net.Valid() && NoEmptyRange(ranges) && k < |ranges|
    ensures var found := FoundFrom(net, ranges[k][0], After(ranges[k][|ranges[k]| - 1]), allocations);
            FoundIn(net, ranges, k, allocations)
            == if found.Some? then found else FoundIn(net, ranges, k + 1, allocations)
  {
    RangesFrom(net, ranges, k);
    var here, rest := WalkRange(net, ranges[k][0], After(ranges[k][|ranges[k]| - 1])), WalkRanges(net, ranges[k + 1..]);
    SearchInParts(here, rest, allocations);
  }

  lemma SearchNoRange(net: Network, ranges: seq<Range>, allocations: map<string, string>)
    requires net.Valid() && NoEmptyRange(ranges)
    ensures FoundIn(net, ranges, |ranges|, allocations) == None
  {
  }

  // ----- The search itself -----

  /** The number in a slice, or `None` for a nil slice. */
  function Read(ip: seq<byte>): Option<Address>
    requires |ip| == 16 || ip == []
  {
    PowerOfSixteenBytes();
    ValueIsBelowPower(ip);
    if ip == [] then None else Some(Value(ip))
  }

  predicate InNetwork(net: Network, ip: seq<byte>)
    requires net.Valid() && (|ip| == 16 || ip == [])
  {
    Read(ip).Some? && net.Contains(Read(ip).value)
  }

  method NewIP(a: Option<Address>) returns (ip: array<byte>)
    ensures fresh(ip) && (ip.Length == 16 || ip.Length == 0) && Read(ip[..]) == a
  {
    if a.None? {
      ip := new byte[0];
      assert ip[..] == [];
    } else {
      var bytes := Bytes(a.value, 16);
      ip := new byte[16](i requires 0 <= i < 16 => bytes[i]);
      assert ip[..] == bytes;
      PowerOfSixteenBytes();
      ValueOfBytes(a.value, 16);
      RemainderIsUnique(a.value, TOP, 0, a.value);
    }
  }

  method Increment(ip: array<byte>)
    requires ip.Length == 16 || ip.Length == 0
    modifies ip
    ensures Read(ip[..]) == After(old(Read(ip[..])))
  {
    ghost var was := ip[..];
    IPIncrement(ip);
    if ip.Length == 16 {
      IncrementIsSucc(was, ip[..]);
    }
  }

  class IpClaimPool {
    var spec: PoolSpec

    constructor (spec: PoolSpec)
      ensures this.spec == spec
    {
      this.spec := spec;
    }

    method AvailableIP() returns (r: Answer)
      requires spec.Valid()
      ensures r == Available(spec)
    {
      if spec.parsed.None? {
        return InvalidCidr;
      }
      var net, found := spec.parsed.value.net, None;
      if spec.ranges.Some? {
        found := SearchRanges(net, spec.ranges.value);
      } else {
        var first := NewIP(Some(spec.parsed.value.addr));
        Increment(first);
        var dropOff := NewIP(None);
        found := SearchRange(net, first, dropOff);
      }
      return if found.Some? then Free(found.value) else NoFreeIP;
    }

    /** The loop over the ranges stops at the first that has a free address. */
    method SearchRanges(net: Network, ranges: seq<Range>) returns (found: Option<string>)
      requires net.Valid() && NoEmptyRange(ranges)
      ensures found == FoundIn(net, ranges, 0, spec.allocations)
    {
      var k := 0;
      while k < |ranges|
        invariant 0 <= k <= |ranges|
        invariant FoundIn(net, ranges, 0, spec.allocations) == FoundIn(net, ranges, k, spec.allocations)
      {
        found := SearchAt(net, ranges, k);
        if found.Some? {
          return found;
        }
        k := k + 1;
      }
      SearchNoRange(net, ranges, spec.allocations);
      return None;
    }

    /** One iteration: the answer, or what the ranges after it give. */
    method SearchAt(net: Network, ranges: seq<Range>, k: nat) returns (found: Option<string>)
      requires net.Valid() && NoEmptyRange(ranges) && k < |ranges|
      ensures FoundIn(net, ranges, k, spec.allocations)
           == if found.Some? then found else FoundIn(net, ranges, k + 1, spec.allocations)
    {
      var range := ranges[k];
      SearchOneRange(net, ranges, k, spec.allocations);
      found := SearchBetween(net, range[0], range[|range| - 1]);
    }

    /** One range: its parsed ends, the last one moved one past the range. */
    method SearchBetween(net: Network, from: Option<Address>, to: Option<Address>) returns (found: Option<string>)
      requires net.Valid()
      ensures found == FoundFrom(net, from, After(to), spec.allocations)
    {
      var first := NewIP(from);
      var dropOff := NewIP(to);
      Increment(dropOff);
      found := SearchRange(net, first, dropOff);
    }

    /** The inner loop: `cur` and its successor `next` advance in place. */
    method SearchRange(net: Network, cur: array<byte>, out: array<byte>) returns (found: Option<string>)
      requires net.Valid() && cur != out
      requires cur.Length == 16 || cur.Length == 0
      requires out.Length == 16 || out.Length == 0
      modifies cur
      ensures found == FoundFrom(net, old(Read(cur[..])), old(Read(out[..])), spec.allocations)
    {
      ghost var goal := FoundFrom(net, Read(cur[..]), Read(out[..]), spec.allocations);
      var next := NewIP(Read(cur[..]));
      Increment(next);
      while InNetwork(net, cur[..]) && InNetwork(net, next[..]) && cur[..] != out[..]
        invariant Read(out[..]) == old(Read(out[..]))
        invariant Read(next[..]) == After(Read(cur[..]))
        invariant FoundFrom(net, Read(cur[..]), Read(out[..]), spec.allocations) == goal
        decreases Remaining(net, Read(cur[..]))
      {
        ghost var a := Read(cur[..]).value;
        SearchOne(net, a, Read(out[..]), spec.allocations);
        SameSliceSameAddress(cur[..], out[..]);
        RemainingFalls(net, a);
        var text := Show(Read(cur[..]).value);
        if text !in spec.allocations {
          return Some(text);
        }
        Increment(cur);
        Increment(next);
      }
      SameSliceSameAddress(cur[..], out[..]);
      if Read(cur[..]).Some? {
        SearchOne(net, Read(cur[..]).value, Read(out[..]), spec.allocations);
      }
      return None;
    }
  }

  /** A bound on the steps until the search runs into the end of the network. */
  ghost function Remaining(net: Network, a: Option<Address>): int
    requires net.Valid()
  {
    if a.None? then 0 else if a.value <= net.Wall() then net.Wall() - a.value else TOP + net.Wall() - a.value
  }

  lemma RemainingFalls(net: Network, a: Address)
    requires net.Valid() && net.Contains(a) && net.Contains(Succ(a))
    ensures 0 <= Remaining(net, Some(Succ(a))) < Remaining(net, Some(a))
  {
    net.NothingBeyondWall();
  }

  lemma SameSliceSameAddress(a: seq<byte>, b: seq<byte>)
    requires (|a| == 16 || a == []) && (|b| == 16 || b == [])
    ensures a == b <==> Read(a) == Read(b)
  {
    if |a| == 16 && |b| == 16 && Value(a) == Value(b) {
      ValueIsInjective(a, b);
    }
  }
}
