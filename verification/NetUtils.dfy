/** Addresses as byte slices and the addresses of a link (pkg/netutils/netutils.go). */
module NetUtils {
  import opened Arithmetic

  type byte = x: int | 0 <= x < 256

  /** 256^n */
  function Power(n: nat): (p: nat)
    ensures p > 0
  {
    if n == 0 then 1 else 256 * Power(n - 1)
  }

  /** The big-endian value of a byte slice. */
  function Value(s: seq<byte>): nat {
    if s == [] then 0 else Value(s[..|s| - 1]) * 256 + s[|s| - 1]
  }

  /** The `n` bytes of a number, most significant first. */
  function Bytes(v: nat, n: nat): (s: seq<byte>)
    ensures |s| == n
  {
    if n == 0 then [] else Bytes(v / 256, n - 1) + [v % 256]
  }

  lemma {:induction false} ValueIsBelowPower(s: seq<byte>)
    ensures Value(s) < Power(|s|)
  {
    if s == [] {
    } else {
      ValueIsBelowPower(s[..|s| - 1]);
    }
  }

  lemma {:induction false} BytesOfValue(s: seq<byte>)
    ensures Bytes(Value(s), |s|) == s
  {
    if s == [] {
    } else {
      var t, b := s[..|s| - 1], s[|s| - 1];
      BytesOfValue(t);
      assert (Value(t) * 256 + b) / 256 == Value(t) && (Value(t) * 256 + b) % 256 == b;
      assert s == t + [b];
    }
  }

  lemma {:induction false} ValueOfBytes(v: nat, n: nat)
    ensures Value(Bytes(v, n)) == v % Power(n)
  {
    if n == 0 {
    } else {
      var s, t := Bytes(v, n), Bytes(v / 256, n - 1);
      ValueOfBytes(v / 256, n - 1);
      assert s[..|s| - 1] == t && s[|s| - 1] == v % 256;
      ModuloSplit(v, Power(n - 1));
    }
  }

  lemma ModuloSplit(v: nat, p: nat)
    requires p > 0
    ensures v % (256 * p) == (v / 256) % p * 256 + v % 256
  {
    var q, r := v / 256, v % 256;
    var k := q / p;
    assert q == k * p + q % p;
    assert v == k * (256 * p) + (q % p * 256 + r);
    assert q % p * 256 + r <= (p - 1) * 256 + 255;
    RemainderIsUnique(v, 256 * p, k, q % p * 256 + r);
  }

  /** Distinct slices of one length are distinct numbers: keying by value loses nothing. */
  lemma ValueIsInjective(a: seq<byte>, b: seq<byte>)
    requires |a| == |b| && Value(a) == Value(b)
    ensures a == b
  {
    BytesOfValue(a);
    BytesOfValue(b);
  }

  /** Adding one: the last byte that is not 255 grows, and the bytes after it become 0. */
  lemma {:induction false} CarryAddsOne(was: seq<byte>, now: seq<byte>, j: nat)
    requires |was| == |now| && j < |was|
    requires now[..j] == was[..j] && was[j] < 255 && now[j] == was[j] + 1
    requires forall k :: j < k < |was| ==> was[k] == 255 && now[k] == 0
    ensures Value(now) == Value(was) + 1
  {
    var n := |was| - 1;
    if j == n {
    } else {
      assert now[..n][..j] == now[..j] && was[..n][..j] == was[..j];
      CarryAddsOne(was[..n], now[..n], j);
    }
  }

  lemma {:induction false} AllOnesIsTheLastValue(s: seq<byte>)
    requires forall k :: 0 <= k < |s| ==> s[k] == 255
    ensures Value(s) + 1 == Power(|s|)
  {
    if s == [] {
    } else {
      AllOnesIsTheLastValue(s[..|s| - 1]);
    }
  }

  lemma {:induction false} AllZerosIsZero(s: seq<byte>)
    requires forall k :: 0 <= k < |s| ==> s[k] == 0
    ensures Value(s) == 0
  {
    if s == [] {
    } else {
      AllZerosIsZero(s[..|s| - 1]);
    }
  }

  lemma CarryStops(was: seq<byte>, now: seq<byte>, j: nat)
    requires |was| == |now| && j < |was|
    requires now[..j] == was[..j] && was[j] < 255 && now[j] == was[j] + 1
    requires forall k :: j < k < |was| ==> was[k] == 255 && now[k] == 0
    ensures Value(now) == (Value(was) + 1) % Power(|was|)
  {
    CarryAddsOne(was, now, j);
    ValueIsBelowPower(now);
    RemainderIsUnique(Value(now), Power(|was|), 0, Value(now));
  }

  lemma CarryRunsOut(was: seq<byte>, now: seq<byte>)
    requires |was| == |now|
    requires forall k :: 0 <= k < |was| ==> was[k] == 255 && now[k] == 0
    ensures Value(now) == (Value(was) + 1) % Power(|was|)
  {
    AllOnesIsTheLastValue(was);
    AllZerosIsZero(now);
    RemainderIsUnique(Value(was) + 1, Power(|was|), 1, 0);
  }

  /** The carry loop is the successor modulo 256^n, for a slice of any length. */
  method IPIncrement(ip: array<byte>)
    modifies ip
    ensures Value(ip[..]) == (Value(old(ip[..])) + 1) % Power(ip.Length)
  {
    ghost var was := ip[..];
    var j := ip.Length - 1;
    while j >= 0
      invariant -1 <= j < ip.Length
      invariant ip[..j + 1] == was[..j + 1]
      invariant forall k :: j < k < ip.Length ==> was[k] == 255 && ip[k] == 0
    {
      var b: int := ip[j];
      ip[j] := (b + 1) % 256;
      if ip[j] > 0 {
        CarryStops(was, ip[..], j);
        return;
      }
      j := j - 1;
    }
    CarryRunsOut(was, ip[..]);
  }

  // ----- The addresses of a link -----

  /** A failing call of the kernel: nothing happened, or the address was added but its ARP
      announcement failed. */
  datatype Fault = LinkFault | AnnounceFault

  /** What one call does to the address set, given the fault that strikes it, if any. */
  function Assigned(addrs: set<string>, cidr: string, fault: seq<Fault>): (r: (set<string>, bool))
    ensures !r.1 ==> cidr in r.0
    ensures addrs <= r.0 <= addrs + {cidr}
  {
    if fault != [] && fault[0].LinkFault? then (addrs, true)
    else if cidr in addrs then (addrs, false)
    else (addrs + {cidr}, fault != [])
  }

  function Unassigned(addrs: set<string>, cidr: string, fault: seq<Fault>): (r: (set<string>, bool))
    ensures !r.1 ==> cidr !in r.0
    ensures addrs - {cidr} <= r.0 <= addrs
  {
    if fault != [] && fault[0].LinkFault? then (addrs, true) else (addrs - {cidr}, false)
  }

  /** The addresses of the link that have been announced since they were added: a call
      announces an address that it adds itself, and a removed address counts no more. */
  function Announced(addrs: set<string>, announced: set<string>, cidr: string, fault: seq<Fault>): set<string> {
    if fault == [] && cidr !in addrs then announced + {cidr} else announced
  }

  function Withdrawn(announced: set<string>, cidr: string, fault: seq<Fault>): set<string> {
    if fault != [] && fault[0].LinkFault? then announced else announced - {cidr}
  }

  /** A call that succeeds leaves its address announced exactly if the address was missing or
      had been announced before. */
  lemma SuccessMeansAnnouncedIff(addrs: set<string>, announced: set<string>, cidr: string, fault: seq<Fault>)
    requires |fault| <= 1 && announced <= addrs && !Assigned(addrs, cidr, fault).1
    ensures cidr in Announced(addrs, announced, cidr, fault) <==> cidr !in addrs || cidr in announced
  {
  }

  /** A call of either kind, with the fault that strikes it. */
  datatype Call = Assigning(cidr: string, fault: seq<Fault>) | Unassigning(cidr: string, fault: seq<Fault>)

  /** The addresses of the link and the announced ones after a call. */
  function Called(addrs: set<string>, announced: set<string>, call: Call): (set<string>, set<string>) {
    match call
    case Assigning(cidr, fault) => (Assigned(addrs, cidr, fault).0, Announced(addrs, announced, cidr, fault))
    case Unassigning(cidr, fault) => (Unassigned(addrs, cidr, fault).0, Withdrawn(announced, cidr, fault))
  }

  /** The call adds an address whose announcement fails. */
  predicate AddsSilently(addrs: set<string>, call: Call) {
    call.Assigning? && call.cidr !in addrs && call.fault != [] && call.fault[0].AnnounceFault?
  }

  /** With all addresses of the link announced, a call keeps that exactly unless it adds one
      whose announcement fails; nothing off the link ever counts as announced. */
  lemma KeepsAnnouncedIff(addrs: set<string>, announced: set<string>, call: Call)
    requires announced <= addrs
    ensures var (now, heard) := Called(addrs, announced, call);
            && heard <= now
            && (announced == addrs ==> (heard == now <==> !AddsSilently(addrs, call)))
  {
    if AddsSilently(addrs, call) {
      assert call.cidr in Called(addrs, announced, call).0;
    }
  }

  ghost predicate AlwaysAnnounced(addrs: set<string>, announced: set<string>, calls: seq<Call>)
    decreases |calls|
  {
    && announced == addrs
    && (calls != [] ==>
          var (now, heard) := Called(addrs, announced, calls[0]);
          AlwaysAnnounced(now, heard, calls[1..]))
  }

  ghost predicate NoneSilent(addrs: set<string>, calls: seq<Call>)
    decreases |calls|
  {
    calls != [] ==> !AddsSilently(addrs, calls[0]) && NoneSilent(Called(addrs, addrs, calls[0]).0, calls[1..])
  }

  /** On a whole run of calls every address is announced at every point exactly if no call adds
      one whose announcement fails. */
  lemma {:induction false} AlwaysAnnouncedIff(addrs: set<string>, calls: seq<Call>)
    ensures AlwaysAnnounced(addrs, addrs, calls) <==> NoneSilent(addrs, calls)
    decreases |calls|
  {
    if calls != [] {
      KeepsAnnouncedIff(addrs, addrs, calls[0]);
      AlwaysAnnouncedIff(Called(addrs, addrs, calls[0]).0, calls[1..]);
    }
  }

  /** The retry after a failed announcement succeeds and announces nothing: the address is
      already there. */
  lemma RetryAfterFailedAnnouncement(addrs: set<string>, announced: set<string>, cidr: string, fault: seq<Fault>)
    requires cidr !in addrs && announced <= addrs
    ensures var (now, err) := Assigned(addrs, cidr, [AnnounceFault]);
            && err && cidr in now && Announced(addrs, announced, cidr, [AnnounceFault]) == announced
            && (!Assigned(now, cidr, fault).1 ==> cidr !in Announced(now, announced, cidr, fault))
  {
  }

  /** The fault the next call for an address runs into, if any, and the faults left after it. */
  function FaultOf(faults: map<string, seq<Fault>>, cidr: string): seq<Fault> {
    if cidr in faults && faults[cidr] != [] then faults[cidr][..1] else []
  }

  function Consumed(faults: map<string, seq<Fault>>, cidr: string): map<string, seq<Fault>> {
    if cidr in faults && faults[cidr] != [] then faults[cidr := faults[cidr][1..]] else faults
  }

  /** What is left of the faults where nothing is announced. */
  function OnlyLinkFaults(fs: seq<Fault>): (r: seq<Fault>)
    ensures forall f | f in r :: f.LinkFault?
    ensures (forall f | f in fs :: f.LinkFault?) ==> r == fs
  {
    if fs == [] then []
    else (if fs[0].LinkFault? then [fs[0]] else []) + OnlyLinkFaults(fs[1..])
  }

  function WithoutAnnouncing(faults: map<string, seq<Fault>>): map<string, seq<Fault>> {
    map c | c in faults :: OnlyLinkFaults(faults[c])
  }

  lemma ConsumedStaysWithoutAnnouncing(faults: map<string, seq<Fault>>, cidr: string)
    ensures var rest := Consumed(WithoutAnnouncing(faults), cidr);
            WithoutAnnouncing(rest) == rest
  {
  }

  /** An interface.  `faults` holds, per address, the faults its coming calls run into.  On the
      interface `lo` nothing is announced. */
  class Link {
    const lo: bool
    var addrs: set<string>
    var faults: map<string, seq<Fault>>
    ghost var announced: set<string>

    constructor (lo: bool, addrs: set<string>, faults: map<string, seq<Fault>>)
      ensures this.lo == lo && this.addrs == addrs && this.faults == faults && announced == {}
    {
      this.lo, this.addrs, this.faults, announced := lo, addrs, faults, {};
    }

    /** The faults that can strike. */
    function Faults(): map<string, seq<Fault>>
      reads this
    {
      if lo then WithoutAnnouncing(faults) else faults
    }

    method EnsureIPAssigned(cidr: string) returns (err: bool)
      modifies this
      ensures (addrs, err) == Assigned(old(addrs), cidr, FaultOf(old(Faults()), cidr))
      ensures Faults() == Consumed(old(Faults()), cidr)
      ensures announced
           == if lo then old(announced) else Announced(old(addrs), old(announced), cidr, FaultOf(old(Faults()), cidr))
    {
      ConsumedStaysWithoutAnnouncing(faults, cidr);
      var fault := FaultOf(Faults(), cidr);
      faults := Consumed(Faults(), cidr);
      if fault != [] && fault[0].LinkFault? {
        return true;
      }
      var rest := addrs;
      while rest != {}
        invariant rest <= addrs && (cidr in addrs ==> cidr in rest)
      {
        var addr :| addr in rest;
        if addr == cidr {
          return false;
        }
        rest := rest - {addr};
      }
      addrs := addrs + {cidr};
      if lo {
        return false;
      }
      if fault == [] {
        announced := announced + {cidr};
      }
      return fault != [];
    }

    method EnsureIPUnassigned(cidr: string) returns (err: bool)
      modifies this
      ensures (addrs, err) == Unassigned(old(addrs), cidr, FaultOf(old(Faults()), cidr))
      ensures Faults() == Consumed(old(Faults()), cidr)
      ensures announced == Withdrawn(old(announced), cidr, FaultOf(old(Faults()), cidr))
    {
      ConsumedStaysWithoutAnnouncing(faults, cidr);
      var fault := FaultOf(Faults(), cidr);
      faults := Consumed(Faults(), cidr);
      if fault != [] && fault[0].LinkFault? {
        return true;
      }
      announced := announced - {cidr};
      var rest := addrs;
      while rest != {}
        invariant rest <= addrs && (cidr in addrs ==> cidr in rest)
      {
        var addr :| addr in rest;
        if addr == cidr {
          addrs := addrs - {cidr};
          return false;
        }
        rest := rest - {addr};
      }
      assert addrs - {cidr} == addrs;
      return false;
    }
  }
}
