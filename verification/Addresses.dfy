/** Addresses as numbers of 128 bits, their textual form, and networks.

    An IPv4 address is held in its IPv4-mapped form (section 2.5.5.2 of RFC 4291), so the
    successor of 255.255.255.255 is a 128-bit address outside every IPv4 network. */
module Addresses {
  import opened Arithmetic
  import opened NetUtils
  import opened Strings

  /** 2^128 */
  const TOP: nat := 0x1_0000_0000_0000_0000_0000_0000_0000_0000
  const MAPPED_FIRST: nat := 0xffff_0000_0000
  const MAPPED_LAST: nat := 0xffff_ffff_ffff

  type Address = a: nat | a < TOP

  predicate Mapped(a: nat) {
    MAPPED_FIRST <= a <= MAPPED_LAST
  }

  function Succ(a: Address): Address {
    if a == TOP - 1 then 0 else a + 1
  }

  lemma PowerOfSixteenBytes()
    ensures Power(16) == TOP
  {
    assert Power(4) == 0x1_0000_0000;
    assert Power(8) == 0x1_0000_0000 * 0x1_0000_0000;
    assert Power(12) == Power(8) * 0x1_0000_0000;
    assert Power(16) == Power(12) * 0x1_0000_0000;
  }

  /** IPIncrement on a 16-byte address is the successor. */
  lemma IncrementIsSucc(was: seq<byte>, now: seq<byte>)
    requires |was| == 16 == |now| && Value(now) == (Value(was) + 1) % Power(16)
    ensures Value(was) < TOP && Value(now) == Succ(Value(was))
  {
    PowerOfSixteenBytes();
    ValueIsBelowPower(was);
  }

  // ----- The IPv4-mapped prefix -----

  const PREFIX: seq<byte> := [0, 0, 0, 0, 0, 0, 0, 0, 0, 0, 255, 255]

  lemma {:induction false} ValueOfConcat(a: seq<byte>, b: seq<byte>)
    ensures Value(a + b) == Value(a) * Power(|b|) + Value(b)
  {
    if b == [] {
      assert a + b == a;
    } else {
      var c := b[..|b| - 1];
      assert (a + b)[..|a + b| - 1] == a + c;
      ValueOfConcat(a, c);
      assert Value(a) * Power(|b|) == Value(a) * Power(|c|) * 256;
    }
  }

  lemma ValueOfPrefix()
    ensures Value(PREFIX) == 0xffff
  {
    AllZerosIsZero(PREFIX[..10]);
    assert PREFIX[..11] == PREFIX[..10] + [255];
    assert Value(PREFIX[..11]) == 255 by {
      assert PREFIX[..11][..10] == PREFIX[..10];
    }
    assert PREFIX[..|PREFIX| - 1] == PREFIX[..11];
  }

  /** The number is in the mapped block exactly when the first 12 bytes are the prefix. */
  lemma MappedMeansPrefix(s: seq<byte>)
    requires |s| == 16
    ensures Mapped(Value(s)) <==> s[..12] == PREFIX
  {
    var hi, lo := s[..12], s[12..];
    assert s == hi + lo;
    ValueOfConcat(hi, lo);
    ValueIsBelowPower(lo);
    assert Power(4) == 0x1_0000_0000;
    ValueOfPrefix();
    if Mapped(Value(s)) {
      assert Value(hi) == 0xffff;
      ValueIsInjective(hi, PREFIX);
    }
  }

  /** Incrementing a mapped address keeps the prefix exactly below 255.255.255.255. */
  lemma IncrementKeepsPrefix(was: seq<byte>, now: seq<byte>)
    requires |was| == 16 == |now| && was[..12] == PREFIX
    requires Value(was) < TOP && Value(now) == Succ(Value(was))
    ensures now[..12] == PREFIX <==> was[12..] != [255, 255, 255, 255]
  {
    MappedMeansPrefix(was);
    MappedMeansPrefix(now);
    var last: seq<byte> := PREFIX + [255, 255, 255, 255];
    assert Value(last) == MAPPED_LAST by {
      ValueOfPrefix();
      ValueOfConcat(PREFIX, [255, 255, 255, 255]);
      AllOnesIsTheLastValue([255, 255, 255, 255]);
      assert Power(4) == 0x1_0000_0000;
    }
    if Value(was) == MAPPED_LAST {
      ValueIsInjective(was, last);
    }
    assert was == was[..12] + was[12..];
  }

  // ----- Text -----

  /** Dotted decimal for a mapped address, else eight groups of hexadecimal digits. */
  function Show(a: Address): string {
    if Mapped(a) then Printed(Parts(a - MAPPED_FIRST, 4, Octet), Ten, '.')
    else Printed(Parts(a, 8, Group), Sixteen, ':')
  }

  lemma FourOctetsFit(a: nat)
    requires a < 0x1_0000_0000
    ensures Fits(a, 4, Octet)
  {
    var b := a / 256;
    var c := b / 256;
    var d := c / 256;
    assert b < 0x100_0000 && c < 0x1_0000 && d < 0x100 && d / 256 == 0;
    assert Fits(d, 1, Octet);
    assert Fits(c, 2, Octet);
  }

  lemma EightGroupsFit(a: Address)
    ensures Fits(a, 8, Group)
  {
    var b := a / 65536;
    var c := b / 65536;
    var d := c / 65536;
    var e := d / 65536;
    var f := e / 65536;
    var g := f / 65536;
    var h := g / 65536;
    assert h < 65536 && Fits(h, 1, Group);
    assert Fits(f, 3, Group) && Fits(e, 4, Group);
    assert Fits(d, 5, Group) && Fits(c, 6, Group);
  }

  lemma ShowIsPlain(a: Address)
    ensures forall c | c in Show(a) :: c in DIGITS || c == (if Mapped(a) then '.' else ':')
    ensures (if Mapped(a) then '.' else ':') in Show(a)
  {
    if Mapped(a) {
      CharsOfPrinted(Parts(a - MAPPED_FIRST, 4, Octet), Ten, '.');
    } else {
      CharsOfPrinted(Parts(a, 8, Group), Sixteen, ':');
    }
  }

  /** Two addresses never share their text. */
  lemma ShowIsInjective(a: Address, b: Address)
    requires Show(a) == Show(b)
    ensures a == b
  {
    ShowIsPlain(a);
    ShowIsPlain(b);
    assert Mapped(a) == Mapped(b);
    if Mapped(a) {
      var p, q := Parts(a - MAPPED_FIRST, 4, Octet), Parts(b - MAPPED_FIRST, 4, Octet);
      PrintedIsInjective(p, q, Ten, '.');
      FourOctetsFit(a - MAPPED_FIRST);
      FourOctetsFit(b - MAPPED_FIRST);
      PartsAreInjective(a - MAPPED_FIRST, b - MAPPED_FIRST, 4, Octet);
    } else {
      PrintedIsInjective(Parts(a, 8, Group), Parts(b, 8, Group), Sixteen, ':');
      EightGroupsFit(a);
      EightGroupsFit(b);
      PartsAreInjective(a, b, 8, Group);
    }
  }

  // ----- Networks (section 3.1 of RFC 4632) -----

  function Pow2(n: nat): (p: nat)
    ensures p > 0
  {
    if n == 0 then 1 else 2 * Pow2(n - 1)
  }

  /** A parsed network: its base and prefix length, in 32 bits or in 128. */
  datatype Network = V4(base: nat, bits: nat) | V6(base: nat, bits: nat)
  {
    predicate Valid() {
      match this
      case V4(base, bits) => base < 0x1_0000_0000 && bits <= 32
      case V6(base, bits) => base < TOP && bits <= 128
    }

    /** The number of addresses. */
    function Size(): (n: nat)
      requires Valid()
      ensures n > 0
    {
      Pow2((if V4? then 32 else 128) - bits)
    }

    /** Same leading bits.  A mapped address only ever belongs to an IPv4 network. */
    predicate Contains(a: Address)
      requires Valid()
    {
      if V4? then Mapped(a) && (a - MAPPED_FIRST) / Size() == base / Size()
      else !Mapped(a) && a / Size() == base / Size()
    }

    /** A point just past which no address belongs to the network. */
    function Wall(): Address {
      if V4? then MAPPED_LAST else MAPPED_FIRST - 1
    }

    lemma NothingBeyondWall()
      requires Valid()
      ensures !Contains(Succ(Wall()))
    {
    }
  }

  lemma {:induction false} Pow2Splits(m: nat, n: nat)
    ensures Pow2(m + n) == Pow2(m) * Pow2(n)
  {
    if m == 0 {
    } else {
      Pow2Splits(m - 1, n);
    }
  }

  lemma Pow2OfThirtyTwo()
    ensures Pow2(32) == 0x1_0000_0000
  {
    assert Pow2(8) == 256;
    Pow2Splits(8, 8);
    Pow2Splits(16, 16);
  }

  /** The addresses first..last. */
  ghost predicate IsInterval(net: Network, first: Address, last: Address) {
    net.Valid() && first <= last && forall a: Address :: net.Contains(a) <==> first <= a <= last
  }

  /** The multiple of `d` at or below `b`. */
  function Floor(b: nat, d: nat): (f: nat)
    requires d > 0
    ensures f <= b < f + d && f == b / d * d
  {
    FloorBounds(b, d);
    b - b % d
  }

  lemma FloorBounds(b: nat, d: nat)
    requires d > 0
    ensures 0 <= b % d <= b && b % d < d && b - b % d == b / d * d
  {
    assert b == d * (b / d) + b % d;
  }

  lemma SameQuotient(a: nat, b: nat, d: nat)
    requires d > 0
    ensures a / d == b / d <==> Floor(b, d) <= a < Floor(b, d) + d
  {
    var f := Floor(a, d);
    if Floor(b, d) <= a < Floor(b, d) + d {
      RemainderIsUnique(a, d, b / d, a - Floor(b, d));
    }
  }

  /** A multiple of `d` below a multiple of `d` leaves room for `d` numbers. */
  lemma FloorLeavesRoom(b: nat, d: nat, t: nat)
    requires d > 0 && b < t * d
    ensures Floor(b, d) + d <= t * d
  {
    var q := b / d;
    ProductOrder(q, t, d);
    ProductOrder(t, q + 1, d);
    assert (q + 1) * d == q * d + d;
  }

  function FirstOf(net: Network): nat
    requires net.V4? && net.Valid()
  {
    MAPPED_FIRST + Floor(net.base, net.Size())
  }

  /** An IPv4 network is an interval of `Size` addresses inside the mapped block. */
  lemma V4IsInterval(net: Network)
    requires net.V4? && net.Valid()
    ensures FirstOf(net) + net.Size() - 1 <= MAPPED_LAST
    ensures IsInterval(net, FirstOf(net), FirstOf(net) + net.Size() - 1)
  {
    var s := net.Size();
    Pow2Splits(net.bits, 32 - net.bits);
    Pow2OfThirtyTwo();
    FloorLeavesRoom(net.base, s, Pow2(net.bits));
    forall a: Address | Mapped(a)
      ensures net.Contains(a) <==> FirstOf(net) <= a <= FirstOf(net) + s - 1
    {
      SameQuotient(a - MAPPED_FIRST, net.base, s);
    }
  }

  lemma TopIsPower()
    ensures Pow2(128) == TOP
  {
    Pow2OfThirtyTwo();
    Pow2Splits(32, 32);
    Pow2Splits(64, 64);
  }

  /** The mapped block and the addresses from `first` to `last` have nothing in common. */
  predicate ApartFromMapped(first: nat, last: nat) {
    last < MAPPED_FIRST || MAPPED_LAST < first
  }

  lemma V6FitsIn(net: Network)
    requires net.V6? && net.Valid()
    ensures Floor(net.base, net.Size()) + net.Size() <= TOP
  {
    TopIsPower();
    Pow2Splits(net.bits, 128 - net.bits);
    FloorLeavesRoom(net.base, net.Size(), Pow2(net.bits));
  }

  /** An IPv6 network is an interval of `Size` addresses exactly when that interval is apart from
      the mapped block, none of whose addresses belongs to it. */
  lemma V6IsIntervalIff(net: Network)
    requires net.V6? && net.Valid()
    ensures var first, size := Floor(net.base, net.Size()), net.Size();
            && first + size <= TOP
            && (IsInterval(net, first, first + size - 1) <==> ApartFromMapped(first, first + size - 1))
  {
    var first, size := Floor(net.base, net.Size()), net.Size();
    V6FitsIn(net);
    var a: Address := if first < MAPPED_FIRST then MAPPED_FIRST else first;
    assert !ApartFromMapped(first, first + size - 1) ==> first <= a <= first + size - 1 && !net.Contains(a);
    forall b: Address ensures net.Contains(b) <==> !Mapped(b) && first <= b <= first + size - 1 {
      SameQuotient(b, net.base, size);
    }
  }
}
