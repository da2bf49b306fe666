/** The text of an address read back: octets in decimal, or groups in hexadecimal. */
module AddressText {
  import opened Strings
  import opened Addresses

  // ----- Reading digits -----

  function DigitValue(c: char): nat {
    if '0' <= c <= '9' then c as int - '0' as int
    else if 'a' <= c <= 'f' then c as int - 'a' as int + 10
    else 16
  }

  /** The number written in a base, most significant digit first. */
  function Read(s: string, base: nat): nat {
    if s == "" then 0 else Read(s[..|s| - 1], base) * base + DigitValue(s[|s| - 1])
  }

  /** One digit or more, all of the base, and no zero in front of another digit. */
  predicate IsNumeral(s: string, base: nat) {
    s != "" && (forall i :: 0 <= i < |s| ==> DigitValue(s[i]) < base) && (|s| > 1 ==> s[0] != '0')
  }

  function BaseOf(r: Radix): nat {
    match r
    case Ten => 10
    case Sixteen => 16
    case Octet => 256
    case Group => 65536
  }

  lemma DivideAndJoin(n: nat, r: Radix)
    ensures r.Div(n) * BaseOf(r) + r.Mod(n) == n && r.Mod(n) < BaseOf(r)
  {
    match r
    case Ten => assert n == 10 * (n / 10) + n % 10;
    case Sixteen => assert n == 16 * (n / 16) + n % 16;
    case Octet => assert n == 256 * (n / 256) + n % 256;
    case Group => assert n == 65536 * (n / 65536) + n % 65536;
  }

  lemma ValueOfDigit(d: nat)
    requires d < 16
    ensures DigitValue(DIGITS[d]) == d
  {
  }

  lemma {:induction false} DigitsAreRead(n: nat, r: Radix)
    requires r.Ten? || r.Sixteen?
    ensures Read(Digits(n, r), BaseOf(r)) == n && IsNumeral(Digits(n, r), BaseOf(r))
    ensures n > 0 ==> Digits(n, r)[0] != '0'
  {
    var q, last := r.Div(n), DIGITS[r.Mod(n)];
    DivideAndJoin(n, r);
    ValueOfDigit(r.Mod(n));
    if q == 0 {
      assert Digits(n, r) == [last] && [last][..0] == "";
    } else {
      DigitsAreRead(q, r);
      OneMoreDigit(Digits(q, r), last, BaseOf(r));
    }
  }

  lemma OneMoreDigit(s: string, c: char, base: nat)
    requires IsNumeral(s, base) && s[0] != '0' && DigitValue(c) < base
    ensures Read(s + [c], base) == Read(s, base) * base + DigitValue(c) && IsNumeral(s + [c], base)
  {
    assert (s + [c])[..|s|] == s;
  }

  // ----- Reading octets and groups -----

  /** The number with these digits in a base. */
  function Folded(ps: seq<nat>, base: nat): nat {
    if ps == [] then 0 else Folded(ps[..|ps| - 1], base) * base + ps[|ps| - 1]
  }

  lemma {:induction false} PartsFold(v: nat, n: nat, r: Radix)
    requires Fits(v, n, r)
    ensures Folded(Parts(v, n, r), BaseOf(r)) == v && forall p | p in Parts(v, n, r) :: p < BaseOf(r)
  {
    if n > 0 {
      PartsFold(r.Div(v), n - 1, r);
      DivideAndJoin(v, r);
      assert Parts(v, n, r)[..n - 1] == Parts(r.Div(v), n - 1, r);
    }
  }

  /** The numbers read from the parts of a text. */
  function Numbers(s: string, sep: char, base: nat): (ns: seq<nat>)
    ensures |ns| == |Split(s, sep)|
  {
    var parts := Split(s, sep);
    seq(|parts|, i requires 0 <= i < |parts| => Read(parts[i], base))
  }

  lemma PrintedIsRead(ps: seq<nat>, r: Radix, sep: char)
    requires (r.Ten? || r.Sixteen?) && sep !in DIGITS && ps != []
    ensures Numbers(Printed(ps, r, sep), sep, BaseOf(r)) == ps
    ensures forall t | t in Split(Printed(ps, r, sep), sep) :: IsNumeral(t, BaseOf(r))
  {
    var ts := seq(|ps|, i requires 0 <= i < |ps| => Digits(ps[i], r));
    SplitOfJoin(ts, sep);
    forall i | 0 <= i < |ps| ensures Read(ts[i], BaseOf(r)) == ps[i] && IsNumeral(ts[i], BaseOf(r)) {
      DigitsAreRead(ps[i], r);
    }
  }

  /** An IPv4-mapped address is written as four decimal numbers below 256 between dots, any
      other as eight hexadecimal ones below 65536 between colons, without leading zeros; they
      are the address's octets or groups. */
  lemma ShowIsRead(a: Address)
    ensures Mapped(a) ==>
              && (forall t | t in Split(Show(a), '.') :: IsNumeral(t, 10) && Read(t, 10) < 256)
              && |Split(Show(a), '.')| == 4 && MAPPED_FIRST + Folded(Numbers(Show(a), '.', 10), 256) == a
    ensures !Mapped(a) ==>
              && (forall t | t in Split(Show(a), ':') :: IsNumeral(t, 16) && Read(t, 16) < 65536)
              && |Split(Show(a), ':')| == 8 && Folded(Numbers(Show(a), ':', 16), 65536) == a
  {
    if Mapped(a) {
      FourOctetsFit(a - MAPPED_FIRST);
      PartsFold(a - MAPPED_FIRST, 4, Octet);
      PrintedIsRead(Parts(a - MAPPED_FIRST, 4, Octet), Ten, '.');
      EachIsBelow(Show(a), '.', 10, Parts(a - MAPPED_FIRST, 4, Octet), 256);
    } else {
      EightGroupsFit(a);
      PartsFold(a, 8, Group);
      PrintedIsRead(Parts(a, 8, Group), Sixteen, ':');
      EachIsBelow(Show(a), ':', 16, Parts(a, 8, Group), 65536);
    }
  }

  lemma EachIsBelow(s: string, sep: char, base: nat, ps: seq<nat>, bound: nat)
    requires Numbers(s, sep, base) == ps && forall p | p in ps :: p < bound
    ensures forall t | t in Split(s, sep) :: Read(t, base) < bound
  {
    var parts := Split(s, sep);
    forall t | t in parts ensures Read(t, base) < bound {
      var i :| 0 <= i < |parts| && parts[i] == t;
      assert Numbers(s, sep, base)[i] == Read(parts[i], base) && ps[i] in ps;
    }
  }
}
