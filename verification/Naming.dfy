/** Claim names and CIDRs (pkg/scheduler/scheduler.go:428-462, 628-650). */
module Naming {
  import opened Strings
  import opened Addresses

  /** Dots of the address become dashes, and the mask follows after one more dash. */
  function ClaimName(ip: string, mask: string): string {
    Join([Join(Split(ip, '.'), '-'), mask], '-')
  }

  function CidrOf(ip: string, mask: string): string {
    Join([ip, mask], '/')
  }

  /** The text before the first slash, as in `strings.Split(cidr, "/")[0]`. */
  function AddressOf(cidr: string): string {
    Split(cidr, '/')[0]
  }

  function MaskOf(cidr: string): string
    requires |Split(cidr, '/')| > 1
  {
    Split(cidr, '/')[1]
  }

  /** Neither a dash nor a slash. */
  predicate Plain(s: string) {
    '-' !in s && '/' !in s
  }

  lemma CidrRoundTrip(ip: string, mask: string)
    requires '/' !in ip && '/' !in mask
    ensures Split(CidrOf(ip, mask), '/') == [ip, mask]
    ensures AddressOf(CidrOf(ip, mask)) == ip && MaskOf(CidrOf(ip, mask)) == mask
  {
    SplitOfJoin([ip, mask], '/');
  }

  /** The dashes of a name separate the octets and the mask. */
  lemma SplitOfName(ip: string, mask: string)
    requires Plain(ip) && Plain(mask)
    ensures Split(ClaimName(ip, mask), '-') == Split(ip, '.') + [mask]
  {
    var octets := Split(ip, '.');
    CharsOfSplit(ip, '.');
    forall p | p in octets + [mask] ensures '-' !in p {
      assert p == mask || p in octets;
    }
    JoinSnoc(octets, mask, '-');
    SplitOfJoin(octets + [mask], '-');
  }

  lemma {:induction false} JoinSnoc(parts: seq<string>, last: string, sep: char)
    requires parts != []
    ensures Join(parts + [last], sep) == Join([Join(parts, sep), last], sep)
  {
    if |parts| == 1 {
      assert (parts + [last])[1..] == [last];
      assert [Join(parts, sep), last][1..] == [last];
    } else {
      JoinSnoc(parts[1..], last, sep);
      var rest := Join(parts[1..], sep);
      assert (parts + [last])[1..] == parts[1..] + [last];
      assert [rest, last][1..] == [last] && [Join(parts, sep), last][1..] == [last];
      assert parts[0] + [sep] + (rest + [sep] + last) == (parts[0] + [sep] + rest) + [sep] + last;
    }
  }

  /** Names are injective in the address and the mask. */
  lemma ClaimNameIsInjective(ip: string, mask: string, ip': string, mask': string)
    requires Plain(ip) && Plain(mask) && Plain(ip') && Plain(mask')
    requires ClaimName(ip, mask) == ClaimName(ip', mask')
    ensures ip == ip' && mask == mask'
  {
    SplitOfName(ip, mask);
    SplitOfName(ip', mask');
    var p, q := Split(ip, '.') + [mask], Split(ip', '.') + [mask'];
    assert p[..|p| - 1] == Split(ip, '.') && q[..|q| - 1] == Split(ip', '.');
    assert p[|p| - 1] == mask && q[|q| - 1] == mask';
    JoinOfSplit(ip, '.');
    JoinOfSplit(ip', '.');
  }

  lemma NameIsReplaced(ip: string, mask: string)
    ensures ClaimName(ip, mask) == Replaced(ip, '.', '-') + ['-'] + mask
  {
    JoinOfSplitReplaces(ip, '.', '-');
    var parts := [Join(Split(ip, '.'), '-'), mask];
    assert parts[1..] == [mask] && Join([mask], '-') == mask;
  }

  /** Without the restriction two texts share a name, for a given mask, exactly when they
      differ in nothing but dots and dashes. */
  lemma SameNameIff(ip: string, ip': string, mask: string)
    ensures ClaimName(ip, mask) == ClaimName(ip', mask) <==> Replaced(ip, '.', '-') == Replaced(ip', '.', '-')
  {
    NameIsReplaced(ip, mask);
    NameIsReplaced(ip', mask);
    var r, r', tail := Replaced(ip, '.', '-'), Replaced(ip', '.', '-'), ['-'] + mask;
    assert ClaimName(ip, mask) == r + tail && ClaimName(ip', mask) == r' + tail;
    if r + tail == r' + tail {
      assert |r| == |r'| && r == (r + tail)[..|r|] && r' == (r' + tail)[..|r|];
    }
  }

  /** So every text with a dot collides with the one that has a dash there. */
  lemma DashesCollide(a: string, b: string, mask: string)
    ensures a + "." + b != a + "-" + b && ClaimName(a + "." + b, mask) == ClaimName(a + "-" + b, mask)
  {
    ReplacedConcat(a + ".", b, '.', '-');
    ReplacedConcat(a, ".", '.', '-');
    ReplacedConcat(a + "-", b, '.', '-');
    ReplacedConcat(a, "-", '.', '-');
    assert Replaced(".", '.', '-') == "-" == Replaced("-", '.', '-');
    assert (a + "." + b)[|a|] == '.' && (a + "-" + b)[|a|] == '-';
    SameNameIff(a + "." + b, a + "-" + b, mask);
  }

  /** Every address a pool prints is free of dashes and slashes. */
  lemma PrintedAddressIsPlain(a: Address)
    ensures Plain(Show(a))
  {
    ShowIsPlain(a);
  }
}
