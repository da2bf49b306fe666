/** Splitting, joining and printing: the string operations behind claim names, CIDRs and
    the textual form of addresses. */
module Strings {

  datatype Option<+T> = None | Some(value: T)

  /** strings.Split for a one-character separator: never empty. */
  function Split(s: string, sep: char): (parts: seq<string>)
    ensures parts != []
  {
    if s == "" then [""]
    else
      var rest := Split(s[1..], sep);
      if s[0] == sep then [""] + rest else [[s[0]] + rest[0]] + rest[1..]
  }

  /** strings.Join. */
  function Join(parts: seq<string>, sep: char): string {
    if parts == [] then ""
    else if |parts| == 1 then parts[0]
    else parts[0] + [sep] + Join(parts[1..], sep)
  }

  lemma JoinAfterEmpty(rest: seq<string>, sep: char)
    requires rest != []
    ensures Join([""] + rest, sep) == [sep] + Join(rest, sep)
  {
    assert ([""] + rest)[1..] == rest;
  }

  lemma JoinWithFirst(c: char, rest: seq<string>, sep: char)
    requires rest != []
    ensures Join([[c] + rest[0]] + rest[1..], sep) == [c] + Join(rest, sep)
  {
    if |rest| > 1 {
      assert [c] + rest[0] + [sep] + Join(rest[1..], sep) == [c] + (rest[0] + [sep] + Join(rest[1..], sep));
    }
  }

  lemma {:induction false} JoinOfSplit(s: string, sep: char)
    ensures Join(Split(s, sep), sep) == s
  {
    if s != "" {
      var rest := Split(s[1..], sep);
      JoinOfSplit(s[1..], sep);
      JoinAfterEmpty(rest, sep);
      JoinWithFirst(s[0], rest, sep);
    }
  }

  /** Every `sep` becomes `other`. */
  function Replaced(s: string, sep: char, other: char): string {
    if s == "" then "" else [if s[0] == sep then other else s[0]] + Replaced(s[1..], sep, other)
  }

  lemma {:induction false} JoinOfSplitReplaces(s: string, sep: char, other: char)
    ensures Join(Split(s, sep), other) == Replaced(s, sep, other)
  {
    if s != "" {
      var rest := Split(s[1..], sep);
      JoinOfSplitReplaces(s[1..], sep, other);
      JoinAfterEmpty(rest, other);
      JoinWithFirst(s[0], rest, other);
    }
  }

  lemma {:induction false} ReplacedConcat(s: string, t: string, sep: char, other: char)
    ensures Replaced(s + t, sep, other) == Replaced(s, sep, other) + Replaced(t, sep, other)
  {
    if s == "" {
      assert s + t == t;
    } else {
      assert (s + t)[1..] == s[1..] + t;
      ReplacedConcat(s[1..], t, sep, other);
    }
  }

  lemma {:induction false} SplitAtFirst(p: string, t: string, sep: char)
    requires sep !in p
    ensures Split(p, sep) == [p]
    ensures Split(p + [sep] + t, sep) == [p] + Split(t, sep)
  {
    if p == "" {
      assert ("" + [sep] + t)[1..] == t;
    } else {
      SplitAtFirst(p[1..], t, sep);
      assert (p + [sep] + t)[1..] == p[1..] + [sep] + t;
      assert p == [p[0]] + p[1..];
    }
  }

  lemma {:induction false} SplitOfJoin(parts: seq<string>, sep: char)
    requires parts != [] && forall p | p in parts :: sep !in p
    ensures Split(Join(parts, sep), sep) == parts
  {
    if |parts| == 1 {
      SplitAtFirst(parts[0], "", sep);
    } else {
      SplitOfJoin(parts[1..], sep);
      SplitAtFirst(parts[0], Join(parts[1..], sep), sep);
      assert parts == [parts[0]] + parts[1..];
    }
  }

  /** The parts hold only characters of the string, and never the separator. */
  lemma {:induction false} CharsOfSplit(s: string, sep: char)
    ensures forall p, c | p in Split(s, sep) && c in p :: c in s && c != sep
  {
    if s == "" {
    } else {
      CharsOfSplit(s[1..], sep);
      var rest := Split(s[1..], sep);
      forall p, c | p in Split(s, sep) && c in p ensures c in s && c != sep {
        if p !in rest && s[0] != sep {
          assert p == [s[0]] + rest[0];
          assert rest[0] in rest;
          assert c == s[0] || c in rest[0];
        }
      }
    }
  }

  /** Joining adds nothing but separators. */
  lemma {:induction false} CharsOfJoin(parts: seq<string>, sep: char, c: char)
    requires c in Join(parts, sep)
    ensures c == sep || exists p | p in parts :: c in p
  {
    if |parts| == 1 {
      assert parts[0] in parts;
    } else {
      if c in parts[0] {
        assert parts[0] in parts;
      } else if c != sep {
        CharsOfJoin(parts[1..], sep, c);
      }
    }
  }

  // ----- Digits -----

  /** The bases in use: decimal and hexadecimal digits, octets and 16-bit groups. */
  datatype Radix = Ten | Sixteen | Octet | Group
  {
    function Div(n: nat): (q: nat)
      ensures q <= n && (n > 0 ==> q < n)
    {
      match this
      case Ten => n / 10
      case Sixteen => n / 16
      case Octet => n / 256
      case Group => n / 65536
    }

    function Mod(n: nat): nat {
      match this
      case Ten => n % 10
      case Sixteen => n % 16
      case Octet => n % 256
      case Group => n % 65536
    }

    lemma DivModDetermine(a: nat, b: nat)
      requires Div(a) == Div(b) && Mod(a) == Mod(b)
      ensures a == b
    {
      match this
      case Ten => assert a == 10 * (a / 10) + a % 10 && b == 10 * (b / 10) + b % 10;
      case Sixteen => assert a == 16 * (a / 16) + a % 16 && b == 16 * (b / 16) + b % 16;
      case Octet => assert a == 256 * (a / 256) + a % 256 && b == 256 * (b / 256) + b % 256;
      case Group => assert a == 65536 * (a / 65536) + a % 65536 && b == 65536 * (b / 65536) + b % 65536;
    }
  }

  const DIGITS: string := "0123456789abcdef"

  function Digits(n: nat, r: Radix): (s: string)
    requires r.Ten? || r.Sixteen?
    ensures s != ""
    ensures forall c | c in s :: c in DIGITS
  {
    var last := [DIGITS[r.Mod(n)]];
    if r.Div(n) == 0 then last else Digits(r.Div(n), r) + last
  }

  lemma DigitsDiffer(a: nat, b: nat)
    requires a < 16 && b < 16 && DIGITS[a] == DIGITS[b]
    ensures a == b
  {
  }

  lemma {:induction false} DigitsAreInjective(a: nat, b: nat, r: Radix)
    requires (r.Ten? || r.Sixteen?) && Digits(a, r) == Digits(b, r)
    ensures a == b
  {
    var s, t := Digits(a, r), Digits(b, r);
    assert s[|s| - 1] == DIGITS[r.Mod(a)] && t[|t| - 1] == DIGITS[r.Mod(b)];
    DigitsDiffer(r.Mod(a), r.Mod(b));
    if r.Div(a) != 0 && r.Div(b) != 0 {
      assert s[..|s| - 1] == Digits(r.Div(a), r) && t[..|t| - 1] == Digits(r.Div(b), r);
      DigitsAreInjective(r.Div(a), r.Div(b), r);
    }
    r.DivModDetermine(a, b);
  }

  /** The low `n` digits of `v` in a base, most significant first. */
  function Parts(v: nat, n: nat, r: Radix): (ps: seq<nat>)
    ensures |ps| == n
  {
    if n == 0 then [] else Parts(r.Div(v), n - 1, r) + [r.Mod(v)]
  }

  predicate Fits(v: nat, n: nat, r: Radix) {
    if n == 0 then v == 0 else Fits(r.Div(v), n - 1, r)
  }

  lemma {:induction false} PartsAreInjective(v: nat, w: nat, n: nat, r: Radix)
    requires Fits(v, n, r) && Fits(w, n, r) && Parts(v, n, r) == Parts(w, n, r)
    ensures v == w
  {
    if n == 0 {
    } else {
      var p, q := Parts(v, n, r), Parts(w, n, r);
      assert p[..n - 1] == Parts(r.Div(v), n - 1, r) && q[..n - 1] == Parts(r.Div(w), n - 1, r);
      assert p[n - 1] == r.Mod(v) && q[n - 1] == r.Mod(w);
      PartsAreInjective(r.Div(v), r.Div(w), n - 1, r);
      r.DivModDetermine(v, w);
    }
  }

  /** Numbers printed in a base and joined. */
  function Printed(ps: seq<nat>, r: Radix, sep: char): string
    requires r.Ten? || r.Sixteen?
  {
    Join(seq(|ps|, i requires 0 <= i < |ps| => Digits(ps[i], r)), sep)
  }

  lemma PrintedIsInjective(ps: seq<nat>, qs: seq<nat>, r: Radix, sep: char)
    requires (r.Ten? || r.Sixteen?) && sep !in DIGITS && ps != [] && qs != []
    requires Printed(ps, r, sep) == Printed(qs, r, sep)
    ensures ps == qs
  {
    var a := seq(|ps|, i requires 0 <= i < |ps| => Digits(ps[i], r));
    var b := seq(|qs|, i requires 0 <= i < |qs| => Digits(qs[i], r));
    SplitOfJoin(a, sep);
    SplitOfJoin(b, sep);
    assert a == b;
    forall i | 0 <= i < |ps| ensures ps[i] == qs[i] {
      assert a[i] == b[i];
      DigitsAreInjective(ps[i], qs[i], r);
    }
  }

  lemma CharsOfPrinted(ps: seq<nat>, r: Radix, sep: char)
    requires (r.Ten? || r.Sixteen?) && |ps| >= 2
    ensures sep in Printed(ps, r, sep)
    ensures forall c | c in Printed(ps, r, sep) :: c == sep || c in DIGITS
  {
    var a := seq(|ps|, i requires 0 <= i < |ps| => Digits(ps[i], r));
    var s := Printed(ps, r, sep);
    assert s == a[0] + [sep] + Join(a[1..], sep);
    assert s[|a[0]|] == sep;
    forall c | c in s ensures c == sep || c in DIGITS {
      CharsOfJoin(a, sep, c);
    }
  }
}
