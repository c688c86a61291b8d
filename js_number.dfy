/** String rendering of integral JavaScript numbers, as a template literal
    `${n}` produces it for safe integers (magnitude at most 2^53 - 1, where a
    double holds every integer exactly and renders all its digits), together
    with the parser that reads it back. */
module JsNumber {
  import opened Js

  const MaxSafeInteger: int := 0x1F_FFFF_FFFF_FFFF

  /** The range in which a double represents every integer exactly
      (`Number.isSafeInteger`). */
  type SafeInteger = n: int | -MaxSafeInteger <= n <= MaxSafeInteger

  predicate IsDigit(c: char) {
    '0' <= c <= '9'
  }

  function DigitChar(d: nat): (c: char)
    requires d < 10
    ensures IsDigit(c)
  {
    (d + '0' as int) as char
  }

  function DigitValue(c: char): nat {
    if IsDigit(c) then c as int - '0' as int else 0
  }

  /** Shortest decimal rendering of a non-negative integer: "0" for zero,
      otherwise no leading zero. */
  function NatToString(n: nat): (s: string)
    ensures s != [] && forall i :: 0 <= i < |s| ==> IsDigit(s[i])
    ensures n > 0 ==> s[0] != '0'
  {
    if n < 10 then [DigitChar(n)] else NatToString(n / 10) + [DigitChar(n % 10)]
  }

  /** `${n}` for an integral Number: "-" then the digits of |n| when negative. */
  function IntToString(n: SafeInteger): (r: string)
    ensures r != [] && (r[0] == '-' <==> n < 0)
    ensures forall i :: (if n < 0 then 1 else 0) <= i < |r| ==> IsDigit(r[i])
    ensures |r| > 1 && r[0] != '-' ==> r[0] != '0'
    ensures n < 0 ==> |r| > 1 && r[1] != '0'
  {
    if n < 0 then ['-'] + NatToString(-n) else NatToString(n)
  }

  /** `${m}` for a JSON field that may be missing or null. A number never
      renders as either of the two words. */
  function Interpolate(m: Maybe<SafeInteger>): (r: string)
    ensures r == "undefined" <==> m.Undefined?
    ensures r == "null" <==> m.Null?
  {
    match m
    case Undefined => "undefined"
    case Null => "null"
    case Defined(n) => IntToString(n)
  }

  function ParseNat(s: string): nat {
    if s == [] then 0 else 10 * ParseNat(s[..|s| - 1]) + DigitValue(s[|s| - 1])
  }

  function ParseInt(s: string): int {
    if s != [] && s[0] == '-' then -(ParseNat(s[1..]) as int) else ParseNat(s)
  }

  /** Reads back what `Interpolate` wrote. */
  function ParseInterpolated(s: string): Maybe<int> {
    if s == "undefined" then Undefined
    else if s == "null" then Null
    else Defined(ParseInt(s))
  }

  lemma {:induction false} ParseNatToString(n: nat)
    ensures ParseNat(NatToString(n)) == n
  {
    if n >= 10 {
      ParseNatToString(n / 10);
      var s := NatToString(n / 10) + [DigitChar(n % 10)];
      assert s[..|s| - 1] == NatToString(n / 10);
    }
  }

  lemma ParseIntToString(n: SafeInteger)
    ensures ParseInt(IntToString(n)) == n
  {
    if n < 0 {
      ParseNatToString(-n);
      assert (['-'] + NatToString(-n))[1..] == NatToString(-n);
    } else {
      ParseNatToString(n);
    }
  }

  /** The rendering of a field is never mistaken for another: it parses back. */
  lemma ParseInterpolatedRoundTrip(m: Maybe<SafeInteger>)
    ensures ParseInterpolated(Interpolate(m)) == m
  {
    if m.Defined? {
      var n := m.value;
      ParseIntToString(n);
      var s := IntToString(n);
      assert s[0] == '-' || IsDigit(s[0]);
      assert s != "undefined" && s != "null";
    }
  }

  /** Two fields render to the same string exactly when they are equal. */
  lemma InterpolateInjective(a: Maybe<SafeInteger>, b: Maybe<SafeInteger>)
    ensures Interpolate(a) == Interpolate(b) <==> a == b
  {
    ParseInterpolatedRoundTrip(a);
    ParseInterpolatedRoundTrip(b);
  }
}
