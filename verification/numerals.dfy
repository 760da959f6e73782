/**
 * Decimal rendering of integers (`String(n)` and template-literal interpolation)
 * and JavaScript's `parseInt` without a radix argument.
 */
module Numerals {
  import opened Wrappers
  import opened JsText

  /** The character of a decimal digit. */
  function DigitChar(d: nat): (c: char)
    requires d < 10
    ensures IsAsciiDigit(c) && c as int - '0' as int == d
  {
    ('0' as int + d) as char
  }

  /** The value of a digit character in base `radix` (10 or 16), if it is one. */
  function DigitValue(c: char, radix: nat): (r: Option<nat>)
    ensures r.Some? ==> r.value < radix
    ensures radix == 10 ==> (r.Some? <==> IsAsciiDigit(c))
    ensures IsAsciiDigit(c) && radix >= 10 ==> r == Some(c as int - '0' as int)
  {
    if IsAsciiDigit(c) && c as int - '0' as int < radix then Some(c as int - '0' as int)
    else if radix == 16 && 'a' <= c <= 'f' then Some(c as int - 'a' as int + 10)
    else if radix == 16 && 'A' <= c <= 'F' then Some(c as int - 'A' as int + 10)
    else None
  }

  predicate AllDigits(s: string, radix: nat)
  {
    forall i :: 0 <= i < |s| ==> DigitValue(s[i], radix).Some?
  }

  /** Positional value of a digit string, most significant digit first. */
  function RadixValue(s: string, radix: nat): nat
    requires AllDigits(s, radix)
  {
    if s == [] then 0
    else RadixValue(s[..|s| - 1], radix) * radix + DigitValue(s[|s| - 1], radix).value
  }

  /** `String(n)` for a natural number: decimal digits without leading zeros. */
  function NatToString(n: nat): (r: string)
    ensures |r| >= 1 && AllDigits(r, 10)
    ensures |r| > 1 ==> r[0] != '0'
    ensures r[0] == '0' ==> n == 0
    decreases n
  {
    if n < 10 then [DigitChar(n)] else NatToString(n / 10) + [DigitChar(n % 10)]
  }

  /** `String(i)` for an integer. */
  function IntToString(i: int): (r: string)
    ensures |r| >= 1
    ensures i < 0 <==> r[0] == '-'
  {
    if i < 0 then "-" + NatToString(-i) else NatToString(i)
  }

  /** Reading back a rendered natural number yields that number. */
  lemma {:induction false} NatToStringRoundTrip(n: nat)
    ensures RadixValue(NatToString(n), 10) == n
    decreases n
  {
    var r := NatToString(n);
    if n >= 10 {
      NatToStringRoundTrip(n / 10);
      assert r[..|r| - 1] == NatToString(n / 10);
    }
  }

  /** Length of the longest prefix of `s` made of base-`radix` digits. */
  function DigitPrefixLen(s: string, radix: nat): (k: nat)
    ensures k <= |s| && AllDigits(s[..k], radix)
    ensures k < |s| ==> DigitValue(s[k], radix).None?
  {
    if s == [] || DigitValue(s[0], radix).None? then 0
    else
      var k := 1 + DigitPrefixLen(s[1..], radix);
      assert forall i :: 1 <= i < k ==> s[..k][i] == s[1..][..k - 1][i - 1];
      k
  }

  /** A hexadecimal prefix `0x` or `0X`. */
  predicate HasHexPrefix(s: string)
  {
    |s| >= 2 && s[0] == '0' && (s[1] == 'x' || s[1] == 'X')
  }

  /** The integer read from a digit string in base `radix`, NaN when it has no digit. */
  function ReadDigits(s: string, radix: nat): Option<nat>
  {
    var k := DigitPrefixLen(s, radix);
    if k == 0 then None else Some(RadixValue(s[..k], radix))
  }

  /**
   * `parseInt(s)`: leading whitespace is skipped, an optional sign is read, a `0x`
   * prefix switches to base 16, and the longest run of digits that follows is
   * read; `None` stands for NaN.
   */
  function ParseInt(s: string): Option<int>
  {
    var t := TrimStart(s);
    var negative := t != [] && t[0] == '-';
    var u := if t != [] && (t[0] == '-' || t[0] == '+') then t[1..] else t;
    var digits := if HasHexPrefix(u) then ReadDigits(u[2..], 16) else ReadDigits(u, 10);
    match digits
    case None => None
    case Some(v) => var n: int := if negative then -(v as int) else v; Some(n)
  }

  /** A string without any decimal digit reads as NaN. */
  lemma ParseIntNoDigits(s: string)
    requires forall i :: 0 <= i < |s| ==> !IsAsciiDigit(s[i])
    ensures ParseInt(s).None?
  {
    var t := TrimStart(s);
    var u := if t != [] && (t[0] == '-' || t[0] == '+') then t[1..] else t;
    assert forall i :: 0 <= i < |u| ==> u[i] == s[|s| - |u| + i];
    if !HasHexPrefix(u) && u != [] {
      assert DigitValue(u[0], 10).None?;
    }
  }

  /** A non-empty string of decimal digits reads as its decimal value. */
  lemma ParseIntDecimal(s: string)
    requires s != [] && AllDigits(s, 10)
    ensures ParseInt(s) == Some(RadixValue(s, 10))
  {
    TrimStartNoop(s);
    assert DigitPrefixLen(s, 10) == |s|;
    assert s[..|s|] == s;
  }

  /** A minus sign followed by a non-empty string of decimal digits reads as the negated value. */
  lemma ParseIntNegative(s: string, d: string)
    requires d != [] && AllDigits(d, 10)
    requires |s| >= 1 && s[0] == '-' && s[1..] == d
    ensures ParseInt(s) == Some(-(RadixValue(d, 10) as int))
  {
    TrimStartNoop(s);
    assert !HasHexPrefix(d) by {
      if |d| >= 2 {
        assert DigitValue(d[1], 10).Some?;
      }
    }
    assert ReadDigits(d, 10) == Some(RadixValue(d, 10)) by {
      assert DigitPrefixLen(d, 10) == |d|;
      assert d[..|d|] == d;
    }
  }

  /** `parseInt(String(i)) == i`: the decimal rendering of any integer reads back as itself. */
  lemma IntToStringParses(i: int)
    ensures ParseInt(IntToString(i)) == Some(i)
  {
    var n: nat := if i < 0 then -i else i;
    NatToStringRoundTrip(n);
    var s := IntToString(i);
    if i < 0 {
      assert s[1..] == NatToString(n);
      ParseIntNegative(s, NatToString(n));
    } else {
      ParseIntDecimal(NatToString(n));
    }
  }
}
