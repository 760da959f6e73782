/**
 * The JavaScript string primitives the application relies on: `trim`, the `\s`
 * character class, `toLowerCase` and case-insensitive containment.
 * One whitespace predicate serves `String.prototype.trim`, `parseInt` and the
 * regular-expression class `\s`, as ECMAScript defines all three from the same
 * WhiteSpace and LineTerminator code points.
 */
module JsText {

  /** ECMAScript WhiteSpace or LineTerminator. */
  predicate IsWhitespace(c: char)
  {
    c == '\t' || c == '\n' || c == '\U{B}' || c == '\U{C}' || c == '\r' || c == ' '
    || c == '\U{A0}' || c == '\U{1680}' || ('\U{2000}' <= c <= '\U{200A}')
    || c == '\U{2028}' || c == '\U{2029}' || c == '\U{202F}' || c == '\U{205F}'
    || c == '\U{3000}' || c == '\U{FEFF}'
  }

  predicate IsAsciiUpper(c: char) { 'A' <= c <= 'Z' }
  predicate IsAsciiLower(c: char) { 'a' <= c <= 'z' }
  predicate IsAsciiDigit(c: char) { '0' <= c <= '9' }
  predicate IsAsciiAlnum(c: char) { IsAsciiUpper(c) || IsAsciiLower(c) || IsAsciiDigit(c) }

  /** Leading whitespace removed. */
  function TrimStart(s: string): (r: string)
    ensures |r| <= |s| && r == s[|s| - |r|..]
    ensures forall i :: 0 <= i < |s| - |r| ==> IsWhitespace(s[i])
    ensures r == [] || !IsWhitespace(r[0])
  {
    if s == [] || !IsWhitespace(s[0]) then s else TrimStart(s[1..])
  }

  /** Trailing whitespace removed. */
  function TrimEnd(s: string): (r: string)
    ensures |r| <= |s| && r == s[..|r|]
    ensures forall i :: |r| <= i < |s| ==> IsWhitespace(s[i])
    ensures r == [] || !IsWhitespace(r[|r| - 1])
  {
    if s == [] || !IsWhitespace(s[|s| - 1]) then s else TrimEnd(s[..|s| - 1])
  }

  /** `r` is the slice of `s` starting at `i`, and everything outside it is whitespace. */
  predicate TrimmedAt(r: string, s: string, i: int)
  {
    OccursAt(r, s, i)
    && (forall k :: 0 <= k < i ==> IsWhitespace(s[k]))
    && (forall k :: i + |r| <= k < |s| ==> IsWhitespace(s[k]))
  }

  /** `String.prototype.trim`: the longest middle slice that neither starts nor ends with whitespace. */
  function Trim(s: string): (r: string)
    ensures |r| <= |s|
    ensures TrimmedAt(r, s, |s| - |TrimStart(s)|)
    ensures r == [] || (!IsWhitespace(r[0]) && !IsWhitespace(r[|r| - 1]))
  {
    var a := TrimStart(s);
    var r := TrimEnd(a);
    TrimParts(s, a, r);
    r
  }

  lemma TrimParts(s: string, a: string, r: string)
    requires |a| <= |s| && a == s[|s| - |a|..]
    requires forall k :: 0 <= k < |s| - |a| ==> IsWhitespace(s[k])
    requires |r| <= |a| && r == a[..|r|]
    requires forall k :: |r| <= k < |a| ==> IsWhitespace(a[k])
    ensures TrimmedAt(r, s, |s| - |a|)
  {
    var i := |s| - |a|;
    assert r == s[i..i + |r|];
    forall k | i + |r| <= k < |s| ensures IsWhitespace(s[k]) {
      assert s[k] == a[k - i];
    }
  }

  lemma {:induction false} TrimStartNoop(s: string)
    requires s == [] || !IsWhitespace(s[0])
    ensures TrimStart(s) == s
  {
  }

  lemma {:induction false} TrimEndNoop(s: string)
    requires s == [] || !IsWhitespace(s[|s| - 1])
    ensures TrimEnd(s) == s
  {
  }

  /** Trimming twice is trimming once. */
  lemma TrimIdempotent(s: string)
    ensures Trim(Trim(s)) == Trim(s)
  {
    var t := Trim(s);
    TrimStartNoop(t);
    TrimEndNoop(t);
  }

  /** A string made only of whitespace trims to the empty string, and only such a string does. */
  lemma TrimEmptyIff(s: string)
    ensures Trim(s) == [] <==> forall i :: 0 <= i < |s| ==> IsWhitespace(s[i])
  {
    var r := Trim(s);
    var i := |s| - |TrimStart(s)|;
    assert TrimmedAt(r, s, i);
    if r != [] {
      assert s[i] == r[0];
    }
  }

  predicate AllWhitespace(s: string)
  {
    forall i :: 0 <= i < |s| ==> IsWhitespace(s[i])
  }

  /** Whitespace appended at the end is removed along with the whitespace already there. */
  lemma {:induction false} TrimEndAppendBlank(y: string, w: string)
    requires AllWhitespace(w)
    ensures TrimEnd(y + w) == TrimEnd(y)
    decreases |w|
  {
    if w == [] {
      assert y + w == y;
    } else {
      var yw := y + w;
      assert yw[|yw| - 1] == w[|w| - 1];
      assert yw[..|yw| - 1] == y + w[..|w| - 1];
      TrimEndAppendBlank(y, w[..|w| - 1]);
    }
  }

  /** Trimming the start of `x + w` stays inside `x` unless `x` is all whitespace. */
  lemma {:induction false} TrimStartAppend(x: string, w: string)
    ensures TrimStart(x + w) == if TrimStart(x) == [] then TrimStart(w) else TrimStart(x) + w
  {
    if x == [] {
      assert x + w == w;
    } else {
      assert (x + w)[0] == x[0];
      if IsWhitespace(x[0]) {
        assert (x + w)[1..] == x[1..] + w;
        TrimStartAppend(x[1..], w);
      }
    }
  }

  /** `trim` does not see whitespace appended to its input. */
  lemma TrimAppendBlank(x: string, w: string)
    requires AllWhitespace(w)
    ensures Trim(x + w) == Trim(x)
  {
    TrimStartAppend(x, w);
    var a := TrimStart(x);
    if a != [] {
      TrimEndAppendBlank(a, w);
    }
  }

  /** `toLowerCase` on one character, ASCII letters only. */
  function LowerChar(c: char): (r: char)
    ensures IsAsciiUpper(c) ==> IsAsciiLower(r) && r as int == c as int + 32
    ensures !IsAsciiUpper(c) ==> r == c
  {
    if IsAsciiUpper(c) then (c as int + 32) as char else c
  }

  /** `String.prototype.toLowerCase`, restricted to ASCII case mapping. */
  function ToLower(s: string): (r: string)
    ensures |r| == |s|
    ensures forall i :: 0 <= i < |s| ==> r[i] == LowerChar(s[i])
  {
    seq(|s|, i requires 0 <= i < |s| => LowerChar(s[i]))
  }

  /** A string with no upper-case ASCII letter is its own lower-case form. */
  lemma ToLowerOfLower(s: string)
    requires forall i :: 0 <= i < |s| ==> !IsAsciiUpper(s[i])
    ensures ToLower(s) == s
  {
  }

  /** `needle` occurs in `hay` at position `i`. */
  predicate OccursAt(needle: string, hay: string, i: int)
  {
    0 <= i && i + |needle| <= |hay| && hay[i..i + |needle|] == needle
  }

  /**
   * The case-insensitive containment test that a MongoDB `$regex` with option `i`
   * performs for a term without regular-expression metacharacters.
   */
  function ContainsIgnoreCase(hay: string, needle: string): (r: bool)
    ensures r <==> exists i :: OccursAt(ToLower(needle), ToLower(hay), i)
  {
    ContainsFrom(ToLower(hay), ToLower(needle), 0)
  }

  function ContainsFrom(hay: string, needle: string, k: nat): (r: bool)
    requires k <= |hay| + 1
    ensures r <==> exists i :: k <= i && OccursAt(needle, hay, i)
    decreases |hay| + 1 - k
  {
    if k + |needle| > |hay| then
      assert forall i :: k <= i ==> !OccursAt(needle, hay, i);
      false
    else if hay[k..k + |needle|] == needle then
      assert OccursAt(needle, hay, k);
      true
    else
      assert !OccursAt(needle, hay, k);
      ContainsFrom(hay, needle, k + 1)
  }
}
