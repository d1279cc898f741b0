/** Kotlin string behaviour the core relies on: `isBlank`, `Long.toString`
    inside string templates, and how a route or URL splits at a separator. */
module Strings {

  /** The range of a Kotlin `Long`. */
  const MIN_LONG: int := -0x8000_0000_0000_0000
  const MAX_LONG: int := 0x7FFF_FFFF_FFFF_FFFF
  type Long = x: int | MIN_LONG <= x <= MAX_LONG

  /** Kotlin/JVM `Char.isWhitespace`: Java's `isWhitespace` or `isSpaceChar`. */
  predicate IsWhitespace(c: char) {
    || c == ' ' || c == '\t' || c == '\n' || c == '\r'
    || c == '\U{000B}' || c == '\U{000C}'
    || ('\U{001C}' <= c <= '\U{001F}')
    || c == '\U{00A0}' || c == '\U{1680}'
    || ('\U{2000}' <= c <= '\U{200A}')
    || c == '\U{2028}' || c == '\U{2029}' || c == '\U{202F}' || c == '\U{205F}' || c == '\U{3000}'
  }

  /** Kotlin `isBlank`: empty, or whitespace only. */
  predicate IsBlank(s: string) {
    forall i :: 0 <= i < |s| ==> IsWhitespace(s[i])
  }

  predicate IsDigit(c: char) {
    '0' <= c <= '9'
  }

  function DigitChar(d: nat): (c: char)
    requires d < 10
    ensures IsDigit(c) && c as int - '0' as int == d
  {
    (d + '0' as int) as char
  }

  /** Decimal digits of a natural number, most significant first, no leading zero. */
  function NatToDecimal(n: nat): (r: string)
    ensures |r| >= 1
    ensures forall i :: 0 <= i < |r| ==> IsDigit(r[i])
    ensures r[0] == '0' ==> n == 0
    decreases n
  {
    if n < 10 then [DigitChar(n)] else NatToDecimal(n / 10) + [DigitChar(n % 10)]
  }

  /** The number a string of decimal digits denotes. */
  function DecimalValue(s: string): nat
    requires forall i :: 0 <= i < |s| ==> IsDigit(s[i])
  {
    if s == [] then 0
    else
      assert IsDigit(s[|s| - 1]);
      DecimalValue(s[..|s| - 1]) * 10 + (s[|s| - 1] as int - '0' as int)
  }

  lemma {:induction false} DecimalRoundTrip(n: nat)
    ensures DecimalValue(NatToDecimal(n)) == n
    decreases n
  {
    var r := NatToDecimal(n);
    if n >= 10 {
      DecimalRoundTrip(n / 10);
      assert r[..|r| - 1] == NatToDecimal(n / 10);
    }
  }

  /** `Long.toString()`, as a string template prints a number. */
  function LongToString(n: Long): (r: string)
    ensures |r| >= 1
    ensures forall i :: 0 <= i < |r| ==> IsDigit(r[i]) || r[i] == '-'
    ensures (r[0] == '-') <==> n < 0
  {
    if n < 0 then "-" + NatToDecimal(-(n as int)) else NatToDecimal(n)
  }

  /** Two numbers print the same only if they are equal. */
  lemma LongToStringInjective(a: Long, b: Long)
    requires LongToString(a) == LongToString(b)
    ensures a == b
  {
    if a < 0 {
      assert LongToString(a)[1..] == NatToDecimal(-(a as int));
      assert LongToString(b)[1..] == NatToDecimal(-(b as int));
      DecimalRoundTrip(-(a as int));
      DecimalRoundTrip(-(b as int));
    } else {
      DecimalRoundTrip(a);
      DecimalRoundTrip(b);
    }
  }

  /** Position of the first `c` in `s`, or `|s|` when there is none. */
  function IndexOfChar(s: string, c: char): (r: nat)
    ensures r <= |s|
    ensures forall i :: 0 <= i < r ==> s[i] != c
    ensures r < |s| ==> s[r] == c
  {
    if s == [] then 0 else if s[0] == c then 0 else 1 + IndexOfChar(s[1..], c)
  }

  lemma {:induction false} IndexOfCharAtJoin(x: string, y: string, c: char)
    requires c !in x && |y| > 0 && y[0] == c
    ensures IndexOfChar(x + y, c) == |x|
  {
    if x != [] {
      assert (x + y)[1..] == x[1..] + y;
      IndexOfCharAtJoin(x[1..], y, c);
    }
  }

  /** Two ways of writing one string as `x + y`, where neither `x` contains the
      separator `c` and both `y` start with it, are the same way. */
  lemma SplitAtSeparator(x1: string, y1: string, x2: string, y2: string, c: char)
    requires x1 + y1 == x2 + y2
    requires c !in x1 && c !in x2
    requires |y1| > 0 && y1[0] == c && |y2| > 0 && y2[0] == c
    ensures x1 == x2 && y1 == y2
  {
    IndexOfCharAtJoin(x1, y1, c);
    IndexOfCharAtJoin(x2, y2, c);
    assert x1 == (x1 + y1)[..|x1|];
    assert x2 == (x2 + y2)[..|x2|];
    assert y1 == (x1 + y1)[|x1|..];
    assert y2 == (x2 + y2)[|x2|..];
  }

  /** Equal strings with a common prefix agree after it. */
  lemma DropCommonPrefix(p: string, a: string, b: string)
    requires p + a == p + b
    ensures a == b
  {
    assert a == (p + a)[|p|..];
    assert b == (p + b)[|p|..];
  }

  /** No character of a printed number is one of the given separators. */
  lemma LongToStringHasNo(n: Long, c: char)
    requires !IsDigit(c) && c != '-'
    ensures c !in LongToString(n)
  {
  }
}
