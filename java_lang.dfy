/**
 * The java.lang behaviour the command engine relies on: integer parsing with
 * range checks, Boolean.parseBoolean, the textual shape accepted by
 * Float/Double.parseFloat, String.trim/toLowerCase/replace/startsWith/endsWith,
 * decimal printing, and 64-bit long arithmetic (wrap-around, truncating division).
 */
module JavaLang {
  import opened Wrappers

  const MinShort: int := -0x8000
  const MaxShort: int := 0x7fff
  const MinInt: int := -0x8000_0000
  const MaxInt: int := 0x7fff_ffff
  const MinLong: int := -0x8000_0000_0000_0000
  const MaxLong: int := 0x7fff_ffff_ffff_ffff
  const TwoTo64: int := 0x1_0000_0000_0000_0000

  /** A value of Java's `long`. */
  type Long = x: int | MinLong <= x <= MaxLong

  // ---------------------------------------------------------------- digits

  predicate IsDigit(c: char) { '0' <= c <= '9' }

  predicate AllDigits(s: string) { forall i :: 0 <= i < |s| ==> IsDigit(s[i]) }

  function DigitChar(d: nat): (c: char)
    requires d < 10
    ensures IsDigit(c) && c as int - '0' as int == d
  {
    ('0' as int + d) as char
  }

  /** The number a string of decimal digits denotes. */
  function DigitsValue(s: string): nat
    requires AllDigits(s)
  {
    if |s| == 0 then 0 else 10 * DigitsValue(s[..|s| - 1]) + (s[|s| - 1] as int - '0' as int)
  }

  /** Decimal text of a natural number, as Long.toString prints it. */
  function NatToString(n: nat): (s: string)
    ensures |s| > 0 && AllDigits(s)
  {
    if n < 10 then [DigitChar(n)] else NatToString(n / 10) + [DigitChar(n % 10)]
  }

  /** Decimal text of an integer, with a leading '-' for negative numbers. */
  function IntToString(i: int): (s: string)
    ensures |s| > 0
    ensures i >= 0 ==> IsDigit(s[0])
    ensures i < 0 ==> s[0] == '-'
  {
    if i < 0 then "-" + NatToString(-i) else NatToString(i)
  }

  lemma {:induction false} NatToStringValue(n: nat)
    ensures DigitsValue(NatToString(n)) == n
  {
    if n >= 10 {
      var s := NatToString(n);
      assert s[..|s| - 1] == NatToString(n / 10);
      NatToStringValue(n / 10);
    }
  }

  // ---------------------------------------------------------- number parsing

  /**
   * Integer.parseInt / Short.parseShort / Long.parseLong in radix 10: an optional
   * '+' or '-', then at least one decimal digit, and the value must lie in
   * [lo, hi]; anything else is a NumberFormatException (None).
   */
  function ParseIntegral(s: string, lo: int, hi: int): (r: Option<int>)
    ensures r.Some? ==> lo <= r.value <= hi
    ensures |s| == 0 ==> r == None
  {
    if |s| == 0 then None
    else
      var signed := s[0] == '-' || s[0] == '+';
      var digits := if signed then s[1..] else s;
      if |digits| == 0 || !AllDigits(digits) then None
      else
        var n: int := DigitsValue(digits);
        var v := if s[0] == '-' then -n else n;
        if lo <= v <= hi then Some(v) else None
  }

  function ParseInt(s: string): Option<int> { ParseIntegral(s, MinInt, MaxInt) }

  function ParseShort(s: string): Option<int> { ParseIntegral(s, MinShort, MaxShort) }

  function ParseLong(s: string): Option<int> { ParseIntegral(s, MinLong, MaxLong) }

  /** Parsing the printed form of an in-range integer gives the integer back. */
  lemma ParseIntegralOfToString(i: int, lo: int, hi: int)
    requires lo <= i <= hi
    ensures ParseIntegral(IntToString(i), lo, hi) == Some(i)
  {
    var s := IntToString(i);
    if i < 0 {
      assert s[1..] == NatToString(-i);
      NatToStringValue(-i);
    } else {
      NatToStringValue(i);
    }
  }

  /** Boolean.parseBoolean: true exactly for "true" in any letter case; never fails. */
  function ParseBoolean(s: string): bool { Lower(s) == "true" }

  /**
   * The decimal forms accepted by Float.parseFloat and Double.parseDouble:
   * surrounding blanks are trimmed, then an optional sign and either NaN,
   * Infinity, or digits with at most one '.' (and at least one digit), an
   * optional exponent and an optional f/F/d/D suffix.
   */
  predicate IsFloatLiteral(s: string) {
    var t := Trim(s);
    var body := if |t| > 0 && (t[0] == '+' || t[0] == '-') then t[1..] else t;
    body == "NaN" || body == "Infinity" || DecimalFrom(body, 0, Start)
  }

  /** Where a left-to-right reading of a decimal literal is. */
  datatype DecimalState =
    | Start      // nothing read
    | IntPart    // digits
    | DotOnly    // a '.' with no digit before it
    | FracPart   // digits and a '.', or a '.' and digits
    | ExpMark    // ... then 'e' or 'E'
    | ExpSign    // ... then a sign
    | ExpPart    // ... then exponent digits

  predicate Complete(q: DecimalState) { q == IntPart || q == FracPart || q == ExpPart }

  function DecimalStep(q: DecimalState, c: char): Option<DecimalState> {
    match q
    case Start => if IsDigit(c) then Some(IntPart) else if c == '.' then Some(DotOnly) else None
    case IntPart =>
      if IsDigit(c) then Some(IntPart) else if c == '.' then Some(FracPart)
      else if c == 'e' || c == 'E' then Some(ExpMark) else None
    case DotOnly => if IsDigit(c) then Some(FracPart) else None
    case FracPart => if IsDigit(c) then Some(FracPart) else if c == 'e' || c == 'E' then Some(ExpMark) else None
    case ExpMark => if IsDigit(c) then Some(ExpPart) else if c == '+' || c == '-' then Some(ExpSign) else None
    case ExpSign => if IsDigit(c) then Some(ExpPart) else None
    case ExpPart => if IsDigit(c) then Some(ExpPart) else None
  }

  /** Whether b[i..], read from state q, completes a literal; a last f/F/d/D after a complete literal is its suffix. */
  predicate DecimalFrom(b: string, i: nat, q: DecimalState)
    decreases |b| - i
  {
    if i >= |b| then Complete(q)
    else if i == |b| - 1 && Complete(q) && b[i] in {'f', 'F', 'd', 'D'} then true
    else match DecimalStep(q, b[i])
      case None => false
      case Some(q1) => DecimalFrom(b, i + 1, q1)
  }

  // ------------------------------------------------------------------ strings

  predicate StartsWith(s: string, prefix: string) { |prefix| <= |s| && s[..|prefix|] == prefix }

  /** Appending text keeps every prefix a prefix. */
  lemma StartsWithAppend(s: string, prefix: string, t: string)
    requires StartsWith(s, prefix)
    ensures StartsWith(s + t, prefix)
  {
    assert (s + t)[..|prefix|] == s[..|prefix|];
  }

  predicate EndsWith(s: string, suffix: string) { |suffix| <= |s| && s[|s| - |suffix|..] == suffix }

  function LowerChar(c: char): char { if 'A' <= c <= 'Z' then (c as int + 32) as char else c }

  /** String.toLowerCase, on the ASCII letters. */
  function Lower(s: string): (r: string)
    ensures |r| == |s|
    ensures forall i :: 0 <= i < |s| ==> r[i] == LowerChar(s[i])
  {
    seq(|s|, i requires 0 <= i < |s| => LowerChar(s[i]))
  }

  lemma LowerIdempotent(s: string)
    ensures Lower(Lower(s)) == Lower(s)
  {
  }

  /**
   * String.trim: drops every leading and trailing character up to U+0020 and
   * nothing else: what is left is a slice s[i..i + |r|] with only such
   * characters before and after it.
   */
  function Trim(s: string): (r: string)
    ensures |r| <= |s|
    ensures |r| > 0 ==> r[0] > ' ' && r[|r| - 1] > ' '
    ensures exists i :: 0 <= i <= |s| - |r| && TrimmedAt(s, r, i)
  {
    var t := TrimStart(s);
    var r := TrimEnd(t);
    TrimmedBothEnds(s, t, r);
    r
  }

  /** Cutting a blank prefix off s and then a blank suffix off the rest leaves a slice of s between blanks. */
  lemma TrimmedBothEnds(s: string, t: string, r: string)
    requires |t| <= |s| && t == s[|s| - |t|..] && forall k :: 0 <= k < |s| - |t| ==> s[k] <= ' '
    requires |r| <= |t| && r == t[..|r|] && forall k :: |r| <= k < |t| ==> t[k] <= ' '
    ensures TrimmedAt(s, r, |s| - |t|)
  {
    var i := |s| - |t|;
    assert r == s[i..i + |r|];
    forall k | i + |r| <= k < |s| ensures s[k] <= ' ' {
      assert s[k] == t[k - i];
    }
  }

  /** r is s[i..i + |r|], and every character of s outside that slice is at most U+0020. */
  predicate TrimmedAt(s: string, r: string, i: int) {
    0 <= i <= |s| - |r| && r == s[i..i + |r|] &&
    (forall k :: 0 <= k < i ==> s[k] <= ' ') &&
    (forall k :: i + |r| <= k < |s| ==> s[k] <= ' ')
  }

  /** The leading characters up to U+0020 removed, and only those. */
  function TrimStart(s: string): (r: string)
    ensures |r| <= |s| && (|r| > 0 ==> r[0] > ' ')
    ensures r == s[|s| - |r|..]
    ensures forall k :: 0 <= k < |s| - |r| ==> s[k] <= ' '
  {
    if |s| > 0 && s[0] <= ' ' then TrimStart(s[1..]) else s
  }

  /** The trailing characters up to U+0020 removed, and only those. */
  function TrimEnd(s: string): (r: string)
    ensures |r| <= |s| && (|r| > 0 ==> r[|r| - 1] > ' ')
    ensures r == s[..|r|]
    ensures forall k :: |r| <= k < |s| ==> s[k] <= ' '
  {
    if |s| > 0 && s[|s| - 1] <= ' ' then TrimEnd(s[..|s| - 1]) else s
  }

  /**
   * String.replace(target, replacement): every occurrence of `target`, found
   * left to right without overlap, is replaced.
   */
  function Replace(s: string, target: string, replacement: string): string
    requires |target| > 0
  {
    if |s| < |target| then s
    else if s[..|target|] == target then replacement + Replace(s[|target|..], target, replacement)
    else [s[0]] + Replace(s[1..], target, replacement)
  }

  // --------------------------------------------------------------- long math

  /** The long that Java arithmetic leaves after a result overflows 64 bits. */
  function Wrap64(x: int): (r: Long)
    ensures MinLong <= x <= MaxLong ==> r == x
  {
    (x - MinLong) % TwoTo64 + MinLong
  }

  function Abs(x: int): nat {
    if x < 0 then -x else x
  }

  /**
   * Java's integer division, which rounds toward zero: the quotient of the
   * magnitudes, negative exactly when the operands' signs differ, and never
   * larger in magnitude than the dividend.
   */
  function TruncDiv(a: int, b: int): (q: int)
    requires b != 0
    ensures Abs(q) == Abs(a) / Abs(b)
    ensures q != 0 ==> (q < 0 <==> (a < 0) != (b < 0))
    ensures Abs(q) <= Abs(a)
  {
    var d := Abs(a) / Abs(b);
    DivAtMost(Abs(a), Abs(b));
    var q := if (a < 0) == (b < 0) then d else -d;
    assert Abs(q) == d;
    q
  }

  /** Dividing by a positive number does not make a natural number larger. */
  lemma DivAtMost(n: nat, d: nat)
    requires d > 0
    ensures n / d <= n
  {
    var q, r := n / d, n % d;
    assert n == q * d + r && 0 <= r;
    MulAtLeast(q, d);
  }

  /** Multiplying a natural number by a positive one does not make it smaller. */
  lemma {:induction false} MulAtLeast(x: nat, y: nat)
    requires y >= 1
    ensures x * y >= x
  {
    if y > 1 {
      MulAtLeast(x, y - 1);
      assert x * y == x * (y - 1) + x;
    }
  }
}
