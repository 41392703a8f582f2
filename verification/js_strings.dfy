/** The few JavaScript string primitives the pages rely on: `trim`, `toLowerCase`,
    `includes`, the `<` order on strings and `Number(string)`. */
module JsStrings {

  /** ECMAScript WhiteSpace and LineTerminator code points: what `trim` strips
      and what the regex class `\s` matches. */
  predicate IsSpace(c: char) {
    c as int in SpaceCodes
  }

  const SpaceCodes: set<int> :=
    {0x09, 0x0A, 0x0B, 0x0C, 0x0D, 0x20, 0xA0, 0x1680,
     0x2000, 0x2001, 0x2002, 0x2003, 0x2004, 0x2005, 0x2006, 0x2007, 0x2008, 0x2009, 0x200A,
     0x2028, 0x2029, 0x202F, 0x205F, 0x3000, 0xFEFF}

  /** The regex class `\d`: ASCII digits only. */
  predicate IsDigit(c: char) {
    '0' <= c <= '9'
  }

  predicate AllSpace(s: string) {
    forall i | 0 <= i < |s| :: IsSpace(s[i])
  }

  predicate AllDigits(s: string) {
    forall i | 0 <= i < |s| :: IsDigit(s[i])
  }

  /** The first index at or after `i` that is not white space (or `|s|`). */
  function SkipSpace(s: string, i: nat): (k: nat)
    requires i <= |s|
    ensures i <= k <= |s|
    ensures forall j | i <= j < k :: IsSpace(s[j])
    ensures k < |s| ==> !IsSpace(s[k])
    decreases |s| - i
  {
    if i < |s| && IsSpace(s[i]) then SkipSpace(s, i + 1) else i
  }

  /** The least `k >= lo` such that `s[k..j]` is all white space. */
  function SkipSpaceBack(s: string, lo: nat, j: nat): (k: nat)
    requires lo <= j <= |s|
    ensures lo <= k <= j
    ensures forall m | k <= m < j :: IsSpace(s[m])
    ensures k > lo ==> !IsSpace(s[k - 1])
    decreases j
  {
    if j > lo && IsSpace(s[j - 1]) then SkipSpaceBack(s, lo, j - 1) else j
  }

  /** `String.prototype.trim`: the result is a slice of `s` with white space
      only around it, and it is empty exactly when `s` is all white space. */
  function Trim(s: string): (r: string)
    ensures Contains(s, r)
    ensures exists lo, hi | 0 <= lo <= hi <= |s| :: r == s[lo..hi] && AllSpace(s[..lo]) && AllSpace(s[hi..])
    ensures r == [] || (!IsSpace(r[0]) && !IsSpace(r[|r| - 1]))
    ensures r == [] <==> AllSpace(s)
  {
    var lo := SkipSpace(s, 0);
    var hi := SkipSpaceBack(s, lo, |s|);
    assert SliceAt(s, lo, s[lo..hi]);
    assert AllSpace(s[..lo]) && AllSpace(s[hi..]);
    s[lo..hi]
  }

  /** `toLowerCase` on one character, ASCII letters only. */
  function LowerChar(c: char): (r: char)
    ensures 'A' <= c <= 'Z' ==> r as int == c as int + 32
    ensures !('A' <= c <= 'Z') ==> r == c
  {
    if 'A' <= c <= 'Z' then (c as int + 32) as char else c
  }

  /** `toUpperCase` on one character, ASCII letters only. */
  function UpperChar(c: char): (r: char)
    ensures 'a' <= c <= 'z' ==> r as int == c as int - 32
    ensures !('a' <= c <= 'z') ==> r == c
  {
    if 'a' <= c <= 'z' then (c as int - 32) as char else c
  }

  function ToLower(s: string): (r: string)
    ensures |r| == |s|
  {
    seq(|s|, i requires 0 <= i < |s| => LowerChar(s[i]))
  }

  /** `hay.includes(needle)`. */
  predicate Contains(hay: string, needle: string) {
    exists i | 0 <= i <= |hay| - |needle| :: SliceAt(hay, i, needle)
  }

  /** `needle` occurs in `hay` starting at index `i`. */
  predicate SliceAt(hay: string, i: int, needle: string) {
    0 <= i <= |hay| - |needle| && hay[i..i + |needle|] == needle
  }

  lemma EmptyNeedleIsContained(hay: string)
    ensures Contains(hay, [])
  {
    assert SliceAt(hay, 0, []);
  }

  /** The `<` relation JavaScript applies to two strings, taken over
      characters: lexicographic, with a proper prefix ordered first. JavaScript
      compares UTF-16 code units, which orders characters outside the Basic
      Multilingual Plane differently; the pages compare ASCII dates only. */
  predicate LexLess(a: string, b: string) {
    if |b| == 0 then false
    else if |a| == 0 then true
    else if a[0] != b[0] then a[0] < b[0]
    else LexLess(a[1..], b[1..])
  }

  lemma {:induction false} LexLessIrreflexive(a: string)
    ensures !LexLess(a, a)
  {
    if |a| > 0 {
      LexLessIrreflexive(a[1..]);
    }
  }

  lemma {:induction false} LexLessTrichotomy(a: string, b: string)
    ensures a == b || LexLess(a, b) || LexLess(b, a)
    ensures !(LexLess(a, b) && LexLess(b, a))
  {
    if |a| > 0 && |b| > 0 && a[0] == b[0] {
      LexLessTrichotomy(a[1..], b[1..]);
      if a[1..] == b[1..] {
        assert a == [a[0]] + a[1..] && b == [b[0]] + b[1..];
      }
    }
  }

  /** The result of `Number(string)`: a real value or NaN. */
  datatype JsNumber = NaN | Num(value: real)

  function DigitValue(c: char): (r: nat)
    requires IsDigit(c)
    ensures r <= 9
  {
    c as int - '0' as int
  }

  /** The decimal value of a run of digits. */
  function DigitsValue(d: string): nat
    requires AllDigits(d)
  {
    if |d| == 0 then 0 else 10 * DigitsValue(d[..|d| - 1]) + DigitValue(d[|d| - 1])
  }

  function Pow10(n: nat): (r: nat)
    ensures r >= 1
  {
    if n == 0 then 1 else 10 * Pow10(n - 1)
  }

  /** The number of leading digits of `s`. */
  function LeadingDigits(s: string): (k: nat)
    ensures k <= |s|
    ensures AllDigits(s[..k])
    ensures k < |s| ==> !IsDigit(s[k])
  {
    var k := SkipDigits(s, 0);
    assert forall j | 0 <= j < k :: s[..k][j] == s[j];
    k
  }

  function SkipDigits(s: string, i: nat): (k: nat)
    requires i <= |s|
    ensures i <= k <= |s|
    ensures forall j | i <= j < k :: IsDigit(s[j])
    ensures k < |s| ==> !IsDigit(s[k])
    decreases |s| - i
  {
    if i < |s| && IsDigit(s[i]) then SkipDigits(s, i + 1) else i
  }

  /** A literal without exponent: `ddd`, `ddd.ddd`, `ddd.` or `.ddd`. */
  function DecimalMantissa(t: string): JsNumber {
    var k := LeadingDigits(t);
    if k == |t| then
      if k == 0 then NaN else Num(DigitsValue(t) as real)
    else if t[k] == '.' && AllDigits(t[k + 1..]) && (k > 0 || k + 1 < |t|) then
      var frac := t[k + 1..];
      Num(DigitsValue(t[..k]) as real + DigitsValue(frac) as real / Pow10(|frac|) as real)
    else
      NaN
  }

  /** The index of the first exponent mark 'e' or 'E' at or after `i` (or `|t|`). */
  function ExponentMark(t: string, i: nat): (k: nat)
    requires i <= |t|
    ensures i <= k <= |t|
    ensures forall j | i <= j < k :: t[j] != 'e' && t[j] != 'E'
    ensures k < |t| ==> t[k] == 'e' || t[k] == 'E'
    decreases |t| - i
  {
    if i == |t| || t[i] == 'e' || t[i] == 'E' then i else ExponentMark(t, i + 1)
  }

  /** A signed exponent: an optional '+' or '-', then one or more digits. */
  predicate IsExponent(x: string) {
    var d := if |x| > 0 && (x[0] == '+' || x[0] == '-') then x[1..] else x;
    |d| > 0 && AllDigits(d)
  }

  function ExponentValue(x: string): int
    requires IsExponent(x)
  {
    if x[0] == '-' then -(DigitsValue(x[1..]) as int)
    else if x[0] == '+' then DigitsValue(x[1..])
    else DigitsValue(x)
  }

  /** `v` times ten to the power `n`. */
  function Scale(v: real, n: int): real {
    if n >= 0 then v * Pow10(n) as real else v / Pow10(-n) as real
  }

  /** An unsigned decimal literal: a mantissa, then optionally 'e' or 'E'
      and a signed exponent. */
  function UnsignedDecimal(t: string): JsNumber {
    var e := ExponentMark(t, 0);
    if e == |t| then DecimalMantissa(t)
    else
      var x := t[e + 1..];
      match DecimalMantissa(t[..e])
      case Num(v) => if IsExponent(x) then Num(Scale(v, ExponentValue(x))) else NaN
      case NaN => NaN
  }

  /** `Number(s)` for decimal strings: white space around the literal is
      ignored, a blank string is 0, anything unreadable is NaN. */
  function StringToNumber(s: string): JsNumber {
    var t := Trim(s);
    if t == [] then Num(0.0)
    else if t[0] == '-' then
      match UnsignedDecimal(t[1..])
      case Num(v) => Num(-v)
      case NaN => NaN
    else if t[0] == '+' then UnsignedDecimal(t[1..])
    else UnsignedDecimal(t)
  }

  /** A string of digits converts to the number it spells. */
  lemma DigitStringToNumber(s: string)
    requires |s| > 0 && AllDigits(s)
    ensures StringToNumber(s) == Num(DigitsValue(s) as real)
  {
    TrimKeepsDigitEnds(s);
    NoExponentInDigits(s);
    DigitMantissa(s);
  }

  lemma TrimKeepsDigitEnds(t: string)
    requires |t| > 0 && IsDigit(t[0]) && IsDigit(t[|t| - 1])
    ensures Trim(t) == t
  {
    DigitIsNotSpace(t[0]);
    DigitIsNotSpace(t[|t| - 1]);
    assert SkipSpace(t, 0) == 0;
    assert SkipSpaceBack(t, 0, |t|) == |t|;
  }

  lemma NoExponentInDigits(s: string)
    requires AllDigits(s)
    ensures ExponentMark(s, 0) == |s|
  {
  }

  lemma DigitMantissa(d: string)
    requires |d| > 0 && AllDigits(d)
    ensures DecimalMantissa(d) == Num(DigitsValue(d) as real)
  {
    assert LeadingDigits(d) == |d|;
  }

  /** Digits, 'e' and digits convert to the first number times ten to the second. */
  lemma ExponentToNumber(d: string, x: string)
    requires |d| > 0 && AllDigits(d) && |x| > 0 && AllDigits(x)
    ensures StringToNumber(d + "e" + x) == Num((DigitsValue(d) * Pow10(DigitsValue(x))) as real)
  {
    var t := d + "e" + x;
    assert t[0] == d[0] && t[|t| - 1] == x[|x| - 1];
    TrimKeepsDigitEnds(t);
    UnsignedToNumber(t);
    MarkAfterDigits(d, x);
    DigitMantissa(d);
    assert IsExponent(x) && ExponentValue(x) == DigitsValue(x);
    ExponentApplied(t, |d|);
    ScaleUp(DigitsValue(d), DigitsValue(x));
  }

  lemma UnsignedToNumber(t: string)
    requires Trim(t) == t && |t| > 0 && IsDigit(t[0])
    ensures StringToNumber(t) == UnsignedDecimal(t)
  {
  }

  lemma ExponentApplied(t: string, e: nat)
    requires e < |t| && ExponentMark(t, 0) == e
    requires DecimalMantissa(t[..e]).Num? && IsExponent(t[e + 1..])
    ensures UnsignedDecimal(t) == Num(Scale(DecimalMantissa(t[..e]).value, ExponentValue(t[e + 1..])))
  {
  }

  lemma ScaleUp(m: nat, n: nat)
    ensures Scale(m as real, n) == (m * Pow10(n)) as real
  {
  }

  lemma MarkAfterDigits(d: string, x: string)
    requires AllDigits(d)
    ensures ExponentMark(d + "e" + x, 0) == |d|
    ensures (d + "e" + x)[..|d|] == d && (d + "e" + x)[|d| + 1..] == x
  {
    var t := d + "e" + x;
    assert forall j | 0 <= j < |d| :: t[j] == d[j];
    assert t[|d|] == 'e';
  }

  lemma DigitIsNotSpace(c: char)
    requires IsDigit(c)
    ensures !IsSpace(c)
  {
  }

  /** White space alone converts to 0, not NaN. */
  lemma BlankStringToNumber(s: string)
    requires AllSpace(s)
    ensures StringToNumber(s) == Num(0.0)
  {
  }
}
