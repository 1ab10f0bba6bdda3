/**
 * The handful of JavaScript string primitives the controllers and pages lean
 * on: truthiness of an optional string, `trim`, `startsWith`, `split(' ')[1]`,
 * `parseInt` (section 19.2.5 of ECMA-262) and `Number.prototype.toString` for
 * non-negative integers.
 */
module JsString {
  import opened Wrappers

  /** `!!s` for a value that is a string, `null` or `undefined`. */
  predicate Truthy(s: Option<string>) {
    s.Some? && |s.value| > 0
  }

  /** WhiteSpace and LineTerminator code points (section 12.2 and 12.3 of ECMA-262). */
  predicate IsWhite(c: char) {
    || c == ' ' || c == '\t' || c == '\n' || c == '\r'
    || c == '\U{0B}' || c == '\U{0C}'
    || c == '\U{A0}' || c == '\U{1680}'
    || ('\U{2000}' <= c <= '\U{200A}')
    || c == '\U{2028}' || c == '\U{2029}'
    || c == '\U{202F}' || c == '\U{205F}' || c == '\U{3000}' || c == '\U{FEFF}'
  }

  predicate AllWhite(s: string) {
    forall i :: 0 <= i < |s| ==> IsWhite(s[i])
  }

  /** `String.prototype.trimStart`. */
  function TrimStart(s: string): (r: string)
    ensures |r| <= |s|
    ensures r == s[|s| - |r|..]
    ensures AllWhite(s[..|s| - |r|])
    ensures |r| > 0 ==> !IsWhite(r[0])
  {
    if |s| > 0 && IsWhite(s[0]) then
      var r := TrimStart(s[1..]);
      assert s[1..][..|s[1..]| - |r|] == s[1..|s| - |r|];
      r
    else s
  }

  /** `String.prototype.trimEnd`. */
  function TrimEnd(s: string): (r: string)
    ensures |r| <= |s|
    ensures r == s[..|r|]
    ensures AllWhite(s[|r|..])
    ensures |r| > 0 ==> !IsWhite(r[|r| - 1])
  {
    if |s| > 0 && IsWhite(s[|s| - 1]) then
      var r := TrimEnd(s[..|s| - 1]);
      assert s[..|s| - 1][|r|..] == s[|r|..|s| - 1];
      r
    else s
  }

  /** `String.prototype.trim`. */
  function Trim(s: string): string {
    TrimEnd(TrimStart(s))
  }

  /** `s` is `r` with `k` white characters in front and nothing but white space behind. */
  predicate WhitePadded(s: string, k: int, r: string) {
    && 0 <= k && k + |r| <= |s|
    && (forall i :: 0 <= i < k ==> IsWhite(s[i]))
    && (forall i :: k + |r| <= i < |s| ==> IsWhite(s[i]))
    && (forall i :: 0 <= i < |r| ==> r[i] == s[k + i])
  }

  /**
   * `trim` removes exactly a whitespace prefix and a whitespace suffix: the
   * result is the part of the input between them.
   */
  lemma TrimSpec(s: string)
    ensures WhitePadded(s, |s| - |TrimStart(s)|, Trim(s))
  {
    var a := TrimStart(s);
    var r := Trim(s);
    assert r == TrimEnd(a);
    PaddedSlice(s, a, r);
  }

  /** A white prefix cut off `s`, then a white suffix cut off what is left: the rest is `s` between the two. */
  lemma PaddedSlice(s: string, a: string, r: string)
    requires |a| <= |s| && a == s[|s| - |a|..] && AllWhite(s[..|s| - |a|])
    requires |r| <= |a| && r == a[..|r|] && AllWhite(a[|r|..])
    ensures WhitePadded(s, |s| - |a|, r)
  {
    var k := |s| - |a|;
    forall i | 0 <= i < k
      ensures IsWhite(s[i])
    {
      assert s[..k][i] == s[i];
    }
    forall i | k + |r| <= i < |s|
      ensures IsWhite(s[i])
    {
      assert a[|r|..][i - k - |r|] == a[i - k] == s[i];
    }
    forall i | 0 <= i < |r|
      ensures r[i] == s[k + i]
    {
      assert r[i] == a[i];
    }
  }

  /** What `trim` returns neither starts nor ends with white space. */
  lemma TrimEdges(s: string)
    ensures |Trim(s)| > 0 ==> !IsWhite(Trim(s)[0]) && !IsWhite(Trim(s)[|Trim(s)| - 1])
  {
    var a := TrimStart(s);
    var r := TrimEnd(a);
    if |r| > 0 {
      assert r[0] == a[0];
    }
  }

  /** A string is blank after trimming exactly when every character is white space. */
  lemma {:induction false} TrimEmptyIffAllWhite(s: string)
    ensures |Trim(s)| == 0 <==> AllWhite(s)
  {
    TrimSpec(s);
    TrimEdges(s);
    if |Trim(s)| > 0 {
      assert Trim(s)[0] == s[|s| - |TrimStart(s)|];
    }
  }

  // ---------------------------------------------------------------------
  // length

  /** Code units a code point takes in UTF-16: two outside the Basic Multilingual Plane. */
  function CodeUnits(c: char): nat {
    if c >= '\U{10000}' then 2 else 1
  }

  /** `s.length`: a JavaScript string counts UTF-16 code units, not code points. */
  function Utf16Length(s: string): (n: nat)
    ensures |s| <= n <= 2 * |s|
  {
    if |s| == 0 then 0 else CodeUnits(s[0]) + Utf16Length(s[1..])
  }

  /** The length counts code points exactly when no code point lies outside the Basic Multilingual Plane. */
  lemma {:induction false} Utf16LengthIsSizeIffBmp(s: string)
    ensures Utf16Length(s) == |s| <==> forall i :: 0 <= i < |s| ==> s[i] < '\U{10000}'
  {
    if |s| > 0 {
      Utf16LengthIsSizeIffBmp(s[1..]);
      assert forall i :: 1 <= i < |s| ==> s[i] == s[1..][i - 1];
    }
  }

  /** Lengths add up over any cut of the string. */
  lemma {:induction false} Utf16LengthSplit(s: string, k: nat)
    requires k <= |s|
    ensures Utf16Length(s) == Utf16Length(s[..k]) + Utf16Length(s[k..])
  {
    if k > 0 {
      Utf16LengthSplit(s[1..], k - 1);
      assert s[1..][..k - 1] == s[..k][1..];
      assert s[1..][k - 1..] == s[k..];
    }
  }

  /** Trimming never makes a string longer. */
  lemma Utf16LengthOfTrim(s: string)
    ensures Utf16Length(Trim(s)) <= Utf16Length(s)
  {
    var a := TrimStart(s);
    Utf16LengthSplit(s, |s| - |a|);
    Utf16LengthSplit(a, |TrimEnd(a)|);
  }

  /** Three emoji are three code points but six code units. */
  lemma ThreeEmojiAreSixUnits()
    ensures |"\U{1F600}\U{1F600}\U{1F600}"| == 3
    ensures Utf16Length("\U{1F600}\U{1F600}\U{1F600}") == 6
  {
    var s := "\U{1F600}\U{1F600}\U{1F600}";
    assert s[1..][1..][1..] == "";
  }

  predicate StartsWith(s: string, prefix: string) {
    |prefix| <= |s| && s[..|prefix|] == prefix
  }

  /** Index of the first occurrence of `c` in `s`. */
  function IndexOf(s: string, c: char): (r: Option<nat>)
    ensures r.Some? ==> r.value < |s| && s[r.value] == c && c !in s[..r.value]
    ensures r.None? <==> c !in s
  {
    if |s| == 0 then None
    else if s[0] == c then Some(0)
    else
      match IndexOf(s[1..], c)
      case None => None
      case Some(i) =>
        assert s[..i + 1] == [s[0]] + s[1..][..i];
        Some(i + 1)
  }

  /** `s.split(sep)`: the maximal separator-free pieces, in order. */
  function Split(s: string, sep: char): (parts: seq<string>)
    ensures |parts| >= 1
    decreases |s|
  {
    match IndexOf(s, sep)
    case None => [s]
    case Some(i) => [s[..i]] + Split(s[i + 1..], sep)
  }

  /**
   * `s.split(' ')[1]`, computed directly: the text between the first space and
   * the next one (or the end); `undefined` when `s` has no space.
   */
  function SecondSegment(s: string): (r: Option<string>)
    ensures r.Some? <==> ' ' in s
    ensures r.Some? ==> ' ' !in r.value
  {
    match IndexOf(s, ' ')
    case None => None
    case Some(i) =>
      var rest := s[i + 1..];
      match IndexOf(rest, ' ')
      case None => Some(rest)
      case Some(j) => Some(rest[..j])
  }

  /** The direct computation agrees with indexing the result of `split`. */
  lemma SecondSegmentIsSplitIndex(s: string)
    ensures SecondSegment(s) == (if |Split(s, ' ')| > 1 then Some(Split(s, ' ')[1]) else None)
  {
    match IndexOf(s, ' ')
    case None =>
    case Some(i) =>
      var rest := s[i + 1..];
      assert Split(s, ' ') == [s[..i]] + Split(rest, ' ');
      match IndexOf(rest, ' ')
      case None =>
        assert Split(rest, ' ') == [rest];
      case Some(j) =>
        assert Split(rest, ' ') == [rest[..j]] + Split(rest[j + 1..], ' ');
  }

  /** Splitting two space-free words joined by one space gives the second word back. */
  lemma SecondSegmentOfJoin(w: string, t: string)
    requires ' ' !in w && ' ' !in t
    ensures SecondSegment(w + " " + t) == Some(t)
  {
    var s := w + " " + t;
    assert s[|w|] == ' ';
    assert s[..|w|] == w;
    assert IndexOf(s, ' ') == Some(|w|);
    assert s[|w| + 1..] == t;
  }

  /** A header that starts with "Bearer " always has a second segment, and it holds no space. */
  lemma BearerHasSecondSegment(h: string)
    requires StartsWith(h, "Bearer ")
    ensures SecondSegment(h).Some?
    ensures ' ' !in SecondSegment(h).value
  {
    assert h[6] == ' ';
  }

  // ---------------------------------------------------------------------
  // parseInt and toString

  /** Value of `c` as a digit in `radix` (10 or 16), or -1 when it is not one. */
  function DigitVal(c: char, radix: int): int {
    if '0' <= c <= '9' then (c as int) - ('0' as int)
    else if radix == 16 && 'a' <= c <= 'f' then (c as int) - ('a' as int) + 10
    else if radix == 16 && 'A' <= c <= 'F' then (c as int) - ('A' as int) + 10
    else -1
  }

  predicate IsDigit(c: char, radix: int) {
    DigitVal(c, radix) >= 0
  }

  /** Length of the longest prefix of `s` made of `radix` digits. */
  function DigitPrefix(s: string, radix: int): (n: nat)
    ensures n <= |s|
    ensures forall i :: 0 <= i < n ==> IsDigit(s[i], radix)
    ensures n < |s| ==> !IsDigit(s[n], radix)
  {
    if |s| > 0 && IsDigit(s[0], radix) then 1 + DigitPrefix(s[1..], radix) else 0
  }

  /** Positional value of a digit string, most significant digit first. */
  function ValueOf(s: string, radix: nat): nat
    requires forall i :: 0 <= i < |s| ==> IsDigit(s[i], radix)
  {
    if |s| == 0 then 0
    else
      assert IsDigit(s[|s| - 1], radix);
      ValueOf(s[..|s| - 1], radix) * radix + DigitVal(s[|s| - 1], radix)
  }

  /**
   * The unsigned part of `parseInt`: base 16 after a "0x"/"0X" prefix, base 10
   * otherwise, reading the longest digit prefix; `None` when there is none.
   */
  function ParseUnsigned(u: string): Option<nat> {
    var hex := |u| >= 2 && u[0] == '0' && (u[1] == 'x' || u[1] == 'X');
    var radix := if hex then 16 else 10;
    var body := if hex then u[2..] else u;
    var n := DigitPrefix(body, radix);
    if n == 0 then None else Some(ValueOf(body[..n], radix))
  }

  /**
   * `parseInt(s)` with no radix: skip leading white space, take an optional
   * sign, then read an unsigned numeral; `None` stands for NaN. A negative
   * zero is reported as 0, which is what every caller here observes of it
   * (both are falsy).
   */
  function ParseInt(s: string): Option<int> {
    var t := TrimStart(s);
    var signed := |t| > 0 && (t[0] == '-' || t[0] == '+');
    var negative := signed && t[0] == '-';
    match ParseUnsigned(if signed then t[1..] else t)
    case None => None
    case Some(v) =>
      var n: int := if negative then -(v as int) else v;
      Some(n)
  }

  function DigitChar(d: nat): (c: char)
    requires d < 10
    ensures DigitVal(c, 10) == d
  {
    (('0' as int) + d) as char
  }

  /** `n.toString()` for a non-negative integer. */
  function ToDecimal(n: nat): (s: string)
    ensures |s| > 0
    ensures forall i :: 0 <= i < |s| ==> '0' <= s[i] <= '9'
  {
    if n < 10 then [DigitChar(n)] else ToDecimal(n / 10) + [DigitChar(n % 10)]
  }

  lemma {:induction false} ValueOfDecimal(n: nat)
    ensures forall i :: 0 <= i < |ToDecimal(n)| ==> IsDigit(ToDecimal(n)[i], 10)
    ensures ValueOf(ToDecimal(n), 10) == n
  {
    var s := ToDecimal(n);
    if n >= 10 {
      ValueOfDecimal(n / 10);
      assert s[..|s| - 1] == ToDecimal(n / 10);
    }
  }

  lemma ParseUnsignedNumeral(s: string)
    requires |s| > 0
    requires forall i :: 0 <= i < |s| ==> '0' <= s[i] <= '9'
    ensures forall i :: 0 <= i < |s| ==> IsDigit(s[i], 10)
    ensures ParseUnsigned(s) == Some(ValueOf(s, 10))
  {
    assert !(|s| >= 2 && (s[1] == 'x' || s[1] == 'X'));
    DigitPrefixAll(s, 10);
    assert s[..|s|] == s;
  }

  /** `parseInt` of a plain decimal numeral is its positional value. */
  lemma ParseIntOfNumeral(s: string)
    requires |s| > 0
    requires forall i :: 0 <= i < |s| ==> '0' <= s[i] <= '9'
    ensures forall i :: 0 <= i < |s| ==> IsDigit(s[i], 10)
    ensures ParseInt(s) == Some(ValueOf(s, 10))
  {
    assert !IsWhite(s[0]);
    assert TrimStart(s) == s;
    ParseUnsignedNumeral(s);
  }

  /** `parseInt` reads back what `toString` wrote: the two are inverse on non-negative integers. */
  lemma ParseIntToDecimal(n: nat)
    ensures ParseInt(ToDecimal(n)) == Some(n)
  {
    ValueOfDecimal(n);
    ParseIntOfNumeral(ToDecimal(n));
  }

  /** A numeral has no white space to trim. */
  lemma TrimNumeral(s: string)
    requires |s| > 0
    requires forall i :: 0 <= i < |s| ==> '0' <= s[i] <= '9'
    ensures Trim(s) == s
  {
    assert !IsWhite(s[0]);
    assert TrimStart(s) == s;
    assert !IsWhite(s[|s| - 1]);
  }

  lemma {:induction false} DigitPrefixAll(s: string, radix: int)
    requires forall i :: 0 <= i < |s| ==> IsDigit(s[i], radix)
    ensures DigitPrefix(s, radix) == |s|
  {
    if |s| > 0 {
      DigitPrefixAll(s[1..], radix);
    }
  }
}
