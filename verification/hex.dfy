/**
 * `buffer.toString('hex')` and `.toUpperCase()` on it: the base16 encoding of
 * section 8 of RFC 4648, two characters per byte, high nibble first. Node
 * writes the lower-case alphabet; the verification codes upper-case it, which
 * yields exactly the RFC's alphabet.
 */
module Hex {
  import opened Wrappers

  type Byte = b: int | 0 <= b < 256

  /** What `crypto.randomBytes(3)` delivers: exactly three bytes. */
  type Random3 = s: seq<Byte> | |s| == 3 witness [0, 0, 0]

  /** The digit of value `d` in Node's lower-case alphabet "0123456789abcdef". */
  function LowerDigit(d: nat): (c: char)
    requires d < 16
  {
    if d < 10 then ('0' as int + d) as char else ('a' as int + d - 10) as char
  }

  predicate IsLowerHex(s: string) {
    forall i :: 0 <= i < |s| ==> '0' <= s[i] <= '9' || 'a' <= s[i] <= 'f'
  }

  /** Every character is in the RFC 4648 base16 alphabet "0123456789ABCDEF". */
  predicate IsUpperHex(s: string) {
    forall i :: 0 <= i < |s| ==> '0' <= s[i] <= '9' || 'A' <= s[i] <= 'F'
  }

  /** `toString('hex')`. */
  function Encode(bs: seq<Byte>): (s: string)
    ensures |s| == 2 * |bs|
    ensures IsLowerHex(s)
  {
    if |bs| == 0 then ""
    else [LowerDigit(bs[0] / 16), LowerDigit(bs[0] % 16)] + Encode(bs[1..])
  }

  /** `String.prototype.toUpperCase`, restricted to the Basic Latin letters. */
  function ToUpper(s: string): (r: string)
    ensures |r| == |s|
    ensures forall i :: 0 <= i < |s| ==> r[i] == (if 'a' <= s[i] <= 'z' then (s[i] as int - 32) as char else s[i])
  {
    if |s| == 0 then ""
    else [if 'a' <= s[0] <= 'z' then (s[0] as int - 32) as char else s[0]] + ToUpper(s[1..])
  }

  /** Value of one hexadecimal digit of either case. */
  function DigitValue(c: char): (r: Option<nat>)
    ensures r.Some? ==> r.value < 16
  {
    if '0' <= c <= '9' then Some(c as int - '0' as int)
    else if 'a' <= c <= 'f' then Some(c as int - 'a' as int + 10)
    else if 'A' <= c <= 'F' then Some(c as int - 'A' as int + 10)
    else None
  }

  /** The base16 decoder of section 8 of RFC 4648, accepting either case. */
  function Decode(s: string): Option<seq<Byte>> {
    if |s| < 2 then (if |s| == 0 then Some([]) else None)
    else
      var hi := DigitValue(s[0]);
      var lo := DigitValue(s[1]);
      if hi.None? || lo.None? then None
      else
        match Decode(s[2..])
        case None => None
        case Some(rest) => Some([hi.value * 16 + lo.value] + rest)
  }

  /** One step of the decoder: a valid digit pair in front of a decodable rest. */
  lemma DecodeStep(s: string, h: nat, l: nat, rest: seq<Byte>)
    requires |s| >= 2 && h < 16 && l < 16
    requires DigitValue(s[0]) == Some(h) && DigitValue(s[1]) == Some(l)
    requires Decode(s[2..]) == Some(rest)
    ensures Decode(s) == Some([h * 16 + l] + rest)
  {
  }

  lemma DigitOfLower(d: nat)
    requires d < 16
    ensures DigitValue(LowerDigit(d)) == Some(d)
    ensures DigitValue(ToUpper([LowerDigit(d)])[0]) == Some(d)
  {
  }

  lemma SplitByte(b: Byte)
    ensures b / 16 < 16 && b % 16 < 16
    ensures (b / 16) * 16 + b % 16 == b
  {
  }

  lemma {:induction false} DecodeEncode(bs: seq<Byte>)
    ensures Decode(Encode(bs)) == Some(bs)
  {
    if |bs| > 0 {
      var s := Encode(bs);
      assert s[2..] == Encode(bs[1..]);
      var hi, lo := bs[0] / 16, bs[0] % 16;
      SplitByte(bs[0]);
      DigitOfLower(hi);
      DigitOfLower(lo);
      DecodeEncode(bs[1..]);
      DecodeStep(s, hi, lo, bs[1..]);
      var b0 := hi * 16 + lo;
      assert [b0] + bs[1..] == bs;
    }
  }

  /** Upper-casing a lower-case hex string keeps every digit's value. */
  lemma UpperKeepsDigits(e: string)
    requires IsLowerHex(e)
    ensures IsUpperHex(ToUpper(e))
    ensures forall i :: 0 <= i < |e| ==> DigitValue(ToUpper(e)[i]) == DigitValue(e[i])
  {
    var u := ToUpper(e);
    forall i | 0 <= i < |e|
      ensures ('0' <= u[i] <= '9' || 'A' <= u[i] <= 'F') && DigitValue(u[i]) == DigitValue(e[i])
    {
      UpperDigit(e[i]);
    }
  }

  /** One lower-case hex digit, upper-cased. */
  lemma UpperDigit(c: char)
    requires '0' <= c <= '9' || 'a' <= c <= 'f'
    ensures var u := if 'a' <= c <= 'z' then (c as int - 32) as char else c;
            ('0' <= u <= '9' || 'A' <= u <= 'F') && DigitValue(u) == DigitValue(c)
  {
  }

  /** The decoder only looks at digit values, so strings with equal digit values decode alike. */
  lemma {:induction false} DecodeByDigitValues(t: string, e: string)
    requires |t| == |e|
    requires forall i :: 0 <= i < |e| ==> DigitValue(t[i]) == DigitValue(e[i])
    ensures Decode(t) == Decode(e)
  {
    if |e| >= 2 {
      DecodeByDigitValues(t[2..], e[2..]);
    }
  }

  /** The upper-cased codes decode to the same bytes: case is immaterial to base16. */
  lemma DecodeUpperEncode(bs: seq<Byte>)
    ensures Decode(ToUpper(Encode(bs))) == Some(bs)
    ensures IsUpperHex(ToUpper(Encode(bs)))
  {
    UpperKeepsDigits(Encode(bs));
    DecodeByDigitValues(ToUpper(Encode(bs)), Encode(bs));
    DecodeEncode(bs);
  }

  /** Distinct byte strings never share an encoding, so a key identifies its bytes. */
  lemma EncodeInjective(a: seq<Byte>, b: seq<Byte>)
    requires Encode(a) == Encode(b)
    ensures a == b
  {
    DecodeEncode(a);
    DecodeEncode(b);
  }
}
