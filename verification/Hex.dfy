/** The hexadecimal codec of src/hex.cc. */
module Hex {
  import opened Prelude

  const DIGITS: string := "0123456789abcdef"

  /** The largest `unsigned long` of an LP64 platform. */
  const ULONG_MAX: nat := 0xFFFF_FFFF_FFFF_FFFF

  predicate IsHexDigit(c: char) {
    '0' <= c <= '9' || 'a' <= c <= 'f' || 'A' <= c <= 'F'
  }

  predicate IsLowerHexDigit(c: char) {
    '0' <= c <= '9' || 'a' <= c <= 'f'
  }

  predicate IsHex(s: string) {
    forall i :: 0 <= i < |s| ==> IsHexDigit(s[i])
  }

  predicate IsLowerHex(s: string) {
    forall i :: 0 <= i < |s| ==> IsLowerHexDigit(s[i])
  }

  /** The lower-case digit of a value below 16. */
  function Digit(v: int): (c: char)
    requires 0 <= v < 16
    ensures IsLowerHexDigit(c) && DigitValue(c) == v
  {
    (if v < 10 then '0' as int + v else 'a' as int + v - 10) as char
  }

  /** The sixteen digits and their values, in either case. */
  lemma DigitTable(v: int)
    requires 0 <= v < 16
    ensures DIGITS[v] == Digit(v) == "0123456789abcdef"[v] && IsHexDigit("0123456789ABCDEF"[v])
    ensures DigitValue("0123456789abcdef"[v]) == v && DigitValue("0123456789ABCDEF"[v]) == v
  {
  }

  function DigitValue(c: char): (v: nat)
    requires IsHexDigit(c)
    ensures v < 16
  {
    if c <= '9' then c as int - '0' as int
    else if c <= 'F' then c as int - 'A' as int + 10
    else c as int - 'a' as int + 10
  }

  function ToLower(c: char): (l: char)
    requires IsHexDigit(c)
    ensures IsLowerHexDigit(l) && DigitValue(l) == DigitValue(c)
  {
    Digit(DigitValue(c))
  }

  /** The digit string of a byte string: two lower-case digits a byte, high half first. */
  function Encoded(data: seq<byte>): (s: string)
    ensures |s| == 2 * |data| && IsHex(s) && IsLowerHex(s)
  {
    if data == [] then ""
    else
      var last := data[|data| - 1] as int;
      Encoded(data[..|data| - 1]) + [Digit(last / 16), Digit(last % 16)]
  }

  /** `s` with a leading zero when its length is odd. */
  function Padded(s: string): (t: string)
    requires IsHex(s)
    ensures IsHex(t) && |t| % 2 == 0
    ensures |s| <= |t| <= |s| + 1
  {
    if |s| % 2 == 1 then "0" + s else s
  }

  /** The bytes of an even number of digits. */
  function Octets(t: string): (data: seq<byte>)
    requires IsHex(t) && |t| % 2 == 0
    ensures |data| == |t| / 2
  {
    if t == "" then []
    else Octets(t[..|t| - 2]) + [PairValue(t[|t| - 2], t[|t| - 1])]
  }

  /** The bytes that `Decode` must produce from a string of hex digits. */
  function Decoded(s: string): (data: seq<byte>)
    requires IsHex(s)
    ensures |data| == |Padded(s)| / 2
  {
    Octets(Padded(s))
  }

  function PairValue(high: char, low: char): byte
    requires IsHexDigit(high) && IsHexDigit(low)
  {
    (16 * DigitValue(high) + DigitValue(low)) as byte
  }

  /** The number a digit string denotes in base 16. */
  function Base16(s: string): nat
    requires IsHex(s)
  {
    if s == "" then 0 else 16 * Base16(s[..|s| - 1]) + DigitValue(s[|s| - 1])
  }

  /** The number a byte string denotes, most significant byte first. */
  function BigEndian(data: seq<byte>): nat {
    if data == [] then 0 else 256 * BigEndian(data[..|data| - 1]) + data[|data| - 1] as int
  }

  // ----- the loops of src/hex.cc -----

  method Encode(data: seq<byte>) returns (ret: string)
    ensures ret == Encoded(data)
  {
    ret := "";
    for i := 0 to |data|
      invariant ret == Encoded(data[..i])
    {
      var d := data[i] as int;
      assert data[..i + 1][..i] == data[..i];
      DigitTable(d / 16);
      DigitTable(d % 16);
      ret := ret + [DIGITS[d / 16]];
      ret := ret + [DIGITS[d % 16]];
    }
    assert data[..|data|] == data;
  }

  /** `strtoul` in base 16 on a string of digits: it saturates, and a range error left in `errno` by an
      earlier call is indistinguishable from one raised here. */
  method Atoul(str: string, staleRangeError: bool) returns (ok: bool, out: nat)
    requires IsHex(str)
    ensures ok <==> str != "" && (Base16(str) < 0xFFFF_FFFF_FFFF_FFFF ||
                                  (Base16(str) == 0xFFFF_FFFF_FFFF_FFFF && !staleRangeError))
    ensures ok ==> out == Base16(str)
  {
    if |str| == 0 {
      return false, 0;
    }
    var value := 0;
    var i := 0;
    while i < |str|
      invariant 0 <= i <= |str|
      invariant value == Base16(str[..i])
    {
      assert str[..i + 1][..i] == str[..i];
      value := 16 * value + DigitValue(str[i]);
      i := i + 1;
    }
    assert str[..|str|] == str;
    out := if value > ULONG_MAX then ULONG_MAX else value;
    var rangeError := value > ULONG_MAX || staleRangeError;
    ok := !(out == ULONG_MAX && rangeError);
  }

  /** One `atoul` call of `Decode` and the narrowing of its result to an octet. The ghost arguments say which
      octet of the padded string t the digits belong to. */
  method ReadOctet(digits: string, staleRangeError: bool, ghost t: string, ghost j: nat) returns (ok: bool, out: byte)
    requires IsHex(t) && |t| % 2 == 0 && 2 * j + 2 <= |t| && digits != ""
    requires digits == t[2 * j..2 * j + 2] || "0" + digits == t[2 * j..2 * j + 2]
    ensures ok && out == Octets(t)[j]
  {
    PairStep(t, j, digits);
    var value;
    ok, value := Atoul(digits, staleRangeError);
    out := (value % 256) as byte;
  }

  method Decode(hexString: string, staleRangeError: bool) returns (segment: seq<byte>)
    requires IsHex(hexString)
    ensures segment == Decoded(hexString)
  {
    segment := [];
    if |hexString| == 0 {
      return;
    }
    ghost var t, data := Padded(hexString), Decoded(hexString);
    ghost var pad := |t| - |hexString|;
    var i := 0;
    if |hexString| % 2 == 1 {
      var hexByte := hexString[..1];
      var ok, out := ReadOctet(hexByte, staleRangeError, t, 0);
      if !ok {
        return [];
      }
      segment := segment + [out];
      i := 1;
    }
    while i < |hexString|
      invariant 0 <= i <= |hexString| && i + pad == 2 * |segment|
      invariant segment == data[..|segment|]
    {
      var hexByte := hexString[i..i + 2];
      assert hexByte == t[i + pad..i + pad + 2];
      var ok, out := ReadOctet(hexByte, staleRangeError, t, |segment|);
      if !ok {
        return [];
      }
      segment := segment + [out];
      i := i + 2;
    }
  }

  /** The two digits of octet j, or the second one alone when the first is a padding zero. */
  lemma PairStep(t: string, j: nat, digits: string)
    requires IsHex(t) && |t| % 2 == 0 && 2 * j + 2 <= |t| && digits != ""
    requires digits == t[2 * j..2 * j + 2] || "0" + digits == t[2 * j..2 * j + 2]
    ensures IsHex(digits) && Base16(digits) < 256
    ensures Octets(t)[j] == Base16(digits) as byte
  {
    OctetAt(t, j);
    var pair := t[2 * j..2 * j + 2];
    PairBase16(pair);
    if digits != pair {
      assert digits == pair[1..];
      LeadingZero(digits);
    }
  }

  lemma {:induction false} OctetAt(t: string, j: nat)
    requires IsHex(t) && |t| % 2 == 0 && 2 * j + 2 <= |t|
    ensures Octets(t)[j] == PairValue(t[2 * j], t[2 * j + 1])
  {
    if 2 * j + 2 < |t| {
      OctetAt(t[..|t| - 2], j);
    }
  }

  lemma SingleBase16(s: string)
    requires IsHex(s) && |s| == 1
    ensures Base16(s) == DigitValue(s[0])
  {
    assert s[..0] == "";
  }

  lemma PairBase16(s: string)
    requires IsHex(s) && |s| == 2
    ensures Base16(s) == PairValue(s[0], s[1]) as int
  {
    SingleBase16(s[..1]);
  }

  // ----- laws -----

  lemma {:induction false} DecodeEncode(data: seq<byte>)
    ensures Decoded(Encoded(data)) == data
  {
    if data != [] {
      var front := data[..|data| - 1];
      DecodeEncode(front);
      var s := Encoded(data);
      assert s[..|s| - 2] == Encoded(front);
    }
  }

  lemma EncodeInjective(a: seq<byte>, b: seq<byte>)
    requires Encoded(a) == Encoded(b)
    ensures a == b
  {
    DecodeEncode(a);
    DecodeEncode(b);
  }

  lemma PairRoundTrip(high: char, low: char)
    requires IsHexDigit(high) && IsHexDigit(low)
    ensures Digit(PairValue(high, low) as int / 16) == ToLower(high)
    ensures Digit(PairValue(high, low) as int % 16) == ToLower(low)
  {
  }

  function LowerCase(s: string): (l: string)
    requires IsHex(s)
    ensures |l| == |s|
  {
    seq(|s|, k requires 0 <= k < |s| => ToLower(s[k]))
  }

  lemma LowerCaseTwo(t: string)
    requires IsHex(t) && |t| >= 2
    ensures LowerCase(t) == LowerCase(t[..|t| - 2]) + [ToLower(t[|t| - 2]), ToLower(t[|t| - 1])]
  {
  }

  lemma LowerCaseFixed(s: string)
    requires IsLowerHex(s)
    ensures IsHex(s) && LowerCase(s) == s
  {
    forall k | 0 <= k < |s| ensures ToLower(s[k]) == s[k] {
    }
  }

  lemma {:induction false} EncodeOctets(t: string)
    requires IsHex(t) && |t| % 2 == 0
    ensures Encoded(Octets(t)) == LowerCase(t)
  {
    if t != "" {
      var front := t[..|t| - 2];
      EncodeOctets(front);
      PairRoundTrip(t[|t| - 2], t[|t| - 1]);
      LowerCaseTwo(t);
      var d := Octets(t);
      assert d[..|d| - 1] == Octets(front);
    }
  }

  /** Re-encoding a decoded string gives its lower-case form, zero-padded to even length. */
  lemma EncodeDecode(s: string)
    requires IsHex(s)
    ensures Encoded(Decoded(s)) == LowerCase(Padded(s))
  {
    EncodeOctets(Padded(s));
  }

  /** On strings that are already lower-case and of even length, encoding undoes decoding. */
  lemma EncodeDecodeLower(s: string)
    requires IsLowerHex(s) && |s| % 2 == 0
    ensures IsHex(s) && Encoded(Decoded(s)) == s
  {
    LowerCaseFixed(s);
    EncodeDecode(s);
  }

  lemma {:induction false} OctetsNumber(t: string)
    requires IsHex(t) && |t| % 2 == 0
    ensures BigEndian(Octets(t)) == Base16(t)
  {
    if t != "" {
      var u := t[..|t| - 2];
      OctetsNumber(u);
      var d := Octets(t);
      assert d[..|d| - 1] == Octets(u);
      assert t[..|t| - 1][..|t| - 2] == u;
    }
  }

  lemma {:induction false} LeadingZero(s: string)
    requires IsHex(s)
    ensures IsHex("0" + s) && Base16("0" + s) == Base16(s)
  {
    if s == "" {
      assert ("0" + s)[..0] == "";
    } else {
      LeadingZero(s[..|s| - 1]);
      assert ("0" + s)[..|s|] == "0" + s[..|s| - 1];
    }
  }

  /** The decoded bytes, read big-endian, are the number that the digits denote. */
  lemma DecodedNumber(s: string)
    requires IsHex(s)
    ensures BigEndian(Decoded(s)) == Base16(s)
  {
    OctetsNumber(Padded(s));
    LeadingZero(s);
  }
}
