/** UTF-8 as section 3 of RFC 3629 defines it, over the UTF-16 strings of the host language: the
    encoder refuses lone surrogates, the decoder refuses everything that is not well formed. */
module Utf8 {
  import opened Common

  type Unit = u: int | 0 <= u < 0x1_0000

  predicate IsSurrogate(c: int) {
    0xD800 <= c < 0xE000
  }

  predicate IsHigh(c: int) {
    0xD800 <= c < 0xDC00
  }

  predicate IsLow(c: int) {
    0xDC00 <= c < 0xE000
  }

  /** A Unicode scalar value: a code point that is not a surrogate. */
  type Scalar = c: int | 0 <= c < 0x11_0000 && !IsSurrogate(c)

  // ----- UTF-16 -----

  function ToUnits(c: Scalar): (units: seq<Unit>)
    ensures 1 <= |units| <= 2
  {
    if c < 0x1_0000 then [c]
    else [0xD800 + (c - 0x1_0000) / 0x400, 0xDC00 + (c - 0x1_0000) % 0x400]
  }

  /** The first scalar of a UTF-16 string, or None at a lone surrogate. */
  function FirstOfUnits(s: seq<Unit>): (c: Option<Scalar>)
    requires s != []
  {
    if !IsSurrogate(s[0]) then Some(s[0])
    else if IsHigh(s[0]) && |s| > 1 && IsLow(s[1])
    then Some(0x1_0000 + (s[0] as int - 0xD800) * 0x400 + (s[1] as int - 0xDC00))
    else None
  }

  lemma FirstOfUnitsPrefix(s: seq<Unit>)
    requires s != [] && FirstOfUnits(s).Some?
    ensures ToUnits(FirstOfUnits(s).value) <= s
  {
    var c := FirstOfUnits(s).value;
    if c >= 0x1_0000 {
      PairOfUnits(s[0] as int - 0xD800, s[1] as int - 0xDC00);
    }
  }

  lemma PairOfUnits(high: nat, low: nat)
    requires low < 0x400
    ensures (high * 0x400 + low) / 0x400 == high && (high * 0x400 + low) % 0x400 == low
  {
  }

  // ----- UTF-8 -----

  function EncodeScalar(c: Scalar): (bytes: seq<Byte>)
    ensures 1 <= |bytes| <= 4
  {
    if c < 0x80 then [c]
    else if c < 0x800 then [0xC0 + c / 0x40, 0x80 + c % 0x40]
    else if c < 0x1_0000 then [0xE0 + c / 0x1000, 0x80 + c / 0x40 % 0x40, 0x80 + c % 0x40]
    else [0xF0 + c / 0x4_0000, 0x80 + c / 0x1000 % 0x40, 0x80 + c / 0x40 % 0x40, 0x80 + c % 0x40]
  }

  predicate IsTail(b: Byte) {
    0x80 <= b < 0xC0
  }

  function Checked(c: int, least: nat): Option<Scalar> {
    if least <= c < 0x11_0000 && !IsSurrogate(c) then (var scalar: Scalar := c; Some(scalar)) else None
  }

  /** The first scalar of a byte sequence, or None when it starts with no well-formed one: a stray
      tail byte, a sequence cut short, a longer form than needed, a surrogate, a value too large. */
  function FirstOfBytes(b: seq<Byte>): Option<Scalar>
    requires b != []
  {
    if b[0] < 0x80 then Some(b[0])
    else if 0xC0 <= b[0] < 0xE0 && |b| > 1 && IsTail(b[1])
    then Checked((b[0] as int - 0xC0) * 0x40 + (b[1] as int - 0x80), 0x80)
    else if 0xE0 <= b[0] < 0xF0 && |b| > 2 && IsTail(b[1]) && IsTail(b[2])
    then Checked((b[0] as int - 0xE0) * 0x1000 + (b[1] as int - 0x80) * 0x40 + (b[2] as int - 0x80), 0x800)
    else if 0xF0 <= b[0] < 0xF8 && |b| > 3 && IsTail(b[1]) && IsTail(b[2]) && IsTail(b[3])
    then Checked((b[0] as int - 0xF0) * 0x4_0000 + (b[1] as int - 0x80) * 0x1000 + (b[2] as int - 0x80) * 0x40
                 + (b[3] as int - 0x80), 0x1_0000)
    else None
  }

  lemma ThreeDigits(a: nat, b: nat, c: nat)
    requires b < 0x40 && c < 0x40
    ensures var n := a * 0x1000 + b * 0x40 + c;
            n / 0x1000 == a && n / 0x40 % 0x40 == b && n % 0x40 == c
  {
    var n := a * 0x1000 + b * 0x40 + c;
    assert n / 0x40 == a * 0x40 + b;
  }

  lemma FourDigits(a: nat, b: nat, c: nat, d: nat)
    requires b < 0x40 && c < 0x40 && d < 0x40
    ensures var n := a * 0x4_0000 + b * 0x1000 + c * 0x40 + d;
            n / 0x4_0000 == a && n / 0x1000 % 0x40 == b && n / 0x40 % 0x40 == c && n % 0x40 == d
  {
    var n := a * 0x4_0000 + b * 0x1000 + c * 0x40 + d;
    assert n / 0x40 == a * 0x1000 + b * 0x40 + c;
    assert n / 0x1000 == a * 0x40 + b;
  }

  lemma Digits(c: nat)
    ensures c == c / 0x40 * 0x40 + c % 0x40
    ensures c == c / 0x1000 * 0x1000 + c / 0x40 % 0x40 * 0x40 + c % 0x40
    ensures c == c / 0x4_0000 * 0x4_0000 + c / 0x1000 % 0x40 * 0x1000 + c / 0x40 % 0x40 * 0x40 + c % 0x40
  {
    assert c / 0x1000 == c / 0x40 / 0x40 && c / 0x4_0000 == c / 0x1000 / 0x40;
  }

  /** What the encoder writes for a scalar is read back as that scalar, whatever follows. */
  lemma ScalarRoundTrip(c: Scalar, rest: seq<Byte>)
    ensures FirstOfBytes(EncodeScalar(c) + rest) == Some(c)
  {
    var e := EncodeScalar(c);
    var b := e + rest;
    Digits(c);
    assert b[0] == e[0];
    assert |e| > 1 ==> b[1] == e[1];
    assert |e| > 2 ==> b[2] == e[2];
    assert |e| > 3 ==> b[3] == e[3];
  }

  lemma FourBytesCanonical(b: seq<Byte>)
    requires |b| > 3 && 0xF0 <= b[0] && FirstOfBytes(b).Some?
    ensures EncodeScalar(FirstOfBytes(b).value) == b[..4]
  {
    FourDigits(b[0] as int - 0xF0, b[1] as int - 0x80, b[2] as int - 0x80, b[3] as int - 0x80);
  }

  lemma ThreeBytesCanonical(b: seq<Byte>)
    requires |b| > 2 && 0xE0 <= b[0] < 0xF0 && FirstOfBytes(b).Some?
    ensures EncodeScalar(FirstOfBytes(b).value) == b[..3]
  {
    ThreeDigits(b[0] as int - 0xE0, b[1] as int - 0x80, b[2] as int - 0x80);
  }

  /** What the decoder accepts as a scalar is what the encoder writes for it. */
  lemma ScalarCanonical(b: seq<Byte>)
    requires b != [] && FirstOfBytes(b).Some?
    ensures EncodeScalar(FirstOfBytes(b).value) <= b
  {
    if 0xE0 <= b[0] < 0xF0 {
      ThreeBytesCanonical(b);
    } else if 0xF0 <= b[0] {
      FourBytesCanonical(b);
    }
  }

  /** The number a byte's bits make once its marker is taken off. */
  function Bits(b: Byte, marker: int): int {
    b as int - marker
  }

  /** The table of section 3 of RFC 3629: how many bytes, which lead byte, tail bytes of six bits each,
      and the scalar as the number those bits make. */
  lemma ScalarLayout(c: Scalar)
    ensures c <= 0x7F ==> EncodeScalar(c) == [c]
    ensures 0x80 <= c <= 0x7FF ==>
              var e := EncodeScalar(c);
              |e| == 2 && 0xC2 <= e[0] <= 0xDF && c == Bits(e[0], 0xC0) * 64 + Bits(e[1], 0x80)
    ensures 0x800 <= c <= 0xFFFF ==>
              var e := EncodeScalar(c);
              && |e| == 3 && 0xE0 <= e[0] <= 0xEF
              && c == Bits(e[0], 0xE0) * 4096 + Bits(e[1], 0x80) * 64 + Bits(e[2], 0x80)
    ensures 0x1_0000 <= c ==>
              var e := EncodeScalar(c);
              && |e| == 4 && 0xF0 <= e[0] <= 0xF4
              && c == Bits(e[0], 0xF0) * 262144 + Bits(e[1], 0x80) * 4096 + Bits(e[2], 0x80) * 64 + Bits(e[3], 0x80)
    ensures forall i :: 1 <= i < |EncodeScalar(c)| ==> 0x80 <= EncodeScalar(c)[i] <= 0xBF
  {
    Digits(c);
  }

  /** Characters from the examples of section 7 of RFC 3629, the last as the pair of units the host
      stores for it. */
  lemma ScalarExamples()
    ensures EncodeScalar(0x2262) == [0xE2, 0x89, 0xA2] && EncodeScalar(0x391) == [0xCE, 0x91]
    ensures EncodeScalar(0xD55C) == [0xED, 0x95, 0x9C] && EncodeScalar(0x233B4) == [0xF0, 0xA3, 0x8E, 0xB4]
    ensures ToUnits(0x233B4) == [0xD84C, 0xDFB4]
  {
  }

  // ----- Strings -----

  function Encode(s: seq<Unit>): Option<seq<Byte>>
    decreases |s|
  {
    if s == [] then Some([])
    else match FirstOfUnits(s)
      case None => None
      case Some(c) =>
        FirstOfUnitsPrefix(s);
        match Encode(s[|ToUnits(c)|..])
        case None => None
        case Some(rest) => Some(EncodeScalar(c) + rest)
  }

  function Decode(b: seq<Byte>): Option<seq<Unit>>
    decreases |b|
  {
    if b == [] then Some([])
    else match FirstOfBytes(b)
      case None => None
      case Some(c) =>
        ScalarCanonical(b);
        match Decode(b[|EncodeScalar(c)|..])
        case None => None
        case Some(rest) => Some(ToUnits(c) + rest)
  }

  /** Three bytes per UTF-16 unit are always enough. */
  lemma {:induction false} ThreeBytesPerUnit(s: seq<Unit>)
    requires Encode(s).Some?
    ensures |Encode(s).value| <= 3 * |s|
    decreases |s|
  {
    if s != [] {
      FirstOfUnitsPrefix(s);
      ThreeBytesPerUnit(s[|ToUnits(FirstOfUnits(s).value)|..]);
    }
  }

  /** Decoding what was encoded gives the string back. */
  lemma {:induction false} DecodeEncode(s: seq<Unit>)
    requires Encode(s).Some?
    ensures Decode(Encode(s).value) == Some(s)
    decreases |s|
  {
    hide EncodeScalar, FirstOfBytes, FirstOfUnits, ToUnits;
    if s != [] {
      var c := FirstOfUnits(s).value;
      FirstOfUnitsPrefix(s);
      var tail := s[|ToUnits(c)|..];
      var rest := Encode(tail).value;
      DecodeEncode(tail);
      ScalarRoundTrip(c, rest);
      assert (EncodeScalar(c) + rest)[|EncodeScalar(c)|..] == rest;
      assert ToUnits(c) + tail == s;
    }
  }

  lemma UnitsRoundTrip(c: Scalar, rest: seq<Unit>)
    ensures FirstOfUnits(ToUnits(c) + rest) == Some(c)
  {
    var s := ToUnits(c) + rest;
    assert s[0] == ToUnits(c)[0];
    if c >= 0x1_0000 {
      assert s[1] == ToUnits(c)[1];
    }
  }

  /** And encoding what was decoded gives the bytes back: no string has two encodings. */
  lemma {:induction false} EncodeDecode(b: seq<Byte>)
    requires Decode(b).Some?
    ensures Encode(Decode(b).value) == Some(b)
    decreases |b|
  {
    hide EncodeScalar, FirstOfBytes, FirstOfUnits, ToUnits;
    if b != [] {
      var c := FirstOfBytes(b).value;
      ScalarCanonical(b);
      var tail := b[|EncodeScalar(c)|..];
      var rest := Decode(tail).value;
      EncodeDecode(tail);
      UnitsRoundTrip(c, rest);
      assert (ToUnits(c) + rest)[|ToUnits(c)|..] == rest;
      assert EncodeScalar(c) + tail == b;
    }
  }
}
