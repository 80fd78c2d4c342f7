/**
  The UTF-8 validator for secret key bytes
  (Sources/GreenBubblesHistory/HistoryDirectQueryClient.swift, `isValidUTF8`),
  against the encoding of sections 3 and 4 of RFC 3629.
 */
module Utf8 {
  import opened Volume

  /** Unicode scalar values: code points without surrogates. */
  predicate IsScalar(v: int) {
    0 <= v <= 0x10FFFF && !(0xD800 <= v <= 0xDFFF)
  }

  type Scalar = v: int | 0 <= v <= 0x10FFFF && !(0xD800 <= v <= 0xDFFF)

  function Octet(mark: int, bits: int): (b: Byte)
    requires 0 <= mark && 0 <= bits && mark + bits < 256
  {
    mark + bits
  }

  /** What an octet carries beyond its mark. */
  function Bits(b: Byte, mark: int): int {
    (b as int) - mark
  }

  /** The octets of one scalar value (RFC 3629, section 3). */
  function Encode(v: Scalar): (bytes: seq<Byte>)
    ensures 1 <= |bytes| <= 4
  {
    var a, b, c := v / 64, v / 64 / 64, v / 64 / 64 / 64;
    if v <= 0x7F then [Octet(0, v)]
    else if v <= 0x7FF then [Octet(0xC0, a), Octet(0x80, v % 64)]
    else if v <= 0xFFFF then [Octet(0xE0, b), Octet(0x80, a % 64), Octet(0x80, v % 64)]
    else [Octet(0xF0, c), Octet(0x80, b % 64), Octet(0x80, a % 64), Octet(0x80, v % 64)]
  }

  /** How many octets, and which value they carry (the table of RFC 3629, section 3). */
  lemma EncodeMeans(v: Scalar)
    ensures |Encode(v)| == 1 <==> v <= 0x7F
    ensures |Encode(v)| == 2 <==> 0x80 <= v <= 0x7FF
    ensures |Encode(v)| == 3 <==> 0x800 <= v <= 0xFFFF
    ensures |Encode(v)| == 4 <==> 0x10000 <= v
    ensures forall i :: 1 <= i < |Encode(v)| ==> 0x80 <= Encode(v)[i] < 0xC0
    ensures |Encode(v)| == 1 ==> Encode(v) == [v]
    ensures |Encode(v)| == 2 ==>
      0xC0 <= Encode(v)[0] < 0xE0 && v == Bits(Encode(v)[0], 0xC0) * 64 + Bits(Encode(v)[1], 0x80)
    ensures |Encode(v)| == 3 ==>
      0xE0 <= Encode(v)[0] < 0xF0
      && v == Bits(Encode(v)[0], 0xE0) * 4096 + Bits(Encode(v)[1], 0x80) * 64 + Bits(Encode(v)[2], 0x80)
    ensures |Encode(v)| == 4 ==>
      0xF0 <= Encode(v)[0] < 0xF8
      && v == Bits(Encode(v)[0], 0xF0) * 262144 + Bits(Encode(v)[1], 0x80) * 4096 + Bits(Encode(v)[2], 0x80) * 64
              + Bits(Encode(v)[3], 0x80)
  {
    var a, b := v / 64, v / 64 / 64;
    assert v == a * 64 + v % 64 && a == b * 64 + a % 64 && b == b / 64 * 64 + b % 64;
  }

  function EncodeAll(scalars: seq<Scalar>): seq<Byte> {
    if scalars == [] then [] else Encode(scalars[0]) + EncodeAll(scalars[1..])
  }

  // ----- decoding -----

  predicate Continuation(b: Byte) {
    0x80 <= b <= 0xBF
  }

  /** The length the validator's switch accepts at the start of `bytes`, or 0 to reject. */
  function Step(bytes: seq<Byte>): nat
    requires bytes != []
  {
    var b := bytes[0];
    if b <= 0x7F then 1
    else if 0xC2 <= b <= 0xDF then
      if 1 < |bytes| && Continuation(bytes[1]) then 2 else 0
    else if b == 0xE0 then
      if 2 < |bytes| && 0xA0 <= bytes[1] <= 0xBF && Continuation(bytes[2]) then 3 else 0
    else if 0xE1 <= b <= 0xEC || 0xEE <= b <= 0xEF then
      if 2 < |bytes| && Continuation(bytes[1]) && Continuation(bytes[2]) then 3 else 0
    else if b == 0xED then
      if 2 < |bytes| && 0x80 <= bytes[1] <= 0x9F && Continuation(bytes[2]) then 3 else 0
    else if b == 0xF0 then
      if 3 < |bytes| && 0x90 <= bytes[1] <= 0xBF && Continuation(bytes[2]) && Continuation(bytes[3]) then 4 else 0
    else if 0xF1 <= b <= 0xF3 then
      if 3 < |bytes| && Continuation(bytes[1]) && Continuation(bytes[2]) && Continuation(bytes[3]) then 4 else 0
    else if b == 0xF4 then
      if 3 < |bytes| && 0x80 <= bytes[1] <= 0x8F && Continuation(bytes[2]) && Continuation(bytes[3]) then 4 else 0
    else 0
  }

  /** The scalar value the accepted octets encode. */
  function Decode(bytes: seq<Byte>): int
    requires bytes != [] && Step(bytes) != 0
  {
    match Step(bytes)
    case 1 => bytes[0]
    case 2 => Bits(bytes[0], 0xC0) * 64 + Bits(bytes[1], 0x80)
    case 3 => (Bits(bytes[0], 0xE0) * 64 + Bits(bytes[1], 0x80)) * 64 + Bits(bytes[2], 0x80)
    case _ => ((Bits(bytes[0], 0xF0) * 64 + Bits(bytes[1], 0x80)) * 64 + Bits(bytes[2], 0x80)) * 64 + Bits(bytes[3],
        0x80)
  }

  lemma DigitsOf(q: int, r: int)
    requires 0 <= r < 64
    ensures (q * 64 + r) / 64 == q && (q * 64 + r) % 64 == r
  {
  }

  lemma TwoAreEncoding(bytes: seq<Byte>)
    requires bytes != [] && Step(bytes) == 2
    ensures IsScalar(Decode(bytes)) && Encode(Decode(bytes)) == bytes[..2]
  {
    DigitsOf(Bits(bytes[0], 0xC0), Bits(bytes[1], 0x80));
  }

  lemma ThreeAreEncoding(bytes: seq<Byte>)
    requires bytes != [] && Step(bytes) == 3
    ensures IsScalar(Decode(bytes)) && Encode(Decode(bytes)) == bytes[..3]
  {
    DigitsOf(Bits(bytes[0], 0xE0), Bits(bytes[1], 0x80));
    DigitsOf(Bits(bytes[0], 0xE0) * 64 + Bits(bytes[1], 0x80), Bits(bytes[2], 0x80));
  }

  lemma FourAreEncoding(bytes: seq<Byte>)
    requires bytes != [] && Step(bytes) == 4
    ensures IsScalar(Decode(bytes)) && Encode(Decode(bytes)) == bytes[..4]
  {
    var top := Bits(bytes[0], 0xF0) * 64 + Bits(bytes[1], 0x80);
    DigitsOf(Bits(bytes[0], 0xF0), Bits(bytes[1], 0x80));
    DigitsOf(top, Bits(bytes[2], 0x80));
    DigitsOf(top * 64 + Bits(bytes[2], 0x80), Bits(bytes[3], 0x80));
  }

  /** What the validator accepts is the encoding of a scalar value. */
  lemma AcceptedIsEncoding(bytes: seq<Byte>)
    requires bytes != [] && Step(bytes) != 0
    ensures IsScalar(Decode(bytes)) && Encode(Decode(bytes)) == bytes[..Step(bytes)]
  {
    if Step(bytes) == 2 {
      TwoAreEncoding(bytes);
    } else if Step(bytes) == 3 {
      ThreeAreEncoding(bytes);
    } else if Step(bytes) == 4 {
      FourAreEncoding(bytes);
    }
  }

  /** Every scalar value's encoding is accepted, whatever follows it, at its own length. */
  lemma EncodingIsAccepted(v: Scalar, rest: seq<Byte>)
    ensures Step(Encode(v) + rest) == |Encode(v)| && Decode(Encode(v) + rest) == v
  {
    var code := Encode(v);
    var bytes := code + rest;
    assert bytes[0] == code[0];
    assert 1 < |code| ==> bytes[1] == code[1];
    assert 2 < |code| ==> bytes[2] == code[2];
    assert 3 < |code| ==> bytes[3] == code[3];
    var a, b := v / 64, v / 64 / 64;
    assert v == a * 64 + v % 64 && a == b * 64 + a % 64 && b == b / 64 * 64 + b % 64;
  }

  // ----- whole byte strings -----

  ghost predicate IsEncoding(bytes: seq<Byte>) {
    exists scalars :: EncodeAll(scalars) == bytes
  }

  lemma EncodingStep(bytes: seq<Byte>)
    requires bytes != []
    ensures Step(bytes) != 0 ==> (IsEncoding(bytes) <==> IsEncoding(bytes[Step(bytes)..]))
    ensures Step(bytes) == 0 ==> !IsEncoding(bytes)
  {
    if IsEncoding(bytes) {
      var scalars :| EncodeAll(scalars) == bytes;
      EncodingIsAccepted(scalars[0], EncodeAll(scalars[1..]));
      assert bytes[Step(bytes)..] == EncodeAll(scalars[1..]);
    }
    if Step(bytes) != 0 && IsEncoding(bytes[Step(bytes)..]) {
      AcceptedIsEncoding(bytes);
      var scalars :| EncodeAll(scalars) == bytes[Step(bytes)..];
      var all := [Decode(bytes) as Scalar] + scalars;
      assert all[1..] == scalars;
      assert EncodeAll(all) == bytes[..Step(bytes)] + bytes[Step(bytes)..] == bytes;
    }
  }

  /** The examples of RFC 3629, section 7, and octets that sections 3 and 4 rule out wherever they stand. */
  lemma RuledOut(rest: seq<Byte>)
    ensures Encode(0x41) + Encode(0x2262) + Encode(0x391) + Encode(0x2E) == [0x41, 0xE2, 0x89, 0xA2, 0xCE, 0x91, 0x2E]
    ensures Encode(0xD55C) == [0xED, 0x95, 0x9C] && Encode(0x233B4) == [0xF0, 0xA3, 0x8E, 0xB4]
    ensures !IsEncoding([0xC0, 0x80] + rest) && !IsEncoding([0xE0, 0x80, 0x80] + rest)
    ensures !IsEncoding([0xED, 0xA0, 0x80] + rest) && !IsEncoding([0xED, 0xBF, 0xBF] + rest)
    ensures !IsEncoding([0xF4, 0x90, 0x80, 0x80] + rest) && !IsEncoding([0xFF] + rest) && !IsEncoding([0x80] + rest)
  {
    EncodingStep([0xC0, 0x80] + rest);
    EncodingStep([0xE0, 0x80, 0x80] + rest);
    EncodingStep([0xED, 0xA0, 0x80] + rest);
    EncodingStep([0xED, 0xBF, 0xBF] + rest);
    EncodingStep([0xF4, 0x90, 0x80, 0x80] + rest);
    EncodingStep([0xFF] + rest);
    EncodingStep([0x80] + rest);
  }

  /** No byte string encodes two different texts. */
  lemma {:induction false} EncodingIsInjective(a: seq<Scalar>, b: seq<Scalar>)
    requires EncodeAll(a) == EncodeAll(b)
    ensures a == b
  {
    if a != [] && b != [] {
      EncodingIsAccepted(a[0], EncodeAll(a[1..]));
      EncodingIsAccepted(b[0], EncodeAll(b[1..]));
      assert EncodeAll(a)[|Encode(a[0])|..] == EncodeAll(a[1..]);
      assert EncodeAll(b)[|Encode(b[0])|..] == EncodeAll(b[1..]);
      EncodingIsInjective(a[1..], b[1..]);
    }
  }

  /** True exactly for the encodings of texts; such a text is unique. */
  method IsValidUTF8(bytes: array<Byte>) returns (valid: bool)
    ensures valid <==> IsEncoding(bytes[..])
  {
    var index, count := 0, bytes.Length;
    assert bytes[0..] == bytes[..];
    while index < count
      invariant 0 <= index <= count
      invariant IsEncoding(bytes[..]) <==> IsEncoding(bytes[index..])
    {
      ghost var rest := bytes[index..];
      EncodingStep(rest);
      var b := bytes[index];
      var length := 0;
      if b <= 0x7F {
        length := 1;
      } else if 0xC2 <= b <= 0xDF {
        if !(index + 1 < count && Continuation(bytes[index + 1])) {
          return false;
        }
        length := 2;
      } else if b == 0xE0 {
        if !(index + 2 < count && 0xA0 <= bytes[index + 1] <= 0xBF && Continuation(bytes[index + 2])) {
          return false;
        }
        length := 3;
      } else if 0xE1 <= b <= 0xEC || 0xEE <= b <= 0xEF {
        if !(index + 2 < count && Continuation(bytes[index + 1]) && Continuation(bytes[index + 2])) {
          return false;
        }
        length := 3;
      } else if b == 0xED {
        if !(index + 2 < count && 0x80 <= bytes[index + 1] <= 0x9F && Continuation(bytes[index + 2])) {
          return false;
        }
        length := 3;
      } else if b == 0xF0 {
        if !(index + 3 < count && 0x90 <= bytes[index + 1] <= 0xBF
             && Continuation(bytes[index + 2]) && Continuation(bytes[index + 3])) {
          return false;
        }
        length := 4;
      } else if 0xF1 <= b <= 0xF3 {
        if !(index + 3 < count && Continuation(bytes[index + 1])
             && Continuation(bytes[index + 2]) && Continuation(bytes[index + 3])) {
          return false;
        }
        length := 4;
      } else if b == 0xF4 {
        if !(index + 3 < count && 0x80 <= bytes[index + 1] <= 0x8F
             && Continuation(bytes[index + 2]) && Continuation(bytes[index + 3])) {
          return false;
        }
        length := 4;
      } else {
        return false;
      }
      assert length == Step(rest) && rest[length..] == bytes[index + length..];
      index := index + length;
    }
    assert bytes[index..] == [] == EncodeAll([]);
    return true;
  }
}
