/** ECDSA signatures: from DER (a SEQUENCE of two INTEGERs, section 2.2.3 of RFC 3279; X.690 sections
    8.3 and 10.1) to the fixed-width form. */
module DerSignature {
  import opened Texts

  type Byte = b: int | 0 <= b < 0x100

  // ---- unsigned numbers as bytes ----

  function Pow256(k: nat): (r: nat)
    ensures r >= 1
  {
    if k == 0 then 1 else 0x100 * Pow256(k - 1)
  }

  /** Two to the 256th. */
  const LIMIT: nat := Pow256(32)

  predicate InRange(n: nat) {
    1 <= n < LIMIT
  }

  function Value(s: seq<Byte>): nat {
    if s == [] then 0 else Value(s[..|s| - 1]) * 0x100 + s[|s| - 1]
  }

  /** The shortest big-endian form; nothing for zero. */
  function Magnitude(n: nat): seq<Byte> {
    if n == 0 then [] else Magnitude(n / 0x100) + [n % 0x100]
  }

  function Zeros(k: nat): (r: seq<Byte>)
    ensures |r| == k
  {
    seq(k, _ => 0)
  }

  /** Exactly 32 bytes, zero-padded on the left. */
  function Fixed(n: nat): (r: seq<Byte>)
    requires |Magnitude(n)| <= 32
    ensures |r| == 32
  {
    Zeros(32 - |Magnitude(n)|) + Magnitude(n)
  }

  lemma {:induction false} MagnitudeValue(n: nat)
    ensures Value(Magnitude(n)) == n && (n > 0 ==> Magnitude(n) != [] && Magnitude(n)[0] != 0)
  {
    if n > 0 {
      MagnitudeValue(n / 0x100);
      assert Magnitude(n)[..|Magnitude(n)| - 1] == Magnitude(n / 0x100);
    }
  }

  lemma LastDigit(v: nat, d: Byte)
    ensures (v * 0x100 + d) / 0x100 == v && (v * 0x100 + d) % 0x100 == d
  {
  }

  lemma MagnitudeAppend(v: nat, d: Byte)
    requires v > 0 || d > 0
    ensures Magnitude(v * 0x100 + d) == Magnitude(v) + [d]
  {
    LastDigit(v, d);
  }

  lemma {:induction false} ValueMagnitude(s: seq<Byte>)
    requires s != [] ==> s[0] != 0
    ensures Magnitude(Value(s)) == s && (s != [] ==> Value(s) > 0)
  {
    if s != [] {
      var n := |s| - 1;
      ValueMagnitude(s[..n]);
      assert s == s[..n] + [s[n]];
      MagnitudeAppend(Value(s[..n]), s[n]);
    }
  }

  lemma {:induction false} MagnitudeLength(n: nat, k: nat)
    ensures |Magnitude(n)| <= k <==> n < Pow256(k)
  {
    if n > 0 {
      if k > 0 {
        MagnitudeLength(n / 0x100, k - 1);
      } else {
        assert Magnitude(n) == Magnitude(n / 0x100) + [n % 0x100];
      }
    }
  }

  lemma {:induction false} ZerosValue(k: nat, s: seq<Byte>)
    ensures Value(Zeros(k) + s) == Value(s)
    decreases |s| + k
  {
    if s == [] {
      if k > 0 {
        assert (Zeros(k) + s)[..k - 1] == Zeros(k - 1) + s;
        ZerosValue(k - 1, s);
      } else {
        assert Zeros(0) + s == s;
      }
    } else {
      assert (Zeros(k) + s)[..k + |s| - 1] == Zeros(k) + s[..|s| - 1];
      ZerosValue(k, s[..|s| - 1]);
    }
  }

  /** The fixed-width form keeps the number. */
  lemma FixedValue(n: nat)
    requires n < LIMIT
    ensures |Magnitude(n)| <= 32 && |Fixed(n)| == 32 && Value(Fixed(n)) == n
  {
    assert LIMIT == Pow256(32);
    hide Value, Magnitude, Pow256;
    MagnitudeLength(n, 32);
    MagnitudeValue(n);
    ZerosValue(32 - |Magnitude(n)|, Magnitude(n));
  }

  // ---- DER ----

  /** The contents of an INTEGER: two's complement, so a leading one bit needs a zero byte before it. */
  function Contents(n: nat): seq<Byte> {
    var m := Magnitude(n);
    if m != [] && m[0] >= 0x80 then [0] + m else m
  }

  predicate Short(s: seq<Byte>) {
    |s| < 0x80
  }

  function EncodeInteger(n: nat): seq<Byte>
    requires Short(Contents(n))
  {
    [2, |Contents(n)|] + Contents(n)
  }

  lemma RangeIsShort(n: nat)
    requires InRange(n)
    ensures 1 <= |Magnitude(n)| <= 32 && 1 <= |Contents(n)| <= 33
  {
    MagnitudeLength(n, 32);
    MagnitudeValue(n);
  }

  /** The canonical encoding of a pair. */
  function EncodePair(r: nat, s: nat): seq<Byte>
    requires InRange(r) && InRange(s)
  {
    RangeIsShort(r);
    RangeIsShort(s);
    var body := EncodeInteger(r) + EncodeInteger(s);
    [0x30, |body|] + body
  }

  /** The number whose contents these are, when they are minimal, positive and in range. */
  function ReadContents(body: seq<Byte>): Option<nat> {
    if body == [] || |body| > 33 then None
    else if body[0] == 0 then
      if |body| < 2 || body[1] < 0x80 then None else Some(Value(body[1..]))
    else if body[0] >= 0x80 then None
    else if |body| > 32 then None
    else Some(Value(body))
  }

  lemma ReadContentsExactly(body: seq<Byte>)
    ensures ReadContents(body).Some? ==> InRange(ReadContents(body).value) && Contents(ReadContents(body).value) == body
  {
    if ReadContents(body).Some? {
      var m := if body[0] == 0 then body[1..] else body;
      ValueMagnitude(m);
      MagnitudeLength(Value(m), 32);
    }
  }

  lemma ContentsRead(n: nat)
    requires InRange(n)
    ensures ReadContents(Contents(n)) == Some(n)
  {
    RangeIsShort(n);
    MagnitudeValue(n);
    assert Magnitude(n)[0] >= 0x80 ==> Contents(n)[1..] == Magnitude(n);
  }

  /** The INTEGER at the start: its number and the bytes it takes. */
  function ReadInteger(s: seq<Byte>): (r: Option<(nat, nat)>)
    ensures r.Some? ==> 2 <= r.value.1 <= |s|
  {
    if |s| < 2 || s[0] != 2 || s[1] > 33 || 2 + s[1] > |s| then None
    else
      match ReadContents(s[2..2 + s[1]])
      case None => None
      case Some(n) => Some((n, 2 + s[1]))
  }

  /** Reading finds exactly the canonical encodings of numbers in range. */
  lemma ReadIntegerExactly(s: seq<Byte>, n: nat)
    ensures (exists k :: ReadInteger(s) == Some((n, k)))
            <==> InRange(n) && Short(Contents(n)) && EncodeInteger(n) <= s
    ensures InRange(n) && Short(Contents(n)) && EncodeInteger(n) <= s ==> ReadInteger(s) == Some((n, |EncodeInteger(n)|))
  {
    hide InRange, Contents, ReadContents;
    if ReadInteger(s).Some? {
      IntegerIsEncoded(s);
    }
    if InRange(n) && Short(Contents(n)) && EncodeInteger(n) <= s {
      EncodedIntegerReads(s, n);
    }
  }

  lemma IntegerIsEncoded(s: seq<Byte>)
    requires ReadInteger(s).Some?
    ensures var n := ReadInteger(s).value.0;
            InRange(n) && Short(Contents(n)) && EncodeInteger(n) <= s
  {
    hide InRange, Contents, ReadContents;
    ReadContentsExactly(s[2..2 + s[1]]);
    assert EncodeInteger(ReadInteger(s).value.0) == s[..2 + s[1]];
  }

  lemma EncodedIntegerReads(s: seq<Byte>, n: nat)
    requires InRange(n) && Short(Contents(n)) && EncodeInteger(n) <= s
    ensures ReadInteger(s) == Some((n, |EncodeInteger(n)|))
  {
    RangeIsShort(n);
    ContentsRead(n);
    hide InRange, Contents, ReadContents;
    assert s[0] == EncodeInteger(n)[0] && s[1] == EncodeInteger(n)[1];
    assert s[2..2 + s[1]] == Contents(n);
  }

  /** The pair that a byte string encodes. */
  function ReadPair(der: seq<Byte>): Option<(nat, nat)> {
    if |der| < 8 || |der| > 72 || der[0] != 0x30 || der[1] != |der| - 2 then None
    else
      match ReadInteger(der[2..])
      case None => None
      case Some((r, k)) =>
        match ReadInteger(der[2 + k..])
        case None => None
        case Some((s, l)) => if 2 + k + l == |der| then Some((r, s)) else None
  }

  lemma BodyReads(a: seq<Byte>, b: seq<Byte>, r: nat, s: nat)
    requires 3 <= |a| <= 35 && 3 <= |b| <= 35
    requires ReadInteger(a + b) == Some((r, |a|)) && ReadInteger(b) == Some((s, |b|))
    ensures ReadPair([0x30, |a + b|] + (a + b)) == Some((r, s))
  {
    hide ReadInteger;
    var der := [0x30, |a + b|] + (a + b);
    assert der[2..] == a + b;
    assert der[2 + |a|..] == b;
  }

  lemma PairReads(r: nat, s: nat)
    requires InRange(r) && InRange(s)
    ensures ReadPair(EncodePair(r, s)) == Some((r, s))
  {
    RangeIsShort(r);
    RangeIsShort(s);
    hide ReadInteger, ReadPair, Contents, InRange;
    var a, b := EncodeInteger(r), EncodeInteger(s);
    ReadIntegerExactly(a + b, r);
    ReadIntegerExactly(b, s);
    BodyReads(a, b, r, s);
  }

  lemma ReadIsPair(der: seq<Byte>, r: nat, s: nat)
    requires ReadPair(der) == Some((r, s))
    ensures InRange(r) && InRange(s) && der == EncodePair(r, s)
  {
    var k := ReadInteger(der[2..]).value.1;
    hide ReadInteger, Contents, InRange;
    ReadIntegerExactly(der[2..], r);
    ReadIntegerExactly(der[2 + k..], s);
    var a, b := EncodeInteger(r), EncodeInteger(s);
    hide EncodeInteger;
    assert der[2..] == a + der[2 + k..] && der[2 + k..] == b;
    assert der == [der[0], der[1]] + der[2..];
  }

  /** Decoding accepts exactly the canonical encodings of pairs in range, and undoes encoding. */
  lemma ReadPairExactly(der: seq<Byte>, r: nat, s: nat)
    ensures ReadPair(der) == Some((r, s)) <==> InRange(r) && InRange(s) && der == EncodePair(r, s)
  {
    hide ReadPair, EncodePair;
    if InRange(r) && InRange(s) && der == EncodePair(r, s) {
      PairReads(r, s);
    }
    if ReadPair(der) == Some((r, s)) {
      ReadIsPair(der, r, s);
    }
  }

  // ---- the code ----

  /** Reads past the end give no byte, as an undefined element does. */
  function ByteAt(der: seq<Byte>, i: nat): Option<Byte> {
    if i < |der| then Some(der[i]) else None
  }

  method AllZero(value: seq<Byte>) returns (zero: bool)
    ensures zero <==> forall i | 0 <= i < |value| :: value[i] == 0
  {
    for i := 0 to |value|
      invariant forall j | 0 <= j < i :: value[j] == 0
    {
      if value[i] != 0 {
        return false;
      }
    }
    return true;
  }

  /** The value at the right end of 32 zero bytes. */
  method Pad(value: seq<Byte>) returns (bytes: array<Byte>)
    requires |value| <= 32
    ensures fresh(bytes) && bytes[..] == Zeros(32 - |value|) + value
  {
    bytes := new Byte[32](_ => 0);
    for i := 0 to |value|
      invariant bytes[..] == Zeros(32 - |value|) + value[..i] + Zeros(|value| - i)
    {
      bytes[32 - |value| + i] := value[i];
    }
    assert value[..|value|] == value;
  }

  /** The bytes that follow the header of one INTEGER, checked as the source does. */
  method TakeContents(body: seq<Byte>) returns (magnitude: Option<seq<Byte>>)
    requires 1 <= |body| <= 33
    ensures match ReadContents(body)
            case None => magnitude == None
            case Some(n) => InRange(n) && |Magnitude(n)| <= 32 && magnitude == Some(Magnitude(n))
  {
    ReadContentsExactly(body);
    var value := body;
    if value[0] == 0 {
      if |value| < 2 || value[1] < 0x80 {
        return None;
      }
      value := value[1..];
    } else if value[0] >= 0x80 {
      return None;
    }
    var zero := AllZero(value);
    if |value| > 32 || zero {
      return None;
    }
    ValueMagnitude(value);
    MagnitudeLength(Value(value), 32);
    return Some(value);
  }

  /** One INTEGER from the offset on, padded to 32 bytes. */
  method TakeInteger(der: seq<Byte>, start: nat) returns (padded: Option<array<Byte>>, offset: nat)
    requires start <= |der|
    ensures match ReadInteger(der[start..])
            case None => padded == None
            case Some((n, used)) =>
              && padded.Some? && fresh(padded.value) && offset == start + used
              && InRange(n) && |Magnitude(n)| <= 32 && padded.value[..] == Fixed(n)
  {
    hide ReadContents, InRange;
    offset := start;
    if ByteAt(der, offset) != Some(2) {
      return None, offset;
    }
    var length := ByteAt(der, offset + 1);
    offset := offset + 2;
    if length.None? || length.value == 0 || length.value > 33 || offset + length.value > |der| {
      NoContents();
      return None, offset;
    }
    var value := der[offset..offset + length.value];
    assert value == der[start..][2..2 + length.value];
    offset := offset + length.value;
    var magnitude := TakeContents(value);
    if magnitude.None? {
      return None, offset;
    }
    var bytes := Pad(magnitude.value);
    return Some(bytes), offset;
  }

  lemma NoContents()
    ensures ReadContents([]).None?
  {
  }

  /** The 64-byte form of a canonical signature; anything else is refused. */
  method DerEcdsaToP1363(der: seq<Byte>) returns (signature: Option<seq<Byte>>)
    ensures match ReadPair(der)
            case None => signature == None
            case Some((r, s)) =>
              |Magnitude(r)| <= 32 && |Magnitude(s)| <= 32 && signature == Some(Fixed(r) + Fixed(s))
  {
    if |der| < 8 || |der| > 72 || der[0] != 0x30 || der[1] != |der| - 2 {
      return None;
    }
    var r, afterR := TakeInteger(der, 2);
    if r.None? {
      return None;
    }
    var s, offset := TakeInteger(der, afterR);
    if s.None? || offset != |der| {
      return None;
    }
    return Some(r.value[..] + s.value[..]);
  }
}
