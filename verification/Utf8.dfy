/** UTF-8 as the publisher writes it and the worker reads it back. */
module Utf8 {
  import opened Json

  newtype Byte = x: int | 0 <= x < 256

  // ---------------------------------------------------------------- Buffer.from(text, 'utf8')

  predicate IsPair(t: Text) { |t| >= 2 && IsHigh(t[0]) && IsLow(t[1]) }

  /** A surrogate without a partner is replaced. */
  const REPLACEMENT: seq<Byte> := [0xef, 0xbf, 0xbd]

  function EncodeUnit(u: CodeUnit): (b: seq<Byte>)
    ensures 1 <= |b| <= 3
  {
    var n := u as int;
    if n < 0x80 then [n as Byte]
    else if n < 0x800 then [(0xc0 + n / 64) as Byte, (0x80 + n % 64) as Byte]
    else if IsHigh(u) || IsLow(u) then REPLACEMENT
    else [(0xe0 + n / 4096) as Byte, (0x80 + n / 64 % 64) as Byte, (0x80 + n % 64) as Byte]
  }

  function Scalar(high: CodeUnit, low: CodeUnit): (n: int)
    requires IsHigh(high) && IsLow(low)
    ensures 0x1_0000 <= n < 0x11_0000
  {
    0x1_0000 + (high as int - 0xd800) * 0x400 + (low as int - 0xdc00)
  }

  function EncodePair(high: CodeUnit, low: CodeUnit): (b: seq<Byte>)
    requires IsHigh(high) && IsLow(low)
    ensures |b| == 4
  {
    var n := Scalar(high, low);
    [(0xf0 + n / 0x4_0000) as Byte, (0x80 + n / 4096 % 64) as Byte, (0x80 + n / 64 % 64) as Byte,
     (0x80 + n % 64) as Byte]
  }

  function Encode(t: Text): seq<Byte> {
    if t == [] then []
    else if IsPair(t) then EncodePair(t[0], t[1]) + Encode(t[2..])
    else EncodeUnit(t[0]) + Encode(t[1..])
  }

  // ---------------------------------------------------------------- TextDecoder with fatal errors

  predicate IsContinuation(b: Byte) { 0x80 <= b < 0xc0 }

  function Payload(b: Byte): int { b as int % 64 }

  function Before(units: Text, rest: Maybe<Text>): Maybe<Text> {
    match rest
    case Nothing => Nothing
    case Just(t) => Just(units + t)
  }

  function Decode(b: seq<Byte>): Maybe<Text> {
    if b == [] then Just([])
    else if b[0] < 0x80 then Before([b[0] as CodeUnit], Decode(b[1..]))
    else if 0xc2 <= b[0] < 0xe0 && |b| >= 2 && IsContinuation(b[1]) then
      Before([((b[0] as int - 0xc0) * 64 + Payload(b[1])) as CodeUnit], Decode(b[2..]))
    else if 0xe0 <= b[0] < 0xf0 && |b| >= 3 && IsContinuation(b[1]) && IsContinuation(b[2]) then
      var n := (b[0] as int - 0xe0) * 4096 + Payload(b[1]) * 64 + Payload(b[2]);
      if n < 0x800 || 0xd800 <= n < 0xe000 then Nothing else Before([n as CodeUnit], Decode(b[3..]))
    else if 0xf0 <= b[0] < 0xf5 && |b| >= 4 && IsContinuation(b[1]) && IsContinuation(b[2]) && IsContinuation(b[3]) then
      var n := (b[0] as int - 0xf0) * 0x4_0000 + Payload(b[1]) * 4096 + Payload(b[2]) * 64 + Payload(b[3]);
      if n < 0x1_0000 || n >= 0x11_0000 then Nothing
      else Before([(0xd800 + (n - 0x1_0000) / 0x400) as CodeUnit, (0xdc00 + (n - 0x1_0000) % 0x400) as CodeUnit],
                  Decode(b[4..]))
    else Nothing
  }

  /** The decoder drops a byte order mark at the start. */
  function DecodeText(b: seq<Byte>): Maybe<Text> {
    match Decode(b)
    case Nothing => Nothing
    case Just(t) => Just(if t != [] && t[0] == 0xfeff then t[1..] else t)
  }

  // ---------------------------------------------------------------- round trip

  /** No surrogate stands without its partner. */
  predicate Paired(t: Text) {
    if t == [] then true
    else if IsHigh(t[0]) then |t| >= 2 && IsLow(t[1]) && Paired(t[2..])
    else !IsLow(t[0]) && Paired(t[1..])
  }

  lemma DecodeUnit(u: CodeUnit, rest: seq<Byte>)
    requires !IsHigh(u) && !IsLow(u)
    ensures Decode(EncodeUnit(u) + rest) == Before([u], Decode(rest))
  {
    var b := EncodeUnit(u) + rest;
    assert b[|EncodeUnit(u)|..] == rest;
  }

  lemma ScalarParts(n: int)
    requires 0x1_0000 <= n < 0x11_0000
    ensures n == (n / 0x4_0000) * 0x4_0000 + n / 4096 % 64 * 4096 + n / 64 % 64 * 64 + n % 64
    ensures 0 <= n / 0x4_0000 < 5
  {
  }

  lemma ScalarHalves(high: CodeUnit, low: CodeUnit)
    requires IsHigh(high) && IsLow(low)
    ensures var n := Scalar(high, low);
            0xd800 + (n - 0x1_0000) / 0x400 == high as int && 0xdc00 + (n - 0x1_0000) % 0x400 == low as int
  {
  }

  function FourByteValue(b: seq<Byte>): int
    requires |b| >= 4
  {
    (b[0] as int - 0xf0) * 0x4_0000 + Payload(b[1]) * 4096 + Payload(b[2]) * 64 + Payload(b[3])
  }

  lemma PayloadOf(x: int)
    requires 0 <= x < 64
    ensures IsContinuation((0x80 + x) as Byte) && Payload((0x80 + x) as Byte) == x
  {
  }

  lemma PairBytes(high: CodeUnit, low: CodeUnit)
    requires IsHigh(high) && IsLow(low)
    ensures var b := EncodePair(high, low);
            && 0xf0 <= b[0] < 0xf5 && IsContinuation(b[1]) && IsContinuation(b[2]) && IsContinuation(b[3])
            && FourByteValue(b) == Scalar(high, low)
  {
    var n := Scalar(high, low);
    ScalarParts(n);
    PayloadOf(n / 4096 % 64);
    PayloadOf(n / 64 % 64);
    PayloadOf(n % 64);
  }

  lemma DecodeFour(b: seq<Byte>)
    requires |b| >= 4 && 0xf0 <= b[0] < 0xf5 && IsContinuation(b[1]) && IsContinuation(b[2]) && IsContinuation(b[3])
    requires 0x1_0000 <= FourByteValue(b) < 0x11_0000
    ensures var n := FourByteValue(b);
            Decode(b) == Before([(0xd800 + (n - 0x1_0000) / 0x400) as CodeUnit,
                                 (0xdc00 + (n - 0x1_0000) % 0x400) as CodeUnit],
                                Decode(b[4..]))
  {
  }

  lemma DecodePair(high: CodeUnit, low: CodeUnit, rest: seq<Byte>)
    requires IsHigh(high) && IsLow(low)
    ensures Decode(EncodePair(high, low) + rest) == Before([high, low], Decode(rest))
  {
    var b := EncodePair(high, low) + rest;
    PairBytes(high, low);
    ScalarHalves(high, low);
    DecodeFour(b);
    assert b[4..] == rest;
  }

  /** Decoding recovers every text whose surrogates are paired. */
  lemma {:induction false} DecodeEncode(t: Text)
    requires Paired(t)
    ensures Decode(Encode(t)) == Just(t)
  {
    if t != [] {
      if IsPair(t) {
        DecodeEncode(t[2..]);
        DecodePair(t[0], t[1], Encode(t[2..]));
        assert t == [t[0], t[1]] + t[2..];
      } else {
        DecodeEncode(t[1..]);
        DecodeUnit(t[0], Encode(t[1..]));
        assert t == [t[0]] + t[1..];
      }
    }
  }

  lemma {:induction false} EncodeLength(t: Text)
    ensures |Encode(t)| <= 3 * |t|
    ensures t != [] ==> |Encode(t)| >= 1
  {
    if t != [] {
      EncodeLength(if IsPair(t) then t[2..] else t[1..]);
    }
  }
}
