/** Integer coding (util/coding.h, util/coding.cc) and checksum masking (util/crc32c.h). */
module Coding {
  import opened Keys
  import opened Spec

  type Bytes = seq<Byte>

  const WORD: nat := 0x1_0000_0000

  type Word = w: int | 0 <= w < 0x1_0000_0000

  // --- fixed width, little-endian ----------------------------------------------------------

  function EncodeFixed32(w: Word): (r: Bytes)
    ensures |r| == 4 && DecodeFixed32(r) == w
  {
    var r := [w % 256, w / 256 % 256, w / 65536 % 256, w / 16777216];
    Digits(w);
    r
  }

  function DecodeFixed32(b: Bytes): Word
    requires |b| >= 4
  {
    var d0: int, d1: int, d2: int, d3: int := b[0], b[1], b[2], b[3];
    d0 + 256 * d1 + 65536 * d2 + 16777216 * d3
  }

  lemma Digits(w: Word)
    ensures w / 16777216 < 256
    ensures w % 256 + 256 * (w / 256 % 256) + 65536 * (w / 65536 % 256) + 16777216 * (w / 16777216) == w
  {
    assert w / 65536 == w / 256 / 256 && w / 16777216 == w / 65536 / 256;
  }

  const FIXED64: nat := 0x1_0000_0000_0000_0000

  type Long = w: int | 0 <= w < 0x1_0000_0000_0000_0000

  function EncodeFixed64(w: Long): (r: Bytes)
    ensures |r| == 8 && DecodeFixed64(r) == w
  {
    var low, high := w % WORD, w / WORD;
    var r := EncodeFixed32(low) + EncodeFixed32(high);
    assert r[..4] == EncodeFixed32(low) && r[4..8] == EncodeFixed32(high);
    r
  }

  function DecodeFixed64(b: Bytes): Long
    requires |b| >= 8
  {
    DecodeFixed32(b[..4]) + WORD * DecodeFixed32(b[4..8])
  }

  // --- varints -------------------------------------------------------------------------------

  function EncodeVarint(v: nat): (r: Bytes)
    ensures r != []
  {
    if v < 128 then [v] else [128 + v % 128] + EncodeVarint(v / 128)
  }

  /** A value and how many bytes it took. */
  datatype Parsed<T> = Parsed(value: T, used: nat)

  /** The loop of GetVarint32Ptr and GetVarint64Ptr: at most `limit` bytes, seven bits each. */
  function DecodeVarint(b: Bytes, limit: nat): (r: Option<Parsed<nat>>)
    ensures r.Some? ==> 0 < r.value.used <= |b| && r.value.used <= limit
  {
    if limit == 0 || b == [] then None
    else if b[0] < 128 then Some(Parsed(b[0], 1))
    else
      match DecodeVarint(b[1..], limit - 1)
      case None => None
      case Some(p) => Some(Parsed(b[0] - 128 + 128 * p.value, p.used + 1))
  }

  /** A varint is read back whatever follows it. */
  lemma {:induction false} VarintRoundTrip(v: nat, rest: Bytes, limit: nat)
    requires |EncodeVarint(v)| <= limit
    ensures DecodeVarint(EncodeVarint(v) + rest, limit) == Some(Parsed(v, |EncodeVarint(v)|))
  {
    if v >= 128 {
      VarintRoundTrip(v / 128, rest, limit - 1);
      assert (EncodeVarint(v) + rest)[1..] == EncodeVarint(v / 128) + rest;
    }
  }

  /** GetVarint32: bits that do not fit are lost. */
  function GetVarint32(b: Bytes): (r: Option<Parsed<nat>>)
    ensures r.Some? ==> 0 < r.value.used <= |b| && r.value.used <= 5 && r.value.value < WORD
  {
    match DecodeVarint(b, 5)
    case None => None
    case Some(p) =>
      var v: nat := p.value % WORD;
      Some(Parsed(v, p.used))
  }

  function GetVarint64(b: Bytes): (r: Option<Parsed<nat>>)
    ensures r.Some? ==> 0 < r.value.used <= |b| && r.value.used <= 10 && r.value.value < FIXED64
  {
    match DecodeVarint(b, 10)
    case None => None
    case Some(p) =>
      var v: nat := p.value % FIXED64;
      Some(Parsed(v, p.used))
  }

  lemma Varint32RoundTrip(v: nat, rest: Bytes)
    requires v < WORD
    ensures GetVarint32(EncodeVarint(v) + rest) == Some(Parsed(v, |EncodeVarint(v)|))
  {
    VarintFits(v);
    VarintRoundTrip(v, rest, 5);
  }

  lemma Varint64RoundTrip(v: nat, rest: Bytes)
    requires v < FIXED64
    ensures GetVarint64(EncodeVarint(v) + rest) == Some(Parsed(v, |EncodeVarint(v)|))
  {
    VarintFits(v);
    VarintRoundTrip(v, rest, 10);
  }

  function Power128(n: nat): nat {
    if n == 0 then 1 else 128 * Power128(n - 1)
  }

  lemma {:induction false} VarintLength(v: nat, n: nat)
    requires n > 0
    ensures |EncodeVarint(v)| <= n <==> v < Power128(n)
  {
    if n == 1 {
      assert Power128(1) == 128 * Power128(0);
    } else if v >= 128 {
      VarintLength(v / 128, n - 1);
      DivLess(v, Power128(n - 1));
    } else {
      PowerGrows(n);
    }
  }

  lemma DivLess(v: nat, m: nat)
    ensures v / 128 < m <==> v < 128 * m
  {
  }

  lemma {:induction false} PowerGrows(n: nat)
    requires n > 0
    ensures Power128(n) >= 128
  {
    if n > 1 {
      PowerGrows(n - 1);
    }
  }

  /** Five bytes hold any 32-bit value, ten any 64-bit one. */
  lemma VarintFits(v: nat)
    ensures v < WORD ==> |EncodeVarint(v)| <= 5
    ensures v < FIXED64 ==> |EncodeVarint(v)| <= 10
  {
    VarintLength(v, 5);
    VarintLength(v, 10);
    assert Power128(5) == 128 * 128 * 128 * 128 * 128 by {
      assert Power128(2) == 128 * 128 && Power128(3) == 128 * Power128(2) && Power128(4) == 128 * Power128(3);
    }
    assert Power128(10) == 128 * 128 * 128 * 128 * 128 * Power128(5) by {
      assert Power128(7) == 128 * 128 * Power128(5) && Power128(8) == 128 * Power128(7);
      assert Power128(9) == 128 * Power128(8);
    }
  }

  // --- length-prefixed strings -------------------------------------------------------------------

  function PutString(b: Bytes): Bytes {
    EncodeVarint(|b|) + b
  }

  /** GetLengthPrefixedSlice. */
  function GetString(b: Bytes): (r: Option<Parsed<Bytes>>)
    ensures r.Some? ==> r.value.used <= |b|
  {
    match GetVarint32(b)
    case None => None
    case Some(p) =>
      if p.used + p.value <= |b| then Some(Parsed(b[p.used..p.used + p.value], p.used + p.value)) else None
  }

  lemma StringRoundTrip(b: Bytes, rest: Bytes)
    requires |b| < WORD
    ensures GetString(PutString(b) + rest) == Some(Parsed(b, |PutString(b)|))
  {
    var n := EncodeVarint(|b|);
    Varint32RoundTrip(|b|, b + rest);
    assert PutString(b) + rest == n + (b + rest);
    assert (n + (b + rest))[|n|..|n| + |b|] == b;
  }

  // --- crc32c -------------------------------------------------------------------------------------------

  /** One bit of the division by the Castagnoli polynomial, bits reversed. */
  function CrcBit(crc: bv32): bv32 {
    if crc & 1 == 1 then (crc >> 1) ^ 0x82f63b78 else crc >> 1
  }

  function CrcByte(crc: bv32, b: bv32): bv32 {
    CrcBit(CrcBit(CrcBit(CrcBit(CrcBit(CrcBit(CrcBit(CrcBit(crc ^ b))))))))
  }

  /** The remainder after more bytes. */
  function CrcUpdate(crc: bv32, b: Bytes): bv32 {
    if b == [] then crc else CrcByte(CrcUpdate(crc, b[..|b| - 1]), b[|b| - 1] as bv32)
  }

  /** crc32c::Value. */
  function Crc(b: Bytes): Word {
    (CrcUpdate(0xffff_ffff, b) ^ 0xffff_ffff) as int
  }

  // --- crc masking ------------------------------------------------------------------------------------

  const MASK_DELTA: nat := 0xa282ead8

  /** crc32c::Mask, so that a checksum of data that holds checksums still means something. */
  function Mask(crc: Word): Word {
    (crc / 32768 + crc % 32768 * 131072 + MASK_DELTA) % WORD
  }

  function Unmask(masked: Word): Word {
    var rot := (masked + WORD - MASK_DELTA) % WORD;
    rot / 131072 + rot % 131072 * 32768
  }

  lemma UnmaskMask(crc: Word)
    ensures Unmask(Mask(crc)) == crc
  {
    var high, low := crc / 32768, crc % 32768;
    var rot := high + low * 131072;
    assert crc == 32768 * high + low && high < 131072 && 0 <= rot < WORD;
    assert (Mask(crc) + WORD - MASK_DELTA) % WORD == rot;
    assert rot / 131072 == low && rot % 131072 == high;
  }
}
