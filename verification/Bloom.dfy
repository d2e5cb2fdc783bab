/** The Bloom filter (util/bloom.cc) and its hash (util/hash.cc). */
module Bloom {
  import opened Keys
  import opened Coding

  // --- the hash ----------------------------------------------------------------------------

  const HASH_M: bv32 := 0xc6a4a793

  function HashWords(b: Bytes, h: bv32): bv32 {
    if |b| < 4 then HashTail(b, h)
    else
      var h1 := (h + DecodeFixed32(b) as bv32) * HASH_M;
      HashWords(b[4..], h1 ^ (h1 >> 16))
  }

  function HashTail(b: Bytes, h: bv32): bv32
    requires |b| < 4
  {
    if b == [] then h else
      var h3 := if |b| == 3 then h + ((b[2] as bv32) << 16) else h;
      var h2 := if |b| >= 2 then h3 + ((b[1] as bv32) << 8) else h3;
      var h1 := (h2 + b[0] as bv32) * HASH_M;
      h1 ^ (h1 >> 24)
  }

  /** Hash(key, 0xbc9f1d34). */
  function BloomHash(key: Bytes): Word
    requires |key| < WORD
  {
    HashWords(key, 0xbc9f1d34 ^ ((|key| as bv32) * HASH_M)) as int
  }

  // --- bits of a byte ------------------------------------------------------------------------

  predicate HasBit(b: nat, i: nat) {
    if i == 0 then b % 2 == 1 else HasBit(b / 2, i - 1)
  }

  /** `b | (1 << i)` */
  function OrBit(b: nat, i: nat): nat {
    if i == 0 then (if b % 2 == 1 then b else b + 1) else 2 * OrBit(b / 2, i - 1) + b % 2
  }

  lemma {:induction false} OrBitSets(b: nat, i: nat, j: nat)
    ensures HasBit(OrBit(b, i), j) <==> i == j || HasBit(b, j)
    decreases i
  {
    if i > 0 && j > 0 {
      OrBitSets(b / 2, i - 1, j - 1);
      assert OrBit(b, i) / 2 == OrBit(b / 2, i - 1);
    } else if i > 0 {
      assert OrBit(b, i) % 2 == b % 2;
    } else if j > 0 {
      assert OrBit(b, 0) / 2 == b / 2;
    }
  }

  function Pow2(n: nat): nat {
    if n == 0 then 1 else 2 * Pow2(n - 1)
  }

  lemma {:induction false} OrBitBound(b: nat, i: nat, n: nat)
    requires i < n && b < Pow2(n)
    ensures OrBit(b, i) < Pow2(n)
  {
    if i > 0 {
      OrBitBound(b / 2, i - 1, n - 1);
    }
  }

  lemma OrBitByte(b: Byte, i: nat)
    requires i < 8
    ensures OrBit(b, i) < 256
  {
    assert Pow2(8) == 256 by {
      assert Pow2(2) == 4 && Pow2(4) == 4 * Pow2(2) && Pow2(6) == 4 * Pow2(4);
    }
    OrBitBound(b, i, 8);
  }

  // --- bit arrays -----------------------------------------------------------------------------------

  predicate BitAt(a: Bytes, pos: nat)
    requires pos < 8 * |a|
  {
    HasBit(a[pos / 8], pos % 8)
  }

  function SetBit(a: Bytes, pos: nat): (r: Bytes)
    requires pos < 8 * |a|
    ensures |r| == |a|
  {
    OrBitByte(a[pos / 8], pos % 8);
    var b: Byte := OrBit(a[pos / 8], pos % 8);
    a[pos / 8 := b]
  }

  lemma SetBitSets(a: Bytes, pos: nat, q: nat)
    requires pos < 8 * |a| && q < 8 * |a|
    ensures BitAt(SetBit(a, pos), q) <==> q == pos || BitAt(a, q)
  {
    OrBitSets(a[pos / 8], pos % 8, q % 8);
  }

  // --- the filter ------------------------------------------------------------------------------------

  /** `h` after `j` steps of double hashing, modulo 2^32. */
  function Probe(h: Word, j: nat): Word {
    if j == 0 then h else (Probe(h, j - 1) + Delta(h)) % WORD
  }

  /** Rotate right by 17 bits. */
  function Delta(h: Word): Word {
    h / 131072 + h % 131072 * 32768
  }

  /** The bits a key sets, and is looked up by. */
  function Position(h: Word, j: nat, bits: nat): (p: nat)
    requires bits > 0
    ensures p < bits
  {
    Probe(h, j) % bits
  }

  ghost predicate AllSet(a: Bytes, h: Word, k: nat)
    requires |a| > 0
  {
    forall j :: 0 <= j < k ==> BitAt(a, Position(h, j, 8 * |a|))
  }

  /** Bit `q` is one of the `k` bits that hash `h` selects. */
  ghost predicate Probed(h: Word, k: nat, bits: nat, q: nat)
    requires bits > 0
  {
    exists j :: 0 <= j < k && Position(h, j, bits) == q
  }

  /** `b` is `a` with the bits of `h` set, and no other. */
  ghost predicate Adds(a: Bytes, b: Bytes, h: Word, k: nat) {
    |a| == |b| > 0 && forall q :: 0 <= q < 8 * |a| ==> (BitAt(b, q) <==> BitAt(a, q) || Probed(h, k, 8 * |a|, q))
  }

  /** Bit `q` belongs to one of the first `n` keys. */
  ghost predicate SomeProbed(keys: seq<Bytes>, n: nat, k: nat, bits: nat, q: nat)
    requires bits > 0 && ShortKeys(keys)
  {
    exists i :: 0 <= i < n && i < |keys| && Probed(BloomHash(keys[i]), k, bits, q)
  }

  /** The bits set in `a` are those of the first `n` keys. */
  ghost predicate BitsOf(a: Bytes, keys: seq<Bytes>, n: nat, k: nat)
    requires |a| > 0 && ShortKeys(keys)
  {
    forall q :: 0 <= q < 8 * |a| ==> (BitAt(a, q) <==> SomeProbed(keys, n, k, 8 * |a|, q))
  }

  lemma {:induction false} NoBits(i: nat)
    ensures !HasBit(0, i)
  {
    if i > 0 {
      NoBits(i - 1);
    }
  }

  lemma AddsOne(a: Bytes, b: Bytes, keys: seq<Bytes>, n: nat, k: nat)
    requires |a| > 0 && ShortKeys(keys) && n < |keys| && BitsOf(a, keys, n, k) && Adds(a, b, BloomHash(keys[n]), k)
    ensures BitsOf(b, keys, n + 1, k)
  {
    hide BloomHash, BitAt;
  }

  lemma BitsHold(a: Bytes, keys: seq<Bytes>, k: nat, i: nat)
    requires |a| > 0 && ShortKeys(keys) && BitsOf(a, keys, |keys|, k) && i < |keys|
    ensures AllSet(a, BloomHash(keys[i]), k)
  {
    hide BloomHash, BitAt;
    forall j | 0 <= j < k ensures BitAt(a, Position(BloomHash(keys[i]), j, 8 * |a|)) {
      var q := Position(BloomHash(keys[i]), j, 8 * |a|);
      assert Probed(BloomHash(keys[i]), k, 8 * |a|, q);
      assert SomeProbed(keys, |keys|, k, 8 * |a|, q);
    }
  }

  predicate ShortKeys(keys: seq<Bytes>) {
    forall i :: 0 <= i < |keys| ==> |keys[i]| < WORD
  }

  /**
   Number of probes for a number of bits per key: 0.69 * bits, kept between 1 and 30.  In
   hundredths the product is exact.  The code's floating-point product truncates to the
   same number: below the cap it is zero or at least a hundredth away from a whole number.
   */
  function Probes(bitsPerKey: nat): (k: nat)
    ensures 1 <= k <= 30
  {
    var k := bitsPerKey * 69 / 100;
    if k < 1 then 1 else if k > 30 then 30 else k
  }

  /** A filter matches a key if all its bits are set. */
  ghost predicate Holds(filter: Bytes, key: Bytes) {
    && |key| < WORD && |filter| >= 2 && filter[|filter| - 1] <= 30
    && AllSet(filter[..|filter| - 1], BloomHash(key), filter[|filter| - 1])
  }

  /** What KeyMayMatch answers: a filter of an unknown encoding matches everything. */
  ghost predicate Matches(filter: Bytes, key: Bytes) {
    |filter| >= 2 && (filter[|filter| - 1] > 30 || Holds(filter, key))
  }

  /** Sets the bits of one key. */
  method AddKey(a: Bytes, key: Bytes, k: nat) returns (r: Bytes)
    requires |a| > 0 && |key| < WORD
    ensures Adds(a, r, BloomHash(key), k)
  {
    hide BloomHash, BitAt, Delta, SetBit;
    var h := BloomHash(key);
    var start := h;
    var delta := Delta(h);
    r := a;
    var j := 0;
    while j < k
      invariant 0 <= j <= k && h == Probe(start, j) && Adds(a, r, start, j)
    {
      var bitpos := h % (8 * |a|);
      var r' := SetBit(r, bitpos);
      forall q | 0 <= q < 8 * |a| ensures BitAt(r', q) <==> q == bitpos || BitAt(r, q) {
        SetBitSets(r, bitpos, q);
      }
      AddsBit(a, r, r', start, j, bitpos);
      r := r';
      h := (h + delta) % WORD;
      j := j + 1;
    }
  }

  lemma AddsBit(a: Bytes, r: Bytes, r': Bytes, h: Word, j: nat, pos: nat)
    requires Adds(a, r, h, j) && |r'| == |r| && pos == Position(h, j, 8 * |a|)
    requires forall q :: 0 <= q < 8 * |a| ==> (BitAt(r', q) <==> q == pos || BitAt(r, q))
    ensures Adds(a, r', h, j + 1)
  {
    hide BitAt, Position;
  }

  /** At least 64 bits, rounded up to whole bytes. */
  function FilterBytes(n: nat, bitsPerKey: nat): (bytes: nat)
    ensures bytes >= 8
  {
    var bits := n * bitsPerKey;
    ((if bits < 64 then 64 else bits) + 7) / 8
  }

  /** CreateFilter: sets the bits of the keys and no others, so every key added is held. */
  method CreateFilter(keys: seq<Bytes>, bitsPerKey: nat) returns (filter: Bytes)
    requires ShortKeys(keys)
    ensures |filter| == FilterBytes(|keys|, bitsPerKey) + 1 && filter[|filter| - 1] == Probes(bitsPerKey)
    ensures BitsOf(filter[..|filter| - 1], keys, |keys|, Probes(bitsPerKey))
    ensures forall i :: 0 <= i < |keys| ==> Holds(filter, keys[i])
  {
    hide AllSet, BloomHash, BitAt, Probes, Adds, BitsOf;
    var bytes := FilterBytes(|keys|, bitsPerKey);
    var k := Probes(bitsPerKey);
    var a: Bytes := seq(bytes, i => 0);
    NothingSet(a, keys, k);
    var i := 0;
    while i < |keys|
      invariant 0 <= i <= |keys| && |a| == bytes >= 8 && BitsOf(a, keys, i, k)
    {
      assert |keys[i]| < WORD;
      var b := AddKey(a, keys[i], k);
      AddsOne(a, b, keys, i, k);
      AddsLength(a, b, BloomHash(keys[i]), k);
      a := b;
      i := i + 1;
    }
    filter := a + [k];
    assert filter[..|filter| - 1] == a;
    forall j | 0 <= j < |keys| ensures Holds(filter, keys[j]) {
      BitsHold(a, keys, k, j);
    }
  }

  lemma AddsLength(a: Bytes, b: Bytes, h: Word, k: nat)
    requires Adds(a, b, h, k)
    ensures |a| == |b|
  {
  }

  lemma NothingSet(a: Bytes, keys: seq<Bytes>, k: nat)
    requires |a| > 0 && ShortKeys(keys) && forall i :: 0 <= i < |a| ==> a[i] == 0
    ensures BitsOf(a, keys, 0, k)
  {
    forall q | 0 <= q < 8 * |a| ensures !BitAt(a, q) {
      NoBits(q % 8);
    }
  }

  /** KeyMayMatch: a filter rejects a key exactly when one of its bits is not set. */
  method KeyMayMatch(key: Bytes, filter: Bytes) returns (match_: bool)
    requires |key| < WORD
    ensures match_ <==> Matches(filter, key)
  {
    hide BloomHash, BitAt, Delta;
    if |filter| < 2 {
      return false;
    }
    var bits := (|filter| - 1) * 8;
    var k: int := filter[|filter| - 1];
    if k > 30 {
      return true;
    }
    var a := filter[..|filter| - 1];
    var h := BloomHash(key);
    var start := h;
    var delta := Delta(h);
    var j := 0;
    while j < k
      invariant 0 <= j <= k && h == Probe(start, j) && AllSet(a, start, j)
    {
      var bitpos := h % bits;
      assert bitpos == Position(start, j, 8 * |a|);
      if !BitAt(a, bitpos) {
        return false;
      }
      h := (h + delta) % WORD;
      j := j + 1;
    }
    return true;
  }
}
