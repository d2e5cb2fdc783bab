/**
 The decoder (nanopb: pb_decode.c, and the field iterator of pb_common.c).

 Whatever the input, a decoder that succeeds leaves a structure within its bounds.  On
 the encoding of a message it restores the message: the ghost parameters of a decoder
 say what was encoded, and what follows it.
 */
module NanopbDecode {
  import opened Keys
  import opened Spec
  import opened Coding
  import opened Nanopb
  import opened NanopbReplay
  import NanopbEncode

  // --- streams --------------------------------------------------------------------------------

  /** pb_istream_t over a buffer: the bytes left. */
  class IStream {
    var rest: Bytes

    constructor (buf: Bytes)
      ensures rest == buf
    {
      rest := buf;
    }

    /** pb_read */
    method Read(count: nat) returns (ok: bool, buf: Bytes)
      modifies this
      ensures ok <==> count <= |old(rest)|
      ensures ok ==> buf == old(rest)[..count] && rest == old(rest)[count..]
      ensures !ok ==> rest == old(rest)
    {
      if |rest| < count {
        return false, [];
      }
      buf, rest := rest[..count], rest[count..];
      ok := true;
    }

    /** pb_readbyte */
    method ReadByte() returns (ok: bool, b: Byte)
      modifies this
      ensures ok <==> old(rest) != []
      ensures ok ==> b == old(rest)[0] && rest == old(rest)[1..]
      ensures !ok ==> rest == old(rest)
    {
      if rest == [] {
        return false, 0;
      }
      b, rest := rest[0], rest[1..];
      ok := true;
    }
  }

  // --- varints ----------------------------------------------------------------------------------

  function Total(sum: nat, k: nat, more: nat, used: nat): Option<Parsed<nat>> {
    var total: nat := sum + Power128(k) * more;
    Some(Parsed(total, k + used))
  }

  /** After `k` continued bytes with groups adding up to `sum`, the varint goes on as the rest says. */
  ghost predicate GoesOn(b: Bytes, limit: nat, k: nat, sum: nat) {
    && k <= |b| && k <= limit
    && DecodeVarint(b, limit) ==
         match DecodeVarint(b[k..], limit - k)
         case None => None
         case Some(p) => Total(sum, k, p.value, p.used)
  }

  lemma GoOn(b: Bytes, limit: nat, k: nat, sum: nat)
    requires GoesOn(b, limit, k, sum) && k < |b| && k < limit && b[k] >= 128
    ensures GoesOn(b, limit, k + 1, sum + Power128(k) * (b[k] as int - 128))
  {
    NextPower(k);
    hide Power128;
    var c := b[k..];
    assert c[0] == b[k] && c[1..] == b[k + 1..];
    match DecodeVarint(c[1..], limit - k - 1)
    case None =>
    case Some(p) => Distribute(Power128(k), b[k] as int - 128, p.value);
  }

  lemma Distribute(a: nat, b: nat, c: nat)
    ensures a * (b + 128 * c) == a * b + 128 * a * c
  {
  }

  /** The group just read, reduced to the width of the result. */
  lemma AddGroup64(sum: nat, more: nat)
    ensures (sum % FIXED64 + more) % FIXED64 == (sum + more) % FIXED64
  {
  }

  lemma AddGroup32(sum: nat, more: nat)
    ensures (sum % WORD + more) % WORD == (sum + more) % WORD
  {
  }

  /** pb_decode_varint: at most ten bytes, reduced to 64 bits. */
  method DecodeVarintFrom(s: IStream) returns (ok: bool, value: nat)
    modifies s
    ensures ok <==> DecodeVarint(old(s.rest), 10).Some?
    ensures ok ==> var p := DecodeVarint(old(s.rest), 10).value;
                   value == p.value % FIXED64 && s.rest == old(s.rest)[p.used..]
    ensures |s.rest| <= |old(s.rest)|
  {
    hide DecodeVarint, Power128;
    ghost var b, sum: nat := s.rest, 0;
    value := 0;
    var k, power: nat := 0, 1;
    StartVarint(b, 10);
    while true
      invariant 0 <= k <= 10 && k <= |b| && s.rest == b[k..] && power == Power128(k) && GoesOn(b, 10, k, sum)
      invariant value == sum % FIXED64
      decreases 10 - k
    {
      if k >= 10 {
        NoVarint(b, 10, k, sum);
        return false, 0;
      }
      var byte: Byte;
      ok, byte := s.ReadByte();
      if !ok {
        NoVarint(b, 10, k, sum);
        return;
      }
      var group: int := byte % 128;
      AddGroup64(sum, power * group);
      value := (value + power * group) % FIXED64;
      if byte < 128 {
        EndVarint(b, 10, k, sum);
        return;
      }
      GoOn(b, 10, k, sum);
      NextPower(k);
      sum := sum + power * group;
      power, k := 128 * power, k + 1;
    }
  }

  lemma StartVarint(b: Bytes, limit: nat)
    ensures GoesOn(b, limit, 0, 0) && Power128(0) == 1
  {
    assert b[0..] == b;
  }

  lemma NextPower(k: nat)
    ensures Power128(k + 1) == 128 * Power128(k)
  {
  }

  lemma NoVarint(b: Bytes, limit: nat, k: nat, sum: nat)
    requires GoesOn(b, limit, k, sum) && (k == limit || k == |b|)
    ensures DecodeVarint(b, limit).None?
  {
  }

  lemma EndVarint(b: Bytes, limit: nat, k: nat, sum: nat)
    requires GoesOn(b, limit, k, sum) && k < limit && k < |b| && b[k] < 128
    ensures DecodeVarint(b, limit) == Total(sum, k, b[k] as nat, 1)
  {
    assert b[k..][0] == b[k];
  }

  /** What pb_decode_varint32 makes of a varint of at most five bytes: it must fit 32 bits. */
  ghost predicate Short(b: Bytes, ok: bool, value: nat, rest: Bytes) {
    match DecodeVarint(b, 5)
    case None => true
    case Some(p) => (ok <==> p.value < WORD) && (ok ==> value == p.value && rest == b[p.used..])
  }

  /** Where the varint ends: its first byte without the continuation bit. */
  ghost function Stop(b: Bytes): (n: nat)
    ensures n <= |b|
  {
    if b == [] || b[0] < 128 then 0 else 1 + Stop(b[1..])
  }

  /** The groups of the first `k` bytes put together. */
  ghost function GroupSum(b: Bytes, k: nat): nat
    requires k <= |b|
  {
    if k == 0 then 0 else GroupSum(b, k - 1) + Power128(k - 1) * (b[k - 1] as int % 128)
  }

  /** What the first five bytes say, reduced to 32 bits. */
  ghost function LowBits(b: Bytes): nat
    requires |b| >= 5
  {
    GroupSum(b, 5) % WORD
  }

  /** A later byte that adds nothing, or repeats the sign of a negative number: all ones, up to bit 63. */
  ghost predicate IsPadding(b: Bytes, i: nat, value: nat)
    requires i < |b|
  {
    b[i] % 128 == 0 || (value >= 0x8000_0000 && b[i] == if 7 * i < 63 then 0xff else 0x01)
  }

  /** What it makes of longer ones: the low bits, if all that follows is padding. */
  ghost predicate Long(b: Bytes, ok: bool, value: nat, rest: Bytes) {
    && (Stop(b) == |b| ==> !ok)
    && (5 <= Stop(b) < |b| ==>
          && (ok <==> forall i :: 5 <= i <= Stop(b) ==> IsPadding(b, i, LowBits(b)))
          && (ok ==> value == LowBits(b) && rest == b[Stop(b) + 1..]))
  }

  /** pb_decode_varint32_eof, for varints of any length. */
  method DecodeVarint32(s: IStream) returns (ok: bool, value: nat, eof: bool)
    modifies s
    ensures eof <==> old(s.rest) == []
    ensures ok ==> value < WORD && |s.rest| < |old(s.rest)|
    ensures |s.rest| <= |old(s.rest)|
    ensures Short(old(s.rest), ok, value, s.rest) && Long(old(s.rest), ok, value, s.rest)
  {
    hide DecodeVarint, Power128, GoesOn, Short;
    ghost var b := s.rest;
    StartVarint(b, 5);
    eof, value := s.rest == [], 0;
    var byte: Byte;
    ok, byte := s.ReadByte();
    if !ok {
      NoVarint(b, 5, 0, 0);
      LongIsOpen(b, ok, value, s.rest);
      return;
    }
    if byte < 128 {
      value := byte;
      Powers();
      FitsSoFar(b, 1, 0, value);
      return;
    }
    GoOn(b, 5, 0, 0);
    var low: nat := byte % 128;
    ok, value := MoreGroups(s, b, low);
  }

  lemma Powers()
    ensures Power128(0) == 1 && Power128(1) == 128 && Power128(2) == 16384 && Power128(3) == 2097152
    ensures Power128(4) == 0x1000_0000
  {
    assert Power128(1) == 128 * Power128(0);
    assert Power128(3) == 128 * Power128(2);
  }

  /** Whatever is not a varint of five bytes or less is left open. */
  lemma LongIsOpen(b: Bytes, ok: bool, value: nat, rest: Bytes)
    requires DecodeVarint(b, 5).None?
    ensures Short(b, ok, value, rest)
  {
  }

  /** The varint ended with byte `k - 1`. */
  lemma FitsSoFar(b: Bytes, k: nat, sum: nat, value: nat)
    requires 1 <= k <= 5 && k <= |b| && b[k - 1] < 128 && GoesOn(b, 5, k - 1, sum) && sum < Power128(k - 1)
    requires value == (sum + Power128(k - 1) * b[k - 1] as int) % WORD && (k == 5 ==> b[k - 1] < 16)
    ensures Short(b, true, value, b[k..])
  {
    Powers();
    EndVarint(b, 5, k - 1, sum);
    Bounded(sum, Power128(k - 1), b[k - 1], k);
  }

  lemma Bounded(sum: nat, power: nat, byte: Byte, k: nat)
    requires sum < power && power <= 0x1000_0000 && byte < 128 && (power > 0x20_0000 ==> byte < 16)
    ensures sum + power * byte as int < WORD
  {
    if byte < 16 {
      assert power * byte as int <= 15 * power;
    } else {
      assert power * byte as int <= 127 * power;
    }
  }

  lemma FifthTooLarge(b: Bytes, sum: nat, value: nat, rest: Bytes)
    requires 5 <= |b| && 16 <= b[4] < 128 && GoesOn(b, 5, 4, sum)
    ensures Short(b, false, value, rest)
  {
    Powers();
    EndVarint(b, 5, 4, sum);
  }

  lemma GroupFits(sum: nat, power: nat, group: nat)
    requires sum < power && group < 128
    ensures sum + power * group < 128 * power
  {
    assert power * group <= power * 127;
  }

  /** `k` bytes have been read, all of them continued. */
  ghost predicate Going(b: Bytes, k: nat, sum: nat, value: nat, power: nat) {
    && power == Power128(k) && GoesOn(b, 5, k, sum) && value == sum % WORD && sum < power
    && k <= |b| && sum == GroupSum(b, k)
  }

  /** `byte`, the last of `k`, ended the varint. */
  ghost predicate Ended(b: Bytes, k: nat, sum: nat, value: nat, byte: Byte) {
    && 2 <= k <= |b| && b[k - 1] == byte < 128 && GoesOn(b, 5, k - 1, sum) && sum < Power128(k - 1)
    && value == (sum + Power128(k - 1) * byte as int) % WORD
  }

  lemma FirstGroup(b: Bytes)
    requires b != [] && b[0] >= 128
    ensures GroupSum(b, 1) == b[0] as int - 128
  {
    assert GroupSum(b, 0) == 0 && Power128(0) == 1;
  }

  lemma StillGoing(b: Bytes, k: nat, sum: nat, value: nat, power: nat, group: nat)
    requires 1 <= k < 5 && k < |b| && b[k] >= 128 && group == b[k] as int - 128 && Going(b, k, sum, value, power)
    ensures Going(b, k + 1, sum + power * group, (value + power * group) % WORD, 128 * power)
  {
    hide GoesOn;
    GoOn(b, 5, k, sum);
    GroupFits(sum, power, group);
    AddGroup32(sum, power * group);
    NextPower(k);
  }

  lemma EndsHere(b: Bytes, k: nat, sum: nat, value: nat, power: nat, byte: Byte)
    requires 1 <= k < |b| && b[k] == byte < 128 && Going(b, k, sum, value, power)
    ensures Ended(b, k + 1, sum, (value + power * byte as int) % WORD, byte)
  {
    hide GoesOn;
    AddGroup32(sum, power * byte as int);
  }

  lemma NotShort(b: Bytes, k: nat, sum: nat, value: nat, power: nat)
    requires Going(b, k, sum, value, power) && (k == 5 || k == |b|)
    ensures DecodeVarint(b, 5).None?
  {
    NoVarint(b, 5, k, sum);
  }

  lemma {:induction false} StopsAt(b: Bytes, n: nat)
    requires n <= |b| && (forall i :: 0 <= i < n ==> b[i] >= 128) && (n < |b| ==> b[n] < 128)
    ensures Stop(b) == n
  {
    if n > 0 {
      StopsAt(b[1..], n - 1);
    }
  }

  /** The first `k` bytes go on, and those after the fifth are padding. */
  ghost predicate Padded(b: Bytes, k: nat, value: nat, byte: Byte) {
    && 1 <= k <= |b| && b[k - 1] == byte && (forall i :: 0 <= i < k - 1 ==> b[i] >= 128)
    && (forall i :: 5 <= i < k ==> IsPadding(b, i, value))
    && (k > 5 || (k == 5 && byte >= 128) ==> value == LowBits(b))
  }

  lemma PaddedGroup(b: Bytes, k: nat, value: nat, byte: Byte, next: Byte, value': nat, sum: nat, power: nat)
    requires Padded(b, k, value, byte) && byte >= 128 && k < 5 && k < |b| && b[k] == next
    requires next >= 128 ==> Going(b, k + 1, sum, value', power)
    ensures Padded(b, k + 1, value', next)
  {
    hide GoesOn, GroupSum;
  }

  lemma LongEnds(b: Bytes, k: nat, value: nat, byte: Byte)
    requires Padded(b, k, value, byte) && byte < 128
    ensures Long(b, k != 5 || byte < 16, value, b[k..])
  {
    StopsAt(b, k - 1);
  }

  lemma LongBreaksOff(b: Bytes, k: nat, value: nat, byte: Byte, result: nat, rest: Bytes)
    requires Padded(b, k, value, byte) && byte >= 128
    requires k == |b| || (5 <= k < |b| && !IsPadding(b, k, value))
    ensures Long(b, false, result, rest)
  {
    if k == |b| {
      StopsAt(b, k);
    } else {
      StopsLater(b, k);
    }
  }

  /** The varint does not end before byte `k`. */
  lemma {:induction false} StopsLater(b: Bytes, k: nat)
    requires k <= |b| && forall i :: 0 <= i < k ==> b[i] >= 128
    ensures k <= Stop(b)
  {
    if k > 0 {
      StopsLater(b[1..], k - 1);
    }
  }

  /** The bytes after the first. */
  method MoreGroups(s: IStream, ghost b: Bytes, first: nat) returns (ok: bool, value: nat)
    requires |b| > 0 && s.rest == b[1..] && GoesOn(b, 5, 1, first) && first < 128 && first == b[0] as int - 128
    modifies s
    ensures ok ==> value < WORD
    ensures |s.rest| <= |old(s.rest)|
    ensures Short(b, ok, value, s.rest) && Long(b, ok, value, s.rest)
  {
    Powers();
    FirstGroup(b);
    hide DecodeVarint, Power128, GoesOn, Short, GroupSum, Long, IsPadding;
    value := first;
    ghost var sum: nat := first;
    var k: nat, power: nat, byte: Byte := 1, 128, 128 + first;
    assert Going(b, k, sum, value, power) && Padded(b, k, value, byte);
    hide Going, Ended, Padded;
    while byte >= 128
      invariant 1 <= k <= |b| && s.rest == b[k..] && value < WORD && Padded(b, k, value, byte)
      invariant k <= 5 && byte >= 128 ==> Going(b, k, sum, value, power)
      invariant k <= 5 && byte < 128 ==> Ended(b, k, sum, value, byte)
      invariant k > 5 ==> DecodeVarint(b, 5).None?
      decreases |s.rest|, byte
    {
      var more, next := s.ReadByte();
      if k == 5 || (k < 5 && !more) {
        NotShort(b, k, sum, value, power);
      }
      if !more {
        LongIsOpen(b, false, 0, s.rest);
        LongBreaksOff(b, k, value, byte, 0, s.rest);
        return false, 0;
      }
      if 7 * k >= 32 {
        var signExtension := if 7 * k < 63 then 0xff else 0x01;
        PadStep(b, k, value, byte, next);
        if next % 128 != 0 && (value < 0x8000_0000 || next != signExtension) {
          LongIsOpen(b, false, 0, s.rest);
          LongBreaksOff(b, k, value, byte, 0, s.rest);
          return false, 0;
        }
      } else {
        var group: nat := next % 128;
        GroupStep(b, k, sum, value, power, byte, next, group);
        sum := if next >= 128 then sum + power * group else sum;
        value, power := (value + power * group) % WORD, 128 * power;
      }
      k, byte := k + 1, next;
    }
    ok, value := FinishShort(b, k, sum, value, byte);
  }

  lemma PadStep(b: Bytes, k: nat, value: nat, byte: Byte, next: Byte)
    requires Padded(b, k, value, byte) && byte >= 128 && 5 <= k < |b| && b[k] == next
    ensures if next % 128 != 0 && (value < 0x8000_0000 || next != if 7 * k < 63 then 0xff else 0x01)
            then !IsPadding(b, k, value) else Padded(b, k + 1, value, next)
  {
  }

  lemma GroupStep(b: Bytes, k: nat, sum: nat, value: nat, power: nat, byte: Byte, next: Byte, group: nat)
    requires 1 <= k < 5 && k < |b| && b[k] == next && group == next as int % 128 && byte >= 128
    requires Going(b, k, sum, value, power) && Padded(b, k, value, byte)
    ensures Padded(b, k + 1, (value + power * group) % WORD, next)
    ensures next >= 128 ==> Going(b, k + 1, sum + power * group, (value + power * group) % WORD, 128 * power)
    ensures next < 128 ==> Ended(b, k + 1, sum, (value + power * group) % WORD, next)
  {
    hide Going, Ended, Padded;
    if next >= 128 {
      StillGoing(b, k, sum, value, power, group);
      PaddedGroup(b, k, value, byte, next, (value + power * group) % WORD, sum + power * group, 128 * power);
    } else {
      EndsHere(b, k, sum, value, power, next);
      PaddedGroup(b, k, value, byte, next, (value + power * group) % WORD, sum, power);
    }
  }

  /** A fifth byte has four bits to give. */
  method FinishShort(ghost b: Bytes, k: nat, ghost sum: nat, result: nat, byte: Byte) returns (ok: bool, value: nat)
    requires 1 <= k <= |b| && result < WORD && byte < 128 && Padded(b, k, result, byte)
    requires (if k <= 5 then Ended(b, k, sum, result, byte) else DecodeVarint(b, 5).None?)
    ensures (ok ==> value < WORD) && Short(b, ok, value, b[k..]) && Long(b, ok, value, b[k..])
  {
    hide DecodeVarint, Power128, GoesOn, Short, Long, Padded;
    value := result;
    LongEnds(b, k, result, byte);
    if k == 5 && byte >= 16 {
      FifthTooLarge(b, sum, value, b[k..]);
      return false, value;
    }
    ok := true;
    if k <= 5 {
      FitsSoFar(b, k, sum, value);
    } else {
      LongIsOpen(b, true, value, b[k..]);
    }
  }

  // --- tags, unknown fields, substreams -------------------------------------------------------------

  /** A 32-bit value arrives as it was encoded. */
  lemma ShortArrives(b: Bytes, v: nat, tail: Bytes, ok: bool, value: nat, rest: Bytes)
    requires Short(b, ok, value, rest) && b == EncodeVarint(v) + tail && v < WORD
    ensures ok && value == v && rest == tail
  {
    VarintFits(v);
    VarintRoundTrip(v, tail, 5);
    assert b[|EncodeVarint(v)|..] == tail;
  }

  /** pb_decode_tag: a zero ends the message. */
  method DecodeTag(s: IStream, ghost t: nat, ghost w: nat, ghost tail: Bytes)
      returns (ok: bool, wireType: nat, tag: nat, eof: bool)
    modifies s
    ensures |s.rest| <= |old(s.rest)| && (ok ==> |s.rest| < |old(s.rest)|)
    ensures old(s.rest) == TagBytes(t, w) + tail && 0 < t < 0x2000_0000 && w < 8 ==>
              ok && tag == t && wireType == w && s.rest == tail
  {
    hide Short;
    ghost var b := s.rest;
    var temp;
    ok, temp, eof := DecodeVarint32(s);
    if b == TagBytes(t, w) + tail && 0 < t < 0x2000_0000 && w < 8 {
      ShortArrives(b, 8 * t + w, tail, ok, temp, s.rest);
    }
    wireType, tag := 0, 0;
    if !ok {
      return;
    }
    if temp == 0 {
      ok, eof := false, true;
      return;
    }
    tag, wireType := temp / 8, temp % 8;
  }

  method SkipVarint(s: IStream) returns (ok: bool)
    modifies s
    ensures |s.rest| <= |old(s.rest)|
  {
    var byte: Byte := 128;
    ok := true;
    while byte >= 128
      invariant |s.rest| <= |old(s.rest)|
      decreases |s.rest|, byte
    {
      ok, byte := s.ReadByte();
      if !ok {
        return;
      }
    }
  }

  /** pb_skip_field, for fields the descriptor does not know. */
  method SkipField(s: IStream, wireType: nat) returns (ok: bool)
    modifies s
    ensures |s.rest| <= |old(s.rest)|
  {
    ok := false;
    var buf;
    if wireType == VARINT {
      ok := SkipVarint(s);
    } else if wireType == BITS64 {
      ok, buf := s.Read(8);
    } else if wireType == STRING {
      var length, eof;
      ok, length, eof := DecodeVarint32(s);
      if ok {
        ok, buf := s.Read(length);
      }
    } else if wireType == BITS32 {
      ok, buf := s.Read(4);
    }
  }

  /** Reads a length and takes that many bytes (pb_make_string_substream; pb_dec_bytes and its like). */
  method ReadLength(s: IStream, ghost content: Bytes, ghost tail: Bytes) returns (ok: bool, size: nat)
    modifies s
    ensures |s.rest| <= |old(s.rest)|
    ensures old(s.rest) == PutString(content) + tail && |content| < WORD ==>
              ok && size == |content| && s.rest == content + tail
  {
    hide Short;
    ghost var b := s.rest;
    var eof;
    ok, size, eof := DecodeVarint32(s);
    if b == PutString(content) + tail && |content| < WORD {
      assert b == EncodeVarint(|content|) + (content + tail);
      ShortArrives(b, |content|, content + tail, ok, size, s.rest);
    }
  }

  method MakeSubstream(s: IStream, ghost content: Bytes, ghost tail: Bytes) returns (ok: bool, sub: IStream)
    modifies s
    ensures fresh(sub) && |s.rest| <= |old(s.rest)|
    ensures old(s.rest) == PutString(content) + tail && |content| < WORD ==> ok && sub.rest == content && s.rest == tail
  {
    ghost var b := s.rest;
    var size;
    ok, size := ReadLength(s, content, tail);
    if !ok || |s.rest| < size {
      sub := new IStream([]);
      ok := false;
      return;
    }
    if b == PutString(content) + tail && |content| < WORD {
      assert (content + tail)[..|content|] == content && (content + tail)[|content|..] == tail;
    }
    sub := new IStream(s.rest[..size]);
    s.rest := s.rest[size..];
  }

  // --- numbers ---------------------------------------------------------------------------------------

  /** The low 32 bits of a number, as a signed number. */
  function Signed32(v: nat): int {
    var w := v % WORD;
    if w >= 0x8000_0000 then w - WORD else w
  }

  function Signed64(v: nat): int {
    var w := v % FIXED64;
    if w >= 0x8000_0000_0000_0000 then w - FIXED64 else w
  }

  function UnZigZag(v: nat): int {
    if v % 2 == 1 then -(v / 2) - 1 else v / 2
  }

  /** What a varint means to a field. */
  function Meaning(f: Field, v: nat): int {
    match f.kind
    case Varint => if f.dataSize == 8 then Signed64(v) else Signed32(v)
    case SVarint => UnZigZag(v)
    case _ => v
  }

  /** pb_dec_varint, pb_dec_uvarint, pb_dec_svarint: the number must fit the field. */
  method DecodeNumber(s: IStream, f: Field) returns (ok: bool, r: Value)
    requires f.kind.Varint? || f.kind.UVarint? || f.kind.SVarint?
    modifies s
    ensures |s.rest| <= |old(s.rest)|
    ensures var p := DecodeVarint(old(s.rest), 10);
      && (ok <==> p.Some? && IntOk(!f.kind.UVarint?, f.dataSize, Meaning(f, p.value.value % FIXED64)))
      && (ok ==> r == Num(Meaning(f, p.value.value % FIXED64)) && s.rest == old(s.rest)[p.value.used..])
  {
    hide DecodeVarint, Meaning, IntOk;
    var value;
    ok, value := DecodeVarintFrom(s);
    r := Num(0);
    if !ok {
      return;
    }
    var meaning := Meaning(f, value);
    ok := IntOk(!f.kind.UVarint?, f.dataSize, meaning);
    r := Num(meaning);
  }

  /** The varint a number is encoded as. */
  function AsVarint(f: Field, v: int): nat
    requires (f.kind.Varint? || f.kind.SVarint? || f.kind.UVarint?) && IntOk(!f.kind.UVarint?, f.dataSize, v)
  {
    if f.kind.Varint? then Unsigned(v) else if f.kind.SVarint? then ZigZag(v) else v
  }

  lemma NumberPayload(f: Field, v: Value)
    requires (f.kind.Varint? || f.kind.UVarint? || f.kind.SVarint?) && ValueOk(Held, f, v)
    ensures v.Num? && IntOk(!f.kind.UVarint?, f.dataSize, v.n) && Payload(f, v) == EncodeVarint(AsVarint(f, v.n))
    ensures AsVarint(f, v.n) < FIXED64
  {
  }

  /** A number arrives as it was encoded. */
  lemma NumberArrives(f: Field, v: Value, tail: Bytes)
    requires (f.kind.Varint? || f.kind.UVarint? || f.kind.SVarint?) && ValueOk(Held, f, v)
    ensures var p := DecodeVarint(Payload(f, v) + tail, 10);
      && p.Some? && Meaning(f, p.value.value % FIXED64) == v.n && IntOk(!f.kind.UVarint?, f.dataSize, v.n)
      && p.value.used <= |Payload(f, v) + tail| && (Payload(f, v) + tail)[p.value.used..] == tail
  {
    NumberPayload(f, v);
    hide ValueOk, Payload, EncodeVarint, Meaning, IntOk, DecodeVarint, AsVarint;
    var n := AsVarint(f, v.n);
    VarintFits(n);
    VarintRoundTrip(n, tail, 10);
    assert (EncodeVarint(n) + tail)[|EncodeVarint(n)|..] == tail;
    MeaningBack(f, v.n);
  }

  lemma MeaningBack(f: Field, v: int)
    requires (f.kind.Varint? || f.kind.UVarint? || f.kind.SVarint?) && IntOk(!f.kind.UVarint?, f.dataSize, v)
    ensures Meaning(f, AsVarint(f, v)) == v
  {
  }

  // --- strings ----------------------------------------------------------------------------------------

  /** A character array up to its first NUL. */
  function CString(b: Bytes): (r: Bytes)
    ensures 0 !in r && |r| <= |b| && (0 !in b ==> r == b)
  {
    if b == [] || b[0] == 0 then [] else
      assert 0 in b[1..] ==> 0 in b;
      assert b == [b[0]] + b[1..];
      [b[0]] + CString(b[1..])
  }

  predicate IsRaw(k: Nanopb.Kind) {
    k.ByteArray? || k.Text? || k.FixedBytes?
  }

  /** pb_dec_bytes, pb_dec_string, pb_dec_fixed_length_bytes. */
  method DecodeRaw(s: IStream, f: Field, ghost v: Value, ghost tail: Bytes) returns (ok: bool, r: Value)
    requires FieldOk(f) && IsRaw(f.kind)
    modifies s
    ensures |s.rest| <= |old(s.rest)|
    ensures ok ==> ValueOk(Sendable, f, r)
    ensures ValueOk(Sendable, f, v) && v.Raw? && old(s.rest) == PutString(v.bytes) + tail && |v.bytes| < WORD ==>
              ok && r == v && s.rest == tail
  {
    ghost var expected := ValueOk(Sendable, f, v) && v.Raw? && s.rest == PutString(v.bytes) + tail && |v.bytes| < WORD;
    ghost var content := if v.Raw? then v.bytes else [];
    r := Raw([]);
    var size;
    ok, size := ReadLength(s, content, tail);
    if !ok {
      return;
    }
    if f.kind.ByteArray? {
      if size + BYTES_HEADER > f.dataSize {
        return false, r;
      }
    } else if f.kind.Text? {
      if size + 1 > f.dataSize {
        return false, r;
      }
    } else {
      if size == 0 {
        r := Raw(Zeros(f.dataSize));
        assert expected ==> content == [] && content + tail == tail;
        return;
      }
      if size != f.dataSize {
        return false, r;
      }
    }
    assert expected ==> (content + tail)[..size] == content && (content + tail)[size..] == tail;
    var buf;
    ok, buf := s.Read(size);
    r := Raw(if f.kind.Text? then CString(buf) else buf);
  }

  // --- values -------------------------------------------------------------------------------------------

  /** The payload of `v` comes next.  A submessage that is not an array entry is read into `base`. */
  ghost predicate Arrives(f: Field, base: Value, v: Value, tail: Bytes, bytes: Bytes) {
    && ValueOk(Held, f, v) && ValueOk(Sendable, f, v) && bytes == Payload(f, v) + tail && |Payload(f, v)| < WORD
    && (f.kind.Submessage? && !IsArray(f) ==> base == InitValue(f))
  }

  method DecodeScalar(s: IStream, f: Field, ghost v: Value, ghost tail: Bytes) returns (ok: bool, r: Value)
    requires FieldOk(f) && !f.kind.Submessage?
    modifies s
    ensures |s.rest| <= |old(s.rest)|
    ensures ok ==> ValueOk(Sendable, f, r)
    ensures Arrives(f, v, v, tail, old(s.rest)) ==> ok && r == v && s.rest == tail
  {
    hide DecodeVarint, Short, Meaning;
    ghost var b := s.rest;
    ghost var expected := Arrives(f, v, v, tail, b);
    var buf, value, eof;
    match f.kind {
      case Boolean =>
        ok, value, eof := DecodeVarint32(s);
        if expected {
          ShortArrives(b, v.n, tail, ok, value, s.rest);
        }
        r := Num(if value != 0 then 1 else 0);
      case Varint =>
        ok, r := DecodeNumber(s, f);
        if expected { NumberArrives(f, v, tail); }
      case UVarint =>
        ok, r := DecodeNumber(s, f);
        if expected { NumberArrives(f, v, tail); }
      case SVarint =>
        ok, r := DecodeNumber(s, f);
        if expected { NumberArrives(f, v, tail); }
      case Fixed32 =>
        ok, buf := s.Read(4);
        if expected { assert b[..4] == EncodeFixed32(v.n) && b[4..] == tail; }
        r := Num(if ok then DecodeFixed32(buf) else 0);
      case Fixed64 =>
        ok, buf := s.Read(8);
        if expected { assert b[..8] == EncodeFixed64(v.n) && b[8..] == tail; }
        r := Num(if ok then DecodeFixed64(buf) else 0);
      case ByteArray => ok, r := DecodeRaw(s, f, v, tail);
      case Text => ok, r := DecodeRaw(s, f, v, tail);
      case FixedBytes => ok, r := DecodeRaw(s, f, v, tail);
    }
  }

  // --- packed arrays ---------------------------------------------------------------------------------------

  lemma {:induction false} PayloadsFront(f: Field, items: seq<Value>)
    requires items != [] && AllOk(Held, f, items)
    ensures AllOk(Held, f, items[1..]) && Payloads(f, items) == Payload(f, items[0]) + Payloads(f, items[1..])
    decreases |items|
  {
    hide Payload, ValueOk;
    var n := |items| - 1;
    if n == 0 {
      assert items[..0] == [] && items[1..] == [];
      NanopbEncode.NoPayloads(f);
    } else {
      var init := items[..n];
      PayloadsFront(f, init);
      assert init[0] == items[0] && items[1..][..n - 1] == init[1..] && items[1..][n - 1] == items[n];
    }
  }

  lemma PayloadSome(f: Field, v: Value)
    requires Packable(f.kind) && ValueOk(Held, f, v)
    ensures Payload(f, v) != []
  {
  }

  /** Entries from `k` on are still to come. */
  ghost predicate ItemsLeft(desc: Desc, e: Dest, j: nat, items: seq<Value>, k: nat, d: Dest, rest: Bytes)
    requires j < |desc.fields| == |e.slots|
  {
    && k <= |items| && AllOk(Held, desc.fields[j], items) && rest == Payloads(desc.fields[j], items[k..])
    && d == PutItems(desc, e, j, items[..k]) && Filled(desc, d, j) == Filled(desc, e, j) + k
  }

  ghost predicate PackedArrives(desc: Desc, e: Dest, j: nat, items: seq<Value>, tail: Bytes, bytes: Bytes)
    requires j < |desc.fields| == |e.slots|
  {
    && AllOk(Held, desc.fields[j], items) && AllOk(Sendable, desc.fields[j], items)
    && Filled(desc, e, j) + |items| <= desc.fields[j].arraySize
    && bytes == PutString(Payloads(desc.fields[j], items)) + tail && |Payloads(desc.fields[j], items)| < WORD
  }

  lemma NextItem(desc: Desc, e: Dest, j: nat, items: seq<Value>, k: nat, d: Dest, rest: Bytes)
    requires j < |desc.fields| == |e.slots| && Packable(desc.fields[j].kind)
    requires ItemsLeft(desc, e, j, items, k, d, rest) && AllOk(Sendable, desc.fields[j], items) && |rest| < WORD
    ensures rest != [] <==> k < |items|
    ensures k < |items| ==>
      && AllOk(Held, desc.fields[j], items[k + 1..])
      && Arrives(desc.fields[j], items[k], items[k], Payloads(desc.fields[j], items[k + 1..]), rest)
  {
    hide ValueOk, Payload, Payloads, PutItems;
    var f := desc.fields[j];
    if k < |items| {
      assert items[k..][0] == items[k] && items[k..][1..] == items[k + 1..];
      PayloadsFront(f, items[k..]);
      PayloadSome(f, items[k]);
    } else {
      assert items[k..] == [];
      NanopbEncode.NoPayloads(f);
    }
  }

  lemma TakenItem(desc: Desc, e: Dest, j: nat, items: seq<Value>, k: nat, d: Dest, rest: Bytes)
    requires j < |desc.fields| == |e.slots| && ItemsLeft(desc, e, j, items, k, d, rest) && k < |items|
    requires Filled(desc, PutItem(desc, d, j, items[k]), j) == Filled(desc, d, j) + 1
    requires AllOk(Held, desc.fields[j], items[k + 1..])
    ensures ItemsLeft(desc, e, j, items, k + 1, PutItem(desc, d, j, items[k]), Payloads(desc.fields[j], items[k + 1..]))
  {
    hide ValueOk, Payloads;
    assert items[..k + 1][..k] == items[..k] && items[..k + 1][k] == items[k];
  }

  /** The packed case of decode_static_field: entries until the substream ends or the array is full. */
  method DecodePacked(s: IStream, desc: Desc, j: nat, e: Dest, ghost items: seq<Value>, ghost tail: Bytes)
      returns (ok: bool, d: Dest)
    requires DescOk(desc) && DestOk(desc, e) && j < |desc.fields| && IsArray(desc.fields[j])
    requires Packable(desc.fields[j].kind)
    requires desc.fields[j].rule.FixedCount? ==> e.fixed == Some(j)
    modifies s
    ensures |s.rest| <= |old(s.rest)|
    ensures ok ==> DestOk(desc, d)
    ensures PackedArrives(desc, e, j, items, tail, old(s.rest)) ==>
              ok && d == PutItems(desc, e, j, items) && s.rest == tail
  {
    hide ValueOk, Payloads, Payload, MessageOk, PutItems, PutItem, Arrives;
    var f := desc.fields[j];
    ghost var expected := PackedArrives(desc, e, j, items, tail, s.rest);
    d := e;
    var sub;
    ok, sub := MakeSubstream(s, if AllOk(Held, f, items) then Payloads(f, items) else [], tail);
    if !ok {
      return;
    }
    ghost var after, k := s.rest, 0;
    if expected {
      StartItems(desc, e, j, items, sub.rest);
    }
    while sub.rest != [] && Filled(desc, d, j) < f.arraySize
      invariant s.rest == after && DestOk(desc, d) && (f.rule.FixedCount? ==> d.fixed == Some(j))
      invariant expected ==> ItemsLeft(desc, e, j, items, k, d, sub.rest) && |sub.rest| < WORD
      decreases f.arraySize - Filled(desc, d, j)
    {
      if expected {
        NextItem(desc, e, j, items, k, d, sub.rest);
      }
      ghost var want, more := Num(0), [];
      if expected {
        want, more := items[k], Payloads(f, items[k + 1..]);
      }
      ghost var was := sub.rest;
      var v;
      ok, v := DecodeScalar(sub, f, want, more);
      if !ok {
        break;
      }
      PutItemOk(desc, d, j, v);
      if expected {
        TakenItem(desc, e, j, items, k, d, was);
        k := k + 1;
      }
      d := PutItem(desc, d, j, v);
    }
    if expected {
      NextItem(desc, e, j, items, k, d, sub.rest);
      assert items[..|items|] == items;
    }
    if sub.rest != [] {
      ok := false;
    }
  }

  lemma StartItems(desc: Desc, e: Dest, j: nat, items: seq<Value>, rest: Bytes)
    requires j < |desc.fields| == |e.slots| && AllOk(Held, desc.fields[j], items)
    requires rest == Payloads(desc.fields[j], items)
    ensures ItemsLeft(desc, e, j, items, 0, e, rest)
  {
    assert items[0..] == items && items[..0] == [];
  }

  // --- records ---------------------------------------------------------------------------------------------

  ghost function RecordWire(desc: Desc, r: Record): nat
    requires r.field < |desc.fields|
  {
    if r.Packed? then STRING else WireType(desc.fields[r.field].kind)
  }

  /** A record without its tag. */
  ghost function RecordBody(desc: Desc, r: Record): Bytes
    requires RecordOk(Held, desc, r)
  {
    var f := desc.fields[r.field];
    match r
    case Single(_, v) => Payload(f, v)
    case Item(_, v) => Payload(f, v)
    case Packed(_, items) => PutString(Payloads(f, items))
  }

  lemma RecordParts(desc: Desc, r: Record)
    requires RecordOk(Held, desc, r)
    ensures RecordBytes(desc, r) == TagBytes(desc.fields[r.field].tag, RecordWire(desc, r)) + RecordBody(desc, r)
    ensures RecordWire(desc, r) < 8
  {
  }

  /** The body of record `r` comes next, and the structure is ready for it. */
  ghost predicate Comes(desc: Desc, e: Dest, j: nat, r: Record, wireType: nat, tail: Bytes, bytes: Bytes) {
    && r.field == j < |desc.fields| == |e.slots| && RecordOk(Held, desc, r) && RecordOk(Sendable, desc, r)
    && Fits(desc, e, r)
    && wireType == RecordWire(desc, r) && bytes == RecordBody(desc, r) + tail && |RecordBody(desc, r)| < WORD
  }

  /** What a submessage, or a value, is read into. */
  function BaseValue(f: Field, s: Slot): Value {
    match s
    case One(v) => v
    case Opt(o) => if o.Some? then o.value else InitValue(f)
    case Many(_) => InitValue(f)
  }

  lemma BaseOk(desc: Desc, e: Dest, j: nat)
    requires DescOk(desc) && DestOk(desc, e) && j < |desc.fields|
    ensures FieldOk(desc.fields[j]) && ValueOk(Sendable, desc.fields[j], BaseValue(desc.fields[j], e.slots[j]))
  {
    assert SlotOk(Sendable, desc.fields[j], e.slots[j]);
    InitOk(desc.fields[j]);
  }

  lemma ValueComes(desc: Desc, e: Dest, j: nat, r: Record, wireType: nat, tail: Bytes, bytes: Bytes)
    requires Comes(desc, e, j, r, wireType, tail, bytes) && !r.Packed?
    ensures Arrives(desc.fields[j], BaseValue(desc.fields[j], e.slots[j]), r.v, tail, bytes)
  {
    hide ValueOk, Payload;
  }

  /** decode_static_field. */
  method DecodeField(s: IStream, desc: Desc, j: nat, wireType: nat, e: Dest, ghost r: Record, ghost tail: Bytes)
      returns (ok: bool, d: Dest)
    requires DescOk(desc) && DestOk(desc, e) && j < |desc.fields|
    requires (desc.fields[j].rule.FixedCount? ==> e.fixed == Some(j))
    modifies s
    ensures |s.rest| <= |old(s.rest)|
    ensures ok ==> DestOk(desc, d)
    ensures Comes(desc, e, j, r, wireType, tail, old(s.rest)) ==> ok && d == Put(desc, e, r) && s.rest == tail
    decreases desc, 0, 0
  {
    hide ValueOk, Payload, MessageOk, PutItems, PutItem, PutSingle, RecordOk, DescOk, Arrives;
    var f := desc.fields[j];
    ghost var expected := Comes(desc, e, j, r, wireType, tail, s.rest);
    BaseOk(desc, e, j);
    d := e;
    if IsArray(f) && wireType == STRING && Packable(f.kind) {
      if expected {
        ArrayComes(desc, e, j, r, wireType, tail, s.rest);
      }
      ok, d := DecodePacked(s, desc, j, e, if r.Packed? then r.items else [], tail);
      return;
    }
    ghost var want := if r.Packed? then Num(0) else r.v;
    if expected {
      NotPackedComes(desc, e, j, r, wireType, tail, s.rest);
      ValueComes(desc, e, j, r, wireType, tail, s.rest);
    }
    if IsArray(f) && Filled(desc, e, j) >= f.arraySize {
      return false, d;
    }
    var v;
    ok, v := DecodeValue(s, f, BaseValue(f, e.slots[j]), want, tail);
    if !ok {
      return;
    }
    if IsArray(f) {
      PutItemOk(desc, e, j, v);
      d := PutItem(desc, e, j, v);
    } else {
      PutSingleOk(desc, e, j, v);
      d := PutSingle(desc, e, j, v);
    }
  }

  lemma ArrayComes(desc: Desc, e: Dest, j: nat, r: Record, wireType: nat, tail: Bytes, bytes: Bytes)
    requires Comes(desc, e, j, r, wireType, tail, bytes) && IsArray(desc.fields[j]) && Packable(desc.fields[j].kind)
    ensures r.Packed? && PackedArrives(desc, e, j, r.items, tail, bytes)
  {
    hide ValueOk, Payloads;
  }

  lemma NotPackedComes(desc: Desc, e: Dest, j: nat, r: Record, wireType: nat, tail: Bytes, bytes: Bytes)
    requires Comes(desc, e, j, r, wireType, tail, bytes)
    requires !(IsArray(desc.fields[j]) && wireType == STRING && Packable(desc.fields[j].kind))
    ensures !r.Packed? && (r.Item? <==> IsArray(desc.fields[j]))
    ensures (IsArray(desc.fields[j]) ==> Filled(desc, e, j) < desc.fields[j].arraySize)
  {
  }

  // --- values and messages ------------------------------------------------------------------------------------

  /** PB_DECODERS.  An array entry that is a message starts from its defaults. */
  method DecodeValue(s: IStream, f: Field, base: Value, ghost v: Value, ghost tail: Bytes) returns (ok: bool, r: Value)
    requires FieldOk(f) && ValueOk(Sendable, f, base)
    modifies s
    ensures |s.rest| <= |old(s.rest)|
    ensures ok ==> ValueOk(Sendable, f, r)
    ensures Arrives(f, base, v, tail, old(s.rest)) ==> ok && r == v && s.rest == tail
    decreases f, 0, 0
  {
    if !f.kind.Submessage? {
      ok, r := DecodeScalar(s, f, v, tail);
      return;
    }
    hide MessageOk, Encoding;
    var desc := f.kind.desc;
    ghost var expected := Arrives(f, base, v, tail, s.rest);
    ghost var content, m := [], [];
    if expected {
      content, m := Encoding(desc, v.slots), v.slots;
    }
    var sub;
    ok, sub := MakeSubstream(s, content, tail);
    if !ok {
      return false, base;
    }
    ghost var after := s.rest;
    var slots;
    ghost var got;
    DefaultsOk(desc);
    ok, slots, got := DecodeMessage(sub, desc, if IsArray(f) then Defaults(desc, |desc.fields|) else base.slots, m);
    r := Msg(slots);
  }

  /** pb_field_iter_find: from the current field on, around to it again. */
  method FindField(desc: Desc, start: nat, tag: nat) returns (found: bool, pos: nat)
    requires start < |desc.fields| || start == 0
    ensures found <==> exists i :: 0 <= i < |desc.fields| && desc.fields[i].tag == tag
    ensures found ==> pos < |desc.fields| && desc.fields[pos].tag == tag
    ensures !found ==> pos == start
  {
    pos := start;
    if |desc.fields| == 0 {
      return false, pos;
    }
    var n := 0;
    while n < |desc.fields|
      invariant n <= |desc.fields| && pos < |desc.fields|
      invariant pos == if start + n < |desc.fields| then start + n else start + n - |desc.fields|
      invariant forall i :: start <= i < start + n && i < |desc.fields| ==> desc.fields[i].tag != tag
      invariant forall i :: 0 <= i < start + n - |desc.fields| ==> desc.fields[i].tag != tag
    {
      if desc.fields[pos].tag == tag {
        return true, pos;
      }
      pos := if pos + 1 < |desc.fields| then pos + 1 else 0;
      n := n + 1;
    }
    found := false;
  }

  // --- required fields ------------------------------------------------------------------------------------------

  const MAX_REQUIRED: nat := 64

  /** required_field_index: how many required fields come before field `j`. */
  function RequiredIndex(desc: Desc, j: nat): (n: nat)
    requires j <= |desc.fields|
    ensures n <= j
  {
    if j == 0 then 0 else RequiredIndex(desc, j - 1) + (if desc.fields[j - 1].rule.Required? then 1 else 0)
  }

  lemma {:induction false} RequiredRises(desc: Desc, i: nat, j: nat)
    requires i < j <= |desc.fields| && desc.fields[i].rule.Required?
    ensures RequiredIndex(desc, i) < RequiredIndex(desc, j)
  {
    if i < j - 1 {
      RequiredRises(desc, i, j - 1);
    }
  }

  lemma {:induction false} RequiredAt(desc: Desc, j: nat, i: nat) returns (k: nat)
    requires j <= |desc.fields| && i < RequiredIndex(desc, j)
    ensures k < j && desc.fields[k].rule.Required? && RequiredIndex(desc, k) == i
  {
    if i < RequiredIndex(desc, j - 1) {
      k := RequiredAt(desc, j - 1, i);
    } else {
      k := j - 1;
    }
  }

  ghost predicate Counts(desc: Desc, j: nat) {
    j < |desc.fields| && desc.fields[j].rule.Required? && RequiredIndex(desc, j) < MAX_REQUIRED
  }

  /** `seen` is the bitmap for the fields in `got`. */
  ghost predicate SeenOk(desc: Desc, got: set<nat>, seen: set<nat>) {
    && (forall j :: j in got && Counts(desc, j) ==> RequiredIndex(desc, j) in seen)
    && (forall i :: i in seen ==> exists j :: j in got && Counts(desc, j) && RequiredIndex(desc, j) == i)
  }

  lemma SeenOne(desc: Desc, got: set<nat>, seen: set<nat>, j: nat)
    requires SeenOk(desc, got, seen) && j < |desc.fields|
    ensures SeenOk(desc, got + {j}, if Counts(desc, j) then seen + {RequiredIndex(desc, j)} else seen)
  {
    var seen' := if Counts(desc, j) then seen + {RequiredIndex(desc, j)} else seen;
    forall i | i in seen' ensures exists k :: k in got + {j} && Counts(desc, k) && RequiredIndex(desc, k) == i {
      if i in seen {
        var k :| k in got && Counts(desc, k) && RequiredIndex(desc, k) == i;
        assert k in got + {j};
      } else {
        assert j in got + {j} && Counts(desc, j) && RequiredIndex(desc, j) == i;
      }
    }
  }

  lemma AllSeen(desc: Desc, got: set<nat>, seen: set<nat>, j: nat)
    requires SeenOk(desc, got, seen) && Counts(desc, j) && RequiredIndex(desc, j) in seen
    ensures j in got
  {
    var k :| k in got && Counts(desc, k) && RequiredIndex(desc, k) == RequiredIndex(desc, j);
    if k < j {
      RequiredRises(desc, k, j);
    } else if j < k {
      RequiredRises(desc, j, k);
    }
  }

  /** The check at the end of pb_decode_noinit. */
  method RequiredPresent(desc: Desc, seen: set<nat>, ghost got: set<nat>) returns (ok: bool)
    requires SeenOk(desc, got, seen)
    ensures ok <==> forall j :: Counts(desc, j) ==> j in got
  {
    var count := RequiredIndex(desc, |desc.fields|);
    if count > MAX_REQUIRED {
      count := MAX_REQUIRED;
    }
    var i := 0;
    while i < count
      invariant 0 <= i <= count && forall k :: 0 <= k < i ==> k in seen
    {
      if i !in seen {
        ghost var j := RequiredAt(desc, |desc.fields|, i);
        assert Counts(desc, j) && j !in got;
        return false;
      }
      i := i + 1;
    }
    forall j | Counts(desc, j) ensures j in got {
      RequiredRises(desc, j, |desc.fields|);
      AllSeen(desc, got, seen, j);
    }
    ok := true;
  }

  // --- the encoding of a message, record by record ------------------------------------------------------------------

  ghost predicate Expects(desc: Desc, slots: seq<Slot>, m: seq<Slot>, bytes: Bytes) {
    && slots == DefaultsOf(desc) && MessageOk(Held, desc, m) && MessageOk(Sendable, desc, m)
    && bytes == Encoding(desc, m) && |bytes| < WORD
  }

  /** Reading the records `todo` completes the message. */
  ghost predicate OnTrack(desc: Desc, m: seq<Slot>, todo: seq<Record>, d: Dest, rest: Bytes) {
    && RecordsOk(Held, desc, todo) && RecordsOk(Sendable, desc, todo) && Legal(desc, d, todo)
    && Run(desc, d, todo).slots == m && FixedDone(desc, Run(desc, d, todo))
    && rest == RecordsBytes(desc, todo) && |rest| < WORD
  }

  lemma Begin(desc: Desc, m: seq<Slot>, bytes: Bytes)
    requires DescOk(desc) && Expects(desc, DefaultsOf(desc), m, bytes)
    ensures OnTrack(desc, m, Records(desc, m, |m|), Dest(DefaultsOf(desc), None, 0), bytes)
  {
    hide DescOk, MessageOk, Legal, Run, RecordsBytes, RecordsOk;
    RecordsRestore(desc, m);
    MessageRecordsOk(Sendable, desc, m, |m|);
    NanopbEncode.WholeMessage(desc, m);
  }

  /** The next record, its tag and its body. */
  ghost predicate Heads(desc: Desc, todo: seq<Record>, d: Dest, rest: Bytes) {
    && todo != [] && RecordsOk(Held, desc, todo) && Applies(desc, d, todo[0])
    && rest == TagBytes(desc.fields[todo[0].field].tag, RecordWire(desc, todo[0]))
               + (RecordBody(desc, todo[0]) + RecordsBytes(desc, todo[1..]))
    && Comes(desc, Focus(desc, d, todo[0].field), todo[0].field, todo[0], RecordWire(desc, todo[0]),
             RecordsBytes(desc, todo[1..]), RecordBody(desc, todo[0]) + RecordsBytes(desc, todo[1..]))
  }

  lemma Head(desc: Desc, m: seq<Slot>, todo: seq<Record>, d: Dest, rest: Bytes)
    requires OnTrack(desc, m, todo, d, rest)
    ensures rest == [] <==> todo == []
    ensures rest != [] ==> Heads(desc, todo, d, rest)
    ensures rest != [] ==> OnTrack(desc, m, todo[1..], Apply(desc, d, todo[0]), RecordsBytes(desc, todo[1..]))
  {
    hide RecordBytes, RecordOk, FixedDone, RecordBody;
    if todo == [] {
      NanopbEncode.NoRecords(desc);
    } else {
      var r, more := todo[0], todo[1..];
      assert todo == [r] + more;
      NanopbEncode.RecordsConcat(desc, [r], more);
      NanopbEncode.RecordsOne(desc, r);
      RecordParts(desc, r);
      Regroup(TagBytes(desc.fields[r.field].tag, RecordWire(desc, r)), RecordBody(desc, r), RecordsBytes(desc, more));
      assert TagBytes(desc.fields[r.field].tag, RecordWire(desc, r)) != [];
    }
  }

  lemma Regroup(a: Bytes, b: Bytes, c: Bytes)
    ensures (a + b) + c == a + (b + c)
  {
  }

  // --- the loop over records -----------------------------------------------------------------------------------

  datatype Status = More | Done | Failed

  lemma TagIs(desc: Desc, i: nat, j: nat)
    requires DescOk(desc) && i < |desc.fields| && j < |desc.fields| && desc.fields[i].tag == desc.fields[j].tag
    ensures i == j
  {
  }

  lemma HeadTag(desc: Desc, todo: seq<Record>, d: Dest, rest: Bytes)
    requires DescOk(desc) && Heads(desc, todo, d, rest)
    ensures todo[0].field < |desc.fields| && 0 < desc.fields[todo[0].field].tag < 0x2000_0000
    ensures RecordWire(desc, todo[0]) < 8
    ensures desc.fields[todo[0].field].rule.FixedCount? && d.fixed != Some(todo[0].field) ==> FixedDone(desc, d)
  {
    hide RecordsBytes, RecordBody, Comes;
    assert FieldOk(desc.fields[todo[0].field]);
    RecordParts(desc, todo[0]);
  }

  /** One round of pb_decode_noinit: a tag, and the field it names. */
  method DecodeOne(s: IStream, desc: Desc, pos0: nat, d0: Dest, seen0: set<nat>, ghost got0: set<nat>,
                   ghost todo: seq<Record>)
      returns (status: Status, pos: nat, d: Dest, seen: set<nat>, ghost got: set<nat>)
    requires DescOk(desc) && DestOk(desc, d0) && SeenOk(desc, got0, seen0) && (pos0 < |desc.fields| || pos0 == 0)
    modifies s
    ensures |s.rest| <= |old(s.rest)| && (status.More? ==> |s.rest| < |old(s.rest)|)
    ensures !status.Failed? ==> DestOk(desc, d) && SeenOk(desc, got, seen) && got0 <= got
    ensures !status.Failed? ==> pos < |desc.fields| || pos == 0
    ensures Heads(desc, todo, d0, old(s.rest)) ==>
      status.More? && d == Apply(desc, d0, todo[0]) && s.rest == RecordsBytes(desc, todo[1..]) && todo[0].field in got
    decreases desc, 0, 1
  {
    hide DescOk, MessageOk, RecordsBytes, RecordBody, Comes, Put, SeenOk, TagBytes, Counts;
    ghost var expected := Heads(desc, todo, d0, s.rest);
    ghost var t, w, tail, r := 0, 0, [], Single(0, Num(0));
    if expected {
      HeadTag(desc, todo, d0, s.rest);
      r := todo[0];
      t, w, tail := desc.fields[r.field].tag, RecordWire(desc, r), RecordsBytes(desc, todo[1..]);
    }
    pos, d, seen, got := pos0, d0, seen0, got0;
    var wireType, tag, eof, found;
    var ok;
    ok, wireType, tag, eof := DecodeTag(s, t, w, if expected then RecordBody(desc, r) + tail else []);
    if !ok {
      status := if eof then Done else Failed;
      return;
    }
    found, pos := FindField(desc, pos0, tag);
    if !found {
      ok := SkipField(s, wireType);
      status := if ok then More else Failed;
      return;
    }
    if expected {
      TagIs(desc, pos, r.field);
    }
    if desc.fields[pos].rule.FixedCount? && d.fixed.Some? && d.fixed != Some(pos)
       && d.count != desc.fields[d.fixed.value].arraySize {
      status := Failed;
      return;
    }
    FocusOk(desc, d, pos);
    SeenNext(desc, got, seen, pos);
    if desc.fields[pos].rule.Required? && RequiredIndex(desc, pos) < MAX_REQUIRED {
      seen := seen + {RequiredIndex(desc, pos)};
    }
    got := got + {pos};
    ok, d := DecodeField(s, desc, pos, wireType, Focus(desc, d, pos), r, tail);
    status := if ok then More else Failed;
  }

  lemma SeenNext(desc: Desc, got: set<nat>, seen: set<nat>, j: nat)
    requires SeenOk(desc, got, seen) && j < |desc.fields|
    ensures SeenOk(desc, got + {j},
                   if desc.fields[j].rule.Required? && RequiredIndex(desc, j) < MAX_REQUIRED
                   then seen + {RequiredIndex(desc, j)} else seen)
  {
    SeenOne(desc, got, seen, j);
  }

  /** Every required field has been read or is still to come. */
  ghost predicate ToCome(desc: Desc, got: set<nat>, todo: seq<Record>) {
    forall j :: Counts(desc, j) && j !in got ==> InRecords(todo, j)
  }

  ghost predicate InRecords(rs: seq<Record>, j: nat) {
    exists i :: 0 <= i < |rs| && rs[i].field == j
  }

  lemma {:induction false} RequiredSent(desc: Desc, m: seq<Slot>, n: nat, j: nat)
    requires MessageOk(Held, desc, m) && j < n <= |m| && desc.fields[j].rule.Required?
    ensures InRecords(Records(desc, m, n), j)
  {
    var rs, ts := Records(desc, m, n - 1), FieldRecords(desc.fields[n - 1], n - 1, m[n - 1]);
    if j == n - 1 {
      assert SlotOk(Held, desc.fields[j], m[j]);
      assert (rs + ts)[|rs|] == ts[0];
    } else {
      RequiredSent(desc, m, n - 1, j);
      var i :| 0 <= i < |rs| && rs[i].field == j;
      assert (rs + ts)[i] == rs[i];
    }
  }

  lemma AllToCome(desc: Desc, m: seq<Slot>)
    requires MessageOk(Held, desc, m)
    ensures ToCome(desc, {}, Records(desc, m, |m|))
  {
    forall j | Counts(desc, j) ensures InRecords(Records(desc, m, |m|), j) {
      RequiredSent(desc, m, |m|, j);
    }
  }

  lemma OneCame(desc: Desc, got: set<nat>, got': set<nat>, todo: seq<Record>)
    requires ToCome(desc, got, todo) && todo != [] && got <= got' && todo[0].field in got'
    ensures ToCome(desc, got', todo[1..])
  {
    forall j | Counts(desc, j) && j !in got' ensures InRecords(todo[1..], j) {
      var i :| 0 <= i < |todo| && todo[i].field == j;
      assert todo[1..][i - 1].field == j;
    }
  }

  lemma NothingToCome(desc: Desc, got: set<nat>)
    requires ToCome(desc, got, [])
    ensures forall j :: Counts(desc, j) ==> j in got
  {
    assert forall j :: !InRecords([], j);
  }

  /**
   pb_decode_noinit.  Whatever the input, success leaves a structure within its bounds,
   with every required field read.  From the encoding of a message, read into a
   structure at its defaults, it restores the message and consumes every byte.
   */
  method DecodeMessage(s: IStream, desc: Desc, slots0: seq<Slot>, ghost m: seq<Slot>)
      returns (ok: bool, slots: seq<Slot>, ghost got: set<nat>)
    requires DescOk(desc) && MessageOk(Sendable, desc, slots0)
    modifies s
    ensures |s.rest| <= |old(s.rest)|
    ensures ok ==> MessageOk(Sendable, desc, slots)
    ensures ok ==> forall j :: Counts(desc, j) ==> j in got
    ensures Expects(desc, slots0, m, old(s.rest)) ==> ok && slots == m && s.rest == []
    decreases desc, 1, 0
  {
    SlotCount(desc, slots0);
    hide DescOk, MessageOk, Encoding, Records, RecordsBytes, Legal, Run, Apply, SeenOk, OnTrack, Heads, ToCome, Counts;
    ghost var expected := Expects(desc, slots0, m, s.rest);
    ghost var todo := [];
    slots, got := slots0, {};
    var d, seen, pos: nat := Dest(slots0, None, 0), {}, 0;
    NothingSeen(desc);
    if expected {
      todo := Records(desc, m, |m|);
      Begin(desc, m, s.rest);
      AllToCome(desc, m);
    }
    while s.rest != []
      invariant |s.rest| <= |old(s.rest)| && (pos < |desc.fields| || pos == 0)
      invariant DestOk(desc, d) && SeenOk(desc, got, seen)
      invariant expected ==> OnTrack(desc, m, todo, d, s.rest) && ToCome(desc, got, todo)
      decreases |s.rest|
    {
      if expected {
        Head(desc, m, todo, d, s.rest);
      }
      ghost var before := got;
      var status;
      status, pos, d, seen, got := DecodeOne(s, desc, pos, d, seen, got, todo);
      if status.Failed? {
        return false, slots, got;
      }
      if status.Done? {
        break;
      }
      if expected {
        OneCame(desc, before, got, todo);
        todo := todo[1..];
      }
    }
    slots := d.slots;
    if expected {
      Finished(desc, m, todo, d, s.rest);
      NothingToCome(desc, got);
    }
    if d.fixed.Some? && d.count != desc.fields[d.fixed.value].arraySize {
      return false, slots, got;
    }
    ok := RequiredPresent(desc, seen, got);
  }

  lemma SlotCount(desc: Desc, slots: seq<Slot>)
    requires MessageOk(Sendable, desc, slots)
    ensures |slots| == |desc.fields|
  {
  }

  lemma NothingSeen(desc: Desc)
    ensures SeenOk(desc, {}, {})
  {
  }

  lemma Finished(desc: Desc, m: seq<Slot>, todo: seq<Record>, d: Dest, rest: Bytes)
    requires OnTrack(desc, m, todo, d, rest) && rest == []
    ensures todo == [] && d.slots == m && FixedDone(desc, d)
  {
    Head(desc, m, todo, d, rest);
  }

  /** pb_decode: defaults first. */
  method Decode(s: IStream, desc: Desc, ghost m: seq<Slot>) returns (ok: bool, slots: seq<Slot>)
    requires DescOk(desc)
    modifies s
    ensures ok ==> MessageOk(Sendable, desc, slots)
    ensures Expects(desc, DefaultsOf(desc), m, old(s.rest)) ==> ok && slots == m && s.rest == []
  {
    DefaultsOk(desc);
    ghost var got;
    ok, slots, got := DecodeMessage(s, desc, Defaults(desc, |desc.fields|), m);
  }
}
