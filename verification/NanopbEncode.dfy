/**
 The encoder (nanopb: pb_encode.c).  Submessages and packed arrays are encoded twice:
 once into a stream that only counts, to learn their length, and once for real.
 */
module NanopbEncode {
  import opened Keys
  import opened Spec
  import opened Coding
  import opened Nanopb

  // --- streams -----------------------------------------------------------------------------

  /** Written so far: the count, and the bytes unless the stream only counts. */
  datatype State = State(written: nat, out: Bytes)

  /** pb_ostream_t.  A stream without callback only counts. */
  class OStream {
    const sizing: bool
    const maxSize: nat
    var st: State

    ghost predicate Ok()
      reads this
    {
      if sizing then st.out == [] else st.written == |st.out| <= maxSize
    }

    /** PB_OSTREAM_SIZING */
    constructor Sizing()
      ensures Ok() && sizing && st == State(0, [])
    {
      sizing, maxSize, st := true, 0, State(0, []);
    }

    /** pb_ostream_from_buffer */
    constructor Buffer(size: nat)
      ensures Ok() && !sizing && maxSize == size && st == State(0, [])
    {
      sizing, maxSize, st := false, size, State(0, []);
    }

    /** pb_write: all of the bytes, or none if the stream is full. */
    method Write(buf: Bytes) returns (ok: bool)
      requires Ok()
      modifies this
      ensures Ok() && Wrote(sizing, maxSize, old(st), st, ok, buf)
    {
      if |buf| > 0 && !sizing {
        if st.written + |buf| > maxSize {
          return false;
        }
        st := State(st.written, st.out + buf);
      }
      st := State(st.written + |buf|, st.out);
      return true;
    }

    /** pb_write on a stream that only counts. */
    method Count(n: nat)
      requires Ok() && sizing
      modifies this
      ensures Ok() && st == State(old(st).written + n, [])
    {
      st := State(st.written + n, st.out);
    }
  }

  /**
   From `a` to `b` the stream took all of `bytes`; if they do not fit, it stopped
   somewhere among them.
   */
  ghost predicate Wrote(sizing: bool, maxSize: nat, a: State, b: State, ok: bool, bytes: Bytes) {
    && (ok <==> sizing || a.written + |bytes| <= maxSize)
    && (ok ==> b == State(a.written + |bytes|, if sizing then [] else a.out + bytes))
    && (!ok ==> a.out <= b.out <= a.out + bytes && a.written <= b.written)
  }

  /** The same for an operation that fails on a message that cannot be encoded. */
  ghost predicate Encoded(sizing: bool, maxSize: nat, a: State, b: State, ok: bool, can: bool, bytes: Bytes) {
    if can then Wrote(sizing, maxSize, a, b, ok, bytes) else !ok
  }

  lemma WroteBoth(sizing: bool, maxSize: nat, a: State, b: State, c: State, ok: bool, x: Bytes, y: Bytes)
    requires Wrote(sizing, maxSize, a, b, true, x) && Wrote(sizing, maxSize, b, c, ok, y)
    requires if sizing then a.out == [] else a.written == |a.out|
    ensures Wrote(sizing, maxSize, a, c, ok, x + y)
  {
    if !sizing {
      assert a.out + (x + y) == a.out + x + y;
    }
  }

  lemma WroteSome(sizing: bool, maxSize: nat, a: State, b: State, x: Bytes, y: Bytes)
    requires Wrote(sizing, maxSize, a, b, false, x)
    ensures Wrote(sizing, maxSize, a, b, false, x + y)
  {
    assert a.out + (x + y) == a.out + x + y;
  }

  // --- numbers, tags and strings ------------------------------------------------------------------

  /** The groups of seven bits taken from `value` so far, each marked as continued, and what is left of it. */
  ghost predicate Groups(buffer: Bytes, rest: nat, value: nat) {
    if rest > 0 then buffer + EncodeVarint(rest) == EncodeVarint(value)
    else buffer != [] && buffer[|buffer| - 1] >= 128
         && buffer[..|buffer| - 1] + [buffer[|buffer| - 1] - 128] == EncodeVarint(value)
  }

  lemma TakeGroup(buffer: Bytes, rest: nat, value: nat)
    requires rest > 0 && Groups(buffer, rest, value)
    ensures Groups(buffer + [128 + rest % 128], rest / 128, value)
  {
    var group: Byte := 128 + rest % 128;
    var next := buffer + [group];
    assert next[..|next| - 1] == buffer && next[|next| - 1] == group;
    if rest >= 128 {
      assert buffer + EncodeVarint(rest) == next + EncodeVarint(rest / 128);
    } else {
      assert EncodeVarint(rest) == [rest];
    }
  }

  /** pb_encode_varint: groups of seven bits, low ones first. */
  method EncodeVarintTo(s: OStream, value: nat) returns (ok: bool)
    requires s.Ok()
    modifies s
    ensures s.Ok() && Wrote(s.sizing, s.maxSize, old(s.st), s.st, ok, EncodeVarint(value))
  {
    var buffer: Bytes := [value % 128];
    if value > 0x7f {
      buffer := VarintBuffer(value);
    }
    ok := s.Write(buffer);
  }

  method VarintBuffer(value: nat) returns (buffer: Bytes)
    requires value > 0x7f
    ensures buffer == EncodeVarint(value)
  {
    hide EncodeVarint;
    var rest: nat := value;
    buffer := [];
    assert buffer + EncodeVarint(rest) == EncodeVarint(value);
    while rest != 0
      invariant Groups(buffer, rest, value)
    {
      hide Groups;
      TakeGroup(buffer, rest, value);
      buffer, rest := buffer + [128 + rest % 128], rest / 128;
    }
    var last: Byte := buffer[|buffer| - 1] - 128;
    buffer := buffer[..|buffer| - 1] + [last];
  }

  /** pb_encode_tag */
  method EncodeTag(s: OStream, wireType: nat, tag: nat) returns (ok: bool)
    requires s.Ok()
    modifies s
    ensures s.Ok() && Wrote(s.sizing, s.maxSize, old(s.st), s.st, ok, TagBytes(tag, wireType))
  {
    ok := EncodeVarintTo(s, 8 * tag + wireType);
  }

  /** pb_encode_string */
  method EncodeString(s: OStream, buffer: Bytes) returns (ok: bool)
    requires s.Ok()
    modifies s
    ensures s.Ok() && Wrote(s.sizing, s.maxSize, old(s.st), s.st, ok, PutString(buffer))
  {
    hide Wrote;
    ghost var a := s.st;
    ok := EncodeVarintTo(s, |buffer|);
    if !ok {
      WroteSome(s.sizing, s.maxSize, a, s.st, EncodeVarint(|buffer|), buffer);
      return;
    }
    ghost var b := s.st;
    ok := s.Write(buffer);
    WroteBoth(s.sizing, s.maxSize, a, b, s.st, ok, EncodeVarint(|buffer|), buffer);
  }

  // --- records laid end to end ----------------------------------------------------------------------

  lemma RecordsOne(desc: Desc, r: Record)
    requires RecordOk(Held, desc, r)
    ensures RecordsBytes(desc, [r]) == RecordBytes(desc, r)
  {
    assert [r][..0] == [] && RecordsBytes(desc, []) == [];
  }

  lemma {:induction false} RecordsConcat(desc: Desc, rs: seq<Record>, ts: seq<Record>)
    requires RecordsOk(Held, desc, rs) && RecordsOk(Held, desc, ts)
    ensures RecordsOk(Held, desc, rs + ts)
    ensures RecordsBytes(desc, rs + ts) == RecordsBytes(desc, rs) + RecordsBytes(desc, ts)
    decreases |ts|
  {
    hide RecordBytes, RecordOk;
    if ts == [] {
      assert rs + ts == rs;
    } else {
      var init := ts[..|ts| - 1];
      RecordsConcat(desc, rs, init);
      assert (rs + ts)[..|rs + ts| - 1] == rs + init;
    }
  }

  lemma {:induction false} FixedPayloads(f: Field, items: seq<Value>)
    requires forall i :: 0 <= i < |items| ==> ValueOk(Held, f, items[i])
    ensures f.kind.Fixed32? ==> |Payloads(f, items)| == 4 * |items|
    ensures f.kind.Fixed64? ==> |Payloads(f, items)| == 8 * |items|
  {
    if items != [] {
      FixedPayloads(f, items[..|items| - 1]);
    }
  }

  lemma PayloadsSnoc(f: Field, items: seq<Value>, i: nat)
    requires i < |items| && forall k :: 0 <= k < |items| ==> ValueOk(Held, f, items[k])
    ensures Payloads(f, items[..i + 1]) == Payloads(f, items[..i]) + Payload(f, items[i])
  {
    assert items[..i + 1][..i] == items[..i];
  }

  lemma PackableEncodes(f: Field, v: Value)
    requires Packable(f.kind) && ValueOk(Held, f, v)
    ensures ValueOk(Encodable, f, v)
  {
  }

  lemma EncodedAfter(sizing: bool, maxSize: nat, a: State, b: State, c: State, ok: bool, can: bool, x: Bytes, y: Bytes)
    requires Wrote(sizing, maxSize, a, b, true, x) && Encoded(sizing, maxSize, b, c, ok, can, y)
    requires if sizing then a.out == [] else a.written == |a.out|
    ensures Encoded(sizing, maxSize, a, c, ok, can, x + y)
  {
    hide Wrote;
    if can {
      WroteBoth(sizing, maxSize, a, b, c, ok, x, y);
    }
  }

  lemma WroteNothing(sizing: bool, maxSize: nat, a: State)
    requires if sizing then a.out == [] else a.written == |a.out| <= maxSize
    ensures Wrote(sizing, maxSize, a, a, true, [])
  {
  }

  // --- values ------------------------------------------------------------------------------------------

  /** PB_ENCODERS: the payload of one value. */
  method EncodeValue(s: OStream, f: Field, v: Value) returns (ok: bool)
    requires s.Ok() && ValueOk(Held, f, v)
    modifies s
    ensures s.Ok() && Encoded(s.sizing, s.maxSize, old(s.st), s.st, ok, ValueOk(Encodable, f, v), Payload(f, v))
    decreases f, 0, 0
  {
    match f.kind {
      case Boolean => ok := EncodeVarintTo(s, v.n);
      case Varint => ok := EncodeVarintTo(s, Unsigned(v.n));
      case UVarint => ok := EncodeVarintTo(s, v.n);
      case SVarint => ok := EncodeVarintTo(s, ZigZag(v.n));
      case Fixed32 => ok := s.Write(EncodeFixed32(v.n));
      case Fixed64 => ok := s.Write(EncodeFixed64(v.n));
      case ByteArray =>
        if |v.bytes| + BYTES_HEADER > f.dataSize {
          return false;
        }
        ok := EncodeString(s, v.bytes);
      case Text => ok := EncodeString(s, v.bytes);
      case FixedBytes => ok := EncodeString(s, v.bytes);
      case Submessage(desc) => ok := EncodeSubmessage(s, desc, v.slots);
    }
  }

  /**
   pb_encode_submessage: the length first, from a stream that only counts.  The second
   pass writes exactly as many bytes.
   */
  method EncodeSubmessage(s: OStream, desc: Desc, slots: seq<Slot>) returns (ok: bool)
    requires s.Ok() && MessageOk(Held, desc, slots)
    modifies s
    ensures s.Ok()
    ensures Encoded(s.sizing, s.maxSize, old(s.st), s.st, ok, MessageOk(Encodable, desc, slots),
                    PutString(Encoding(desc, slots)))
    decreases desc, 3, 0
  {
    hide Encoding, MessageOk;
    var substream := new OStream.Sizing();
    ok := EncodeMessage(substream, desc, slots);
    if !ok {
      return;
    }
    var size := substream.st.written;
    assert size == |Encoding(desc, slots)|;
    ghost var a := s.st;
    ok := EncodeVarintTo(s, size);
    if !ok {
      WroteSome(s.sizing, s.maxSize, a, s.st, EncodeVarint(size), Encoding(desc, slots));
      return;
    }
    ghost var b := s.st;
    if s.sizing {
      s.Count(size);
      WroteBoth(s.sizing, s.maxSize, a, b, s.st, true, EncodeVarint(size), Encoding(desc, slots));
      return true;
    }
    if s.st.written + size > s.maxSize {
      WroteBoth(s.sizing, s.maxSize, a, b, s.st, false, EncodeVarint(size), Encoding(desc, slots));
      return false;
    }
    var writer := new OStream.Buffer(size);
    ok := EncodeMessage(writer, desc, slots);
    s.st := State(s.st.written + writer.st.written, s.st.out + writer.st.out);
    if writer.st.written != size {
      ok := false;
    }
    WroteBoth(s.sizing, s.maxSize, a, b, s.st, ok, EncodeVarint(size), Encoding(desc, slots));
  }

  // --- arrays --------------------------------------------------------------------------------------------

  /** The payloads of a packed array. */
  method EncodeItems(s: OStream, f: Field, items: seq<Value>) returns (ok: bool)
    requires s.Ok() && Packable(f.kind) && forall i :: 0 <= i < |items| ==> ValueOk(Held, f, items[i])
    modifies s
    ensures s.Ok() && Wrote(s.sizing, s.maxSize, old(s.st), s.st, ok, Payloads(f, items))
    decreases f, 1, 0
  {
    hide Wrote, Payload, ValueOk, Payloads;
    ghost var a := s.st;
    WroteNothing(s.sizing, s.maxSize, a);
    NoPayloads(f);
    var i := 0;
    while i < |items|
      invariant 0 <= i <= |items| && s.Ok()
      invariant Wrote(s.sizing, s.maxSize, a, s.st, true, Payloads(f, items[..i]))
    {
      ghost var b := s.st;
      PackableEncodes(f, items[i]);
      PayloadsSnoc(f, items, i);
      ok := EncodeValue(s, f, items[i]);
      WroteBoth(s.sizing, s.maxSize, a, b, s.st, ok, Payloads(f, items[..i]), Payload(f, items[i]));
      i := i + 1;
      if !ok {
        PayloadsPrefix(f, items, i);
        WroteSome(s.sizing, s.maxSize, a, s.st, Payloads(f, items[..i]),
                  Payloads(f, items)[|Payloads(f, items[..i])|..]);
        return;
      }
    }
    assert items[..i] == items;
    ok := true;
  }

  lemma NoPayloads(f: Field)
    ensures Payloads(f, []) == []
  {
  }

  lemma {:induction false} PayloadsPrefix(f: Field, items: seq<Value>, i: nat)
    requires i <= |items| && forall k :: 0 <= k < |items| ==> ValueOk(Held, f, items[k])
    ensures Payloads(f, items[..i]) <= Payloads(f, items)
    ensures Payloads(f, items[..i]) + Payloads(f, items)[|Payloads(f, items[..i])|..] == Payloads(f, items)
    decreases |items|
  {
    hide Payloads, ValueOk, Payload;
    if i == |items| {
      assert items[..i] == items;
    } else {
      var n := |items| - 1;
      PayloadsPrefix(f, items[..n], i);
      assert items[..n][..i] == items[..i];
      PayloadsSnoc(f, items, n);
      assert items[..n + 1] == items;
    }
  }

  /** The length of a packed array. */
  method PackedSize(f: Field, items: seq<Value>) returns (size: nat)
    requires Packable(f.kind) && forall i :: 0 <= i < |items| ==> ValueOk(Held, f, items[i])
    ensures size == |Payloads(f, items)|
    decreases f, 2, 0
  {
    FixedPayloads(f, items);
    if f.kind.Fixed32? {
      size := 4 * |items|;
    } else if f.kind.Fixed64? {
      size := 8 * |items|;
    } else {
      var sizestream := new OStream.Sizing();
      var ok := EncodeItems(sizestream, f, items);
      size := sizestream.st.written;
    }
  }

  method EncodePacked(s: OStream, desc: Desc, j: nat, items: seq<Value>) returns (ok: bool)
    requires s.Ok() && RecordOk(Held, desc, Packed(j, items)) && Packable(desc.fields[j].kind)
    modifies s
    ensures s.Ok() && Wrote(s.sizing, s.maxSize, old(s.st), s.st, ok, RecordBytes(desc, Packed(j, items)))
    decreases desc, 0, 0
  {
    hide Wrote, Payloads;
    var f := desc.fields[j];
    ghost var tag, all := TagBytes(f.tag, STRING), Payloads(f, items);
    ghost var a := s.st;
    ok := EncodeTag(s, STRING, f.tag);
    if !ok {
      WroteSome(s.sizing, s.maxSize, a, s.st, tag, PutString(all));
      return;
    }
    ghost var b := s.st;
    var size := PackedSize(f, items);
    ok := EncodeVarintTo(s, size);
    if !ok {
      WroteSome(s.sizing, s.maxSize, b, s.st, EncodeVarint(size), all);
      WroteBoth(s.sizing, s.maxSize, a, b, s.st, ok, tag, PutString(all));
      return;
    }
    ghost var c := s.st;
    if s.sizing {
      CountIsWrite(s.maxSize, s.st, all);
      s.Count(size);
      ok := true;
    } else {
      ok := EncodeItems(s, f, items);
    }
    WroteBoth(s.sizing, s.maxSize, b, c, s.st, ok, EncodeVarint(size), all);
    WroteBoth(s.sizing, s.maxSize, a, b, s.st, ok, tag, PutString(all));
  }

  lemma CountIsWrite(maxSize: nat, a: State, bytes: Bytes)
    ensures Wrote(true, maxSize, a, State(a.written + |bytes|, []), true, bytes)
  {
  }

  /** A tag and a value. */
  method EncodeRecord(s: OStream, desc: Desc, j: nat, v: Value, ghost r: Record) returns (ok: bool)
    requires s.Ok() && j < |desc.fields| && ValueOk(Held, desc.fields[j], v) && (r == Single(j, v) || r == Item(j, v))
    modifies s
    ensures s.Ok()
    ensures Encoded(s.sizing, s.maxSize, old(s.st), s.st, ok, ValueOk(Encodable, desc.fields[j], v),
                    RecordBytes(desc, r))
    decreases desc, 0, 0
  {
    hide Payload, ValueOk, Wrote;
    var f := desc.fields[j];
    ghost var a := s.st;
    ok := EncodeTag(s, WireType(f.kind), f.tag);
    if !ok {
      WroteSome(s.sizing, s.maxSize, a, s.st, TagBytes(f.tag, WireType(f.kind)), Payload(f, v));
      return;
    }
    ghost var b := s.st;
    ok := EncodeValue(s, f, v);
    EncodedAfter(s.sizing, s.maxSize, a, b, s.st, ok, ValueOk(Encodable, f, v), TagBytes(f.tag, WireType(f.kind)),
                 Payload(f, v));
  }

  /** An operation that stopped early: nothing else was to follow, or it did not get that far. */
  lemma EncodedStop(sizing: bool, maxSize: nat, a: State, b: State, can: bool, all: bool, x: Bytes, y: Bytes)
    requires Encoded(sizing, maxSize, a, b, false, can, x) && (all ==> can)
    ensures Encoded(sizing, maxSize, a, b, false, all, x + y)
  {
    hide Wrote;
    if all {
      WroteSome(sizing, maxSize, a, b, x, y);
    }
  }

  lemma RecordsSplit(desc: Desc, rs: seq<Record>, i: nat)
    requires RecordsOk(Held, desc, rs) && i <= |rs|
    ensures RecordsOk(Held, desc, rs[..i]) && RecordsOk(Held, desc, rs[i..])
    ensures RecordsBytes(desc, rs) == RecordsBytes(desc, rs[..i]) + RecordsBytes(desc, rs[i..])
  {
    RecordsConcat(desc, rs[..i], rs[i..]);
    assert rs == rs[..i] + rs[i..];
  }

  lemma ItemsHeld(desc: Desc, j: nat, items: seq<Value>)
    requires j < |desc.fields| && AllOk(Held, desc.fields[j], items)
    ensures RecordsOk(Held, desc, ItemsOf(j, items))
  {
  }

  lemma ItemsSnoc(desc: Desc, rs: seq<Record>, i: nat)
    requires RecordsOk(Held, desc, rs) && i < |rs|
    ensures RecordsOk(Held, desc, rs[..i]) && RecordsOk(Held, desc, rs[..i + 1])
    ensures RecordsBytes(desc, rs[..i + 1]) == RecordsBytes(desc, rs[..i]) + RecordBytes(desc, rs[i])
  {
    assert rs[..i + 1][..i] == rs[..i];
  }

  /** The entries of an array that cannot be packed, each under its own tag. */
  method EncodeUnpacked(s: OStream, desc: Desc, j: nat, items: seq<Value>) returns (ok: bool)
    requires s.Ok() && j < |desc.fields| && AllOk(Held, desc.fields[j], items)
    requires RecordsOk(Held, desc, ItemsOf(j, items))
    modifies s
    ensures s.Ok()
    ensures Encoded(s.sizing, s.maxSize, old(s.st), s.st, ok, AllOk(Encodable, desc.fields[j], items),
                    RecordsBytes(desc, ItemsOf(j, items)))
    decreases desc, 0, 1
  {
    hide Wrote, ValueOk, RecordBytes, RecordsBytes, RecordsOk;
    ghost var a, rs := s.st, ItemsOf(j, items);
    WroteNothing(s.sizing, s.maxSize, a);
    NoRecords(desc);
    RecordsSplit(desc, rs, 0);
    assert rs[..0] == [];
    var i := 0;
    while i < |items|
      invariant 0 <= i <= |items| && s.Ok() && RecordsOk(Held, desc, rs[..i])
      invariant Wrote(s.sizing, s.maxSize, a, s.st, true, RecordsBytes(desc, rs[..i]))
      invariant forall k :: 0 <= k < i ==> ValueOk(Encodable, desc.fields[j], items[k])
    {
      ghost var b := s.st;
      ItemsSnoc(desc, rs, i);
      ok := EncodeRecord(s, desc, j, items[i], rs[i]);
      EncodedAfter(s.sizing, s.maxSize, a, b, s.st, ok, ValueOk(Encodable, desc.fields[j], items[i]),
                   RecordsBytes(desc, rs[..i]), RecordBytes(desc, rs[i]));
      i := i + 1;
      if !ok {
        RecordsSplit(desc, rs, i);
        EncodedStop(s.sizing, s.maxSize, a, s.st, ValueOk(Encodable, desc.fields[j], items[i - 1]),
                    AllOk(Encodable, desc.fields[j], items),
                    RecordsBytes(desc, rs[..i]), RecordsBytes(desc, rs[i..]));
        return;
      }
    }
    assert rs[..i] == rs;
    ok := true;
  }

  lemma NoRecords(desc: Desc)
    ensures RecordsBytes(desc, []) == []
  {
  }

  lemma PackableArray(f: Field, items: seq<Value>)
    requires Packable(f.kind) && AllOk(Held, f, items)
    ensures AllOk(Encodable, f, items)
  {
  }

  /** encode_array: packed if the type allows it. */
  method EncodeArray(s: OStream, desc: Desc, j: nat, items: seq<Value>) returns (ok: bool)
    requires s.Ok() && j < |desc.fields| && AllOk(Held, desc.fields[j], items)
    modifies s
    ensures s.Ok() && RecordsOk(Held, desc, FieldRecords(desc.fields[j], j, Many(items)))
    ensures Encoded(s.sizing, s.maxSize, old(s.st), s.st, ok,
                    |items| <= desc.fields[j].arraySize && AllOk(Encodable, desc.fields[j], items),
                    RecordsBytes(desc, FieldRecords(desc.fields[j], j, Many(items))))
    decreases desc, 0, 2
  {
    var f := desc.fields[j];
    ItemsHeld(desc, j, items);
    hide Wrote, ValueOk, RecordBytes, RecordsBytes;
    if |items| == 0 {
      NoRecords(desc);
      WroteNothing(s.sizing, s.maxSize, s.st);
      return true;
    }
    if |items| > f.arraySize {
      return false;
    }
    if Packable(f.kind) {
      PackableArray(f, items);
      RecordsOne(desc, Packed(j, items));
      ok := EncodePacked(s, desc, j, items);
    } else {
      ok := EncodeUnpacked(s, desc, j, items);
    }
  }

  // --- fields and messages ---------------------------------------------------------------------------------

  /** encode_basic_field, and pb_check_proto3_default_value for fields without presence. */
  method EncodeField(s: OStream, desc: Desc, j: nat, slot: Slot) returns (ok: bool)
    requires s.Ok() && j < |desc.fields| && SlotOk(Held, desc.fields[j], slot)
    modifies s
    ensures s.Ok() && RecordsOk(Held, desc, FieldRecords(desc.fields[j], j, slot))
    ensures Encoded(s.sizing, s.maxSize, old(s.st), s.st, ok, SlotOk(Encodable, desc.fields[j], slot),
                    RecordsBytes(desc, FieldRecords(desc.fields[j], j, slot)))
    decreases desc, 1, 0
  {
    hide Wrote, ValueOk, RecordBytes, RecordsBytes;
    var f := desc.fields[j];
    NoRecords(desc);
    WroteNothing(s.sizing, s.maxSize, s.st);
    match slot {
      case One(v) =>
        var zero := false;
        if f.rule.Singular? {
          zero := IsZero(f, v);
        }
        if zero {
          ZeroEncodes(f, v);
          return true;
        }
        RecordsOne(desc, Single(j, v));
        ok := EncodeRecord(s, desc, j, v, Single(j, v));
      case Opt(o) =>
        if o.None? {
          return true;
        }
        RecordsOne(desc, Single(j, o.value));
        ok := EncodeRecord(s, desc, j, o.value, Single(j, o.value));
      case Many(items) =>
        ok := EncodeArray(s, desc, j, items);
    }
  }

  /** A value that is not sent has nothing in it that could not be. */
  lemma {:induction false} ZeroEncodes(f: Field, v: Value)
    requires ValueOk(Held, f, v) && IsZero(f, v)
    ensures ValueOk(Encodable, f, v)
    decreases f
  {
    if f.kind.Submessage? {
      forall i | 0 <= i < |v.slots| ensures SlotOk(Encodable, f.kind.desc.fields[i], v.slots[i]) {
        UnsetAt(f.kind.desc, v.slots, |v.slots|, i);
        assert SlotOk(Held, f.kind.desc.fields[i], v.slots[i]);
        if f.kind.desc.fields[i].rule.Singular? {
          ZeroEncodes(f.kind.desc.fields[i], v.slots[i].v);
        }
      }
    }
  }

  lemma NextField(desc: Desc, slots: seq<Slot>, i: nat)
    requires MessageOk(Held, desc, slots) && i < |slots|
    ensures SlotOk(Held, desc.fields[i], slots[i]) && RecordsOk(Held, desc, Records(desc, slots, i))
    ensures RecordsOk(Held, desc, Records(desc, slots, i + 1))
    ensures RecordsOk(Held, desc, FieldRecords(desc.fields[i], i, slots[i]))
    ensures RecordsBytes(desc, Records(desc, slots, i + 1))
         == RecordsBytes(desc, Records(desc, slots, i)) + RecordsBytes(desc, FieldRecords(desc.fields[i], i, slots[i]))
  {
    hide RecordBytes, RecordsBytes, RecordsOk, FieldRecords, SlotOk;
    MessageRecordsOk(Held, desc, slots, i);
    MessageRecordsOk(Held, desc, slots, i + 1);
    FieldRecordsOk(Held, desc, i, slots[i]);
    RecordsConcat(desc, Records(desc, slots, i), FieldRecords(desc.fields[i], i, slots[i]));
  }

  lemma {:induction false} RestOfMessage(desc: Desc, slots: seq<Slot>, i: nat) returns (rest: Bytes)
    requires MessageOk(Held, desc, slots) && i <= |slots|
    ensures RecordsOk(Held, desc, Records(desc, slots, i))
    ensures RecordsBytes(desc, Records(desc, slots, i)) + rest == Encoding(desc, slots)
    decreases |slots| - i
  {
    hide Encoding, RecordsBytes, RecordsOk, SlotOk, Records, FieldRecords;
    MessageRecordsOk(Held, desc, slots, i);
    if i == |slots| {
      WholeMessage(desc, slots);
      rest := [];
    } else {
      NextField(desc, slots, i);
      var more := RestOfMessage(desc, slots, i + 1);
      rest := RecordsBytes(desc, FieldRecords(desc.fields[i], i, slots[i])) + more;
    }
  }

  /**
   pb_encode: field by field.  It succeeds exactly when the message can be encoded and
   the stream has room for all of it; what it wrote is then the message's encoding, and
   a beginning of it otherwise.  A stream that only counts counts the same length.
   */
  method EncodeMessage(s: OStream, desc: Desc, slots: seq<Slot>) returns (ok: bool)
    requires s.Ok() && MessageOk(Held, desc, slots)
    modifies s
    ensures s.Ok()
    ensures Encoded(s.sizing, s.maxSize, old(s.st), s.st, ok, MessageOk(Encodable, desc, slots), Encoding(desc, slots))
    decreases desc, 2, 0
  {
    hide Wrote, Encoding, RecordsBytes, RecordsOk, SlotOk;
    ghost var a := s.st;
    WroteNothing(s.sizing, s.maxSize, a);
    NoRecords(desc);
    ghost var rest := RestOfMessage(desc, slots, 0);
    var i := 0;
    while i < |slots|
      invariant 0 <= i <= |slots| && s.Ok() && RecordsOk(Held, desc, Records(desc, slots, i))
      invariant Wrote(s.sizing, s.maxSize, a, s.st, true, RecordsBytes(desc, Records(desc, slots, i)))
      invariant forall k :: 0 <= k < i ==> SlotOk(Encodable, desc.fields[k], slots[k])
    {
      hide Records, FieldRecords;
      ghost var b, prefix := s.st, RecordsBytes(desc, Records(desc, slots, i));
      NextField(desc, slots, i);
      ghost var can, bytes := SlotOk(Encodable, desc.fields[i], slots[i]),
        RecordsBytes(desc, FieldRecords(desc.fields[i], i, slots[i]));
      ok := EncodeField(s, desc, i, slots[i]);
      EncodedAfter(s.sizing, s.maxSize, a, b, s.st, ok, can, prefix, bytes);
      i := i + 1;
      if !ok {
        rest := RestOfMessage(desc, slots, i);
        EncodedStop(s.sizing, s.maxSize, a, s.st, can, MessageOk(Encodable, desc, slots), prefix + bytes, rest);
        return;
      }
    }
    rest := RestOfMessage(desc, slots, i);
    WholeMessage(desc, slots);
    ok := true;
  }

  lemma WholeMessage(desc: Desc, slots: seq<Slot>)
    requires MessageOk(Held, desc, slots)
    ensures RecordsOk(Held, desc, Records(desc, slots, |slots|))
    ensures Encoding(desc, slots) == RecordsBytes(desc, Records(desc, slots, |slots|))
  {
    MessageRecordsOk(Held, desc, slots, |slots|);
  }

  /** pb_get_encoded_size */
  method GetEncodedSize(desc: Desc, slots: seq<Slot>) returns (size: Option<nat>)
    requires MessageOk(Held, desc, slots)
    ensures size == if MessageOk(Encodable, desc, slots) then Some(|Encoding(desc, slots)|) else None
  {
    var stream := new OStream.Sizing();
    var ok := EncodeMessage(stream, desc, slots);
    size := if ok then Some(stream.st.written) else None;
  }
}
