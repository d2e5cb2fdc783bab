/**
 Descriptor-driven Protocol Buffers messages (nanopb: pb.h, pb_encode.c, pb_decode.c,
 pb_common.c), for statically allocated fields: what messages are, and what their
 encoding is.

 A message structure is a value: one slot per field of its descriptor.  A character
 array is given by the characters before its first NUL, an array by its used entries.
 */
module Nanopb {
  import opened Spec
  import opened Coding

  // --- descriptors -------------------------------------------------------------------------

  /** PB_LTYPE. */
  datatype Kind =
    | Boolean | Varint | UVarint | SVarint | Fixed32 | Fixed64
    | ByteArray | Text | Submessage(desc: Desc) | FixedBytes

  /**
   PB_HTYPE, and whether the structure has a `has_` or `_count` member: `Singular` is an
   optional field without one, `FixedCount` a repeated field without one.
   */
  datatype Rule = Required | Optional | Singular | Repeated | FixedCount | OneOf(group: nat)

  /** pb_field_t.  `init` is the default value `ptr` points to. */
  datatype Field = Field(tag: nat, kind: Kind, rule: Rule, dataSize: nat, arraySize: nat, init: Option<Value>)

  datatype Desc = Desc(fields: seq<Field>)

  // --- messages ------------------------------------------------------------------------------

  datatype Value = Num(n: int) | Raw(bytes: Bytes) | Msg(slots: seq<Slot>)

  /** A oneof member is present when it is the one its union holds. */
  datatype Slot = One(v: Value) | Opt(o: Option<Value>) | Many(items: seq<Value>)

  /** offsetof(pb_bytes_array_t, bytes), with 32-bit sizes. */
  const BYTES_HEADER: nat := 4

  /** What is asked of a message: to be held by its structure, to be encodable, or to survive the round trip. */
  datatype Demand = Held | Encodable | Sendable

  predicate IntOk(signed: bool, size: nat, n: int) {
    match size
    case 1 => if signed then -0x80 <= n < 0x80 else 0 <= n < 0x100
    case 2 => if signed then -0x8000 <= n < 0x8000 else 0 <= n < 0x1_0000
    case 4 => if signed then -0x8000_0000 <= n < 0x8000_0000 else 0 <= n < WORD
    case 8 => if signed then -0x8000_0000_0000_0000 <= n < 0x8000_0000_0000_0000 else 0 <= n < FIXED64
    case _ => false
  }

  predicate ValueOk(d: Demand, f: Field, v: Value)
    decreases f, 0
  {
    match f.kind
    case Boolean => v == Num(0) || v == Num(1)
    case Varint => v.Num? && IntOk(true, f.dataSize, v.n)
    case SVarint => v.Num? && IntOk(true, f.dataSize, v.n)
    case UVarint => v.Num? && IntOk(false, f.dataSize, v.n)
    case Fixed32 => v.Num? && 0 <= v.n < WORD
    case Fixed64 => v.Num? && 0 <= v.n < FIXED64
    case ByteArray => v.Raw? && f.dataSize >= BYTES_HEADER && (d.Held? || |v.bytes| + BYTES_HEADER <= f.dataSize)
    case Text => v.Raw? && 0 !in v.bytes && |v.bytes| <= f.dataSize && (d.Sendable? ==> |v.bytes| < f.dataSize)
    case FixedBytes => v.Raw? && |v.bytes| == f.dataSize
    case Submessage(desc) => v.Msg? && MessageOk(d, desc, v.slots)
  }

  ghost predicate AllOk(d: Demand, f: Field, items: seq<Value>) {
    forall i :: 0 <= i < |items| ==> ValueOk(d, f, items[i])
  }

  predicate SlotOk(d: Demand, f: Field, s: Slot)
    decreases f, 1
  {
    match f.rule
    case Required => s.One? && ValueOk(d, f, s.v)
    case Singular => s.One? && ValueOk(d, f, s.v)
    case Optional => s.Opt? && (s.o.Some? ==> ValueOk(d, f, s.o.value))
    case OneOf(_) => s.Opt? && (s.o.Some? ==> ValueOk(d, f, s.o.value))
    case Repeated => s.Many? && (d.Held? || |s.items| <= f.arraySize) && forall i :: 0 <= i < |s.items| ==>
           ValueOk(d, f, s.items[i])
    case FixedCount => s.Many? && |s.items| == f.arraySize && forall i :: 0 <= i < |s.items| ==>
           ValueOk(d, f, s.items[i])
  }

  /** A union holds at most one of its members. */
  predicate OneOfOk(fields: seq<Field>, slots: seq<Slot>) {
    |fields| == |slots| &&
    forall i, j :: 0 <= i < j < |fields| && fields[i].rule.OneOf? && fields[i].rule == fields[j].rule ==>
      slots[i] == Opt(None) || slots[j] == Opt(None)
  }

  predicate MessageOk(d: Demand, desc: Desc, slots: seq<Slot>)
    decreases desc, 2
  {
    && |slots| == |desc.fields|
    && (forall i :: 0 <= i < |slots| ==> SlotOk(d, desc.fields[i], slots[i]))
    && OneOfOk(desc.fields, slots)
  }

  // --- defaults --------------------------------------------------------------------------------

  function Zeros(n: nat): (b: Bytes)
    ensures |b| == n && forall i :: 0 <= i < n ==> b[i] == 0
  {
    seq(n, i => 0)
  }

  /** The value an unset field has: `ptr`'s for a field that has one, else zero. */
  function InitValue(f: Field): Value
    decreases f, 0
  {
    match f.kind
    case Submessage(desc) => Msg(Defaults(desc, |desc.fields|))
    case ByteArray => if f.init.Some? then f.init.value else Raw([])
    case Text => if f.init.Some? then f.init.value else Raw([])
    case FixedBytes => if f.init.Some? then f.init.value else Raw(Zeros(f.dataSize))
    case _ => if f.init.Some? then f.init.value else Num(0)
  }

  /** pb_field_set_to_default. */
  function DefaultSlot(f: Field): Slot
    decreases f, 1
  {
    match f.rule
    case Required => One(InitValue(f))
    case Singular => One(InitValue(f))
    case Optional => Opt(None)
    case OneOf(_) => Opt(None)
    case Repeated => Many([])
    case FixedCount => Many(Copies(InitValue(f), f.arraySize))
  }

  function Copies(v: Value, n: nat): (r: seq<Value>)
    ensures |r| == n && forall i :: 0 <= i < n ==> r[i] == v
  {
    seq(n, i => v)
  }

  /** pb_message_set_to_defaults, for the first `n` fields. */
  function Defaults(desc: Desc, n: nat): (slots: seq<Slot>)
    requires n <= |desc.fields|
    ensures |slots| == n
    decreases desc, n
  {
    if n == 0 then [] else Defaults(desc, n - 1) + [DefaultSlot(desc.fields[n - 1])]
  }

  // --- the proto3 rule: a singular field at zero is not sent --------------------------------------

  /** pb_check_proto3_default_value, past the test of the rule. */
  predicate IsZero(f: Field, v: Value)
    decreases f, 0
  {
    match f.kind
    case Submessage(desc) => v.Msg? && AllUnset(desc, v.slots, |desc.fields|)
    case ByteArray => v == Raw([])
    case Text => v == Raw([])
    case FixedBytes => f.dataSize == 0
    case _ => v == Num(0)
  }

  /** pb_check_proto3_default_value. */
  predicate IsUnset(f: Field, s: Slot)
    decreases f, 1
  {
    match f.rule
    case Required => false
    case FixedCount => false
    case Repeated => s == Many([])
    case Optional => s == Opt(None)
    case OneOf(_) => s == Opt(None)
    case Singular => s.One? && IsZero(f, s.v)
  }

  predicate AllUnset(desc: Desc, slots: seq<Slot>, n: nat)
    requires n <= |desc.fields|
    decreases desc, n
  {
    n == 0 || (|slots| >= n && AllUnset(desc, slots, n - 1) && IsUnset(desc.fields[n - 1], slots[n - 1]))
  }

  // --- records -------------------------------------------------------------------------------------

  /** What the encoder writes under one tag: a value, a packed array, or one entry of an unpacked array. */
  datatype Record = Single(field: nat, v: Value) | Packed(field: nat, items: seq<Value>) | Item(field: nat, v: Value)

  predicate Packable(k: Kind) {
    k.Boolean? || k.Varint? || k.UVarint? || k.SVarint? || k.Fixed32? || k.Fixed64?
  }

  function ItemsOf(j: nat, items: seq<Value>): (rs: seq<Record>)
    ensures |rs| == |items| && forall i :: 0 <= i < |items| ==> rs[i] == Item(j, items[i])
  {
    seq(|items|, i requires 0 <= i < |items| => Item(j, items[i]))
  }

  function FieldRecords(f: Field, j: nat, s: Slot): seq<Record> {
    match s
    case One(v) => if f.rule.Singular? && IsZero(f, v) then [] else [Single(j, v)]
    case Opt(o) => if o.Some? then [Single(j, o.value)] else []
    case Many(items) => if items == [] then [] else if Packable(f.kind) then [Packed(j, items)] else ItemsOf(j, items)
  }

  /** The records of the first `n` fields. */
  function Records(desc: Desc, slots: seq<Slot>, n: nat): seq<Record>
    requires n <= |desc.fields| && n <= |slots|
  {
    if n == 0 then [] else Records(desc, slots, n - 1) + FieldRecords(desc.fields[n - 1], n - 1, slots[n - 1])
  }

  // --- bytes -----------------------------------------------------------------------------------------

  const VARINT: nat := 0
  const BITS64: nat := 1
  const STRING: nat := 2
  const BITS32: nat := 5

  function WireType(k: Kind): nat {
    match k
    case Boolean => VARINT
    case Varint => VARINT
    case UVarint => VARINT
    case SVarint => VARINT
    case Fixed32 => BITS32
    case Fixed64 => BITS64
    case _ => STRING
  }

  function TagBytes(tag: nat, wireType: nat): Bytes {
    EncodeVarint(8 * tag + wireType)
  }

  /** The 64-bit two's complement of a number. */
  function Unsigned(n: int): nat
    requires -0x8000_0000_0000_0000 <= n < FIXED64
  {
    if n < 0 then n + FIXED64 else n
  }

  function ZigZag(n: int): nat {
    if n < 0 then -2 * n - 1 else 2 * n
  }

  function Payload(f: Field, v: Value): Bytes
    requires ValueOk(Held, f, v)
    decreases f, 0, 0
  {
    match f.kind
    case Boolean => EncodeVarint(v.n)
    case Varint => EncodeVarint(Unsigned(v.n))
    case UVarint => EncodeVarint(v.n)
    case SVarint => EncodeVarint(ZigZag(v.n))
    case Fixed32 => EncodeFixed32(v.n)
    case Fixed64 => EncodeFixed64(v.n)
    case Submessage(desc) => PutString(Encoding(desc, v.slots))
    case _ => PutString(v.bytes)
  }

  function Payloads(f: Field, items: seq<Value>): Bytes
    requires forall i :: 0 <= i < |items| ==> ValueOk(Held, f, items[i])
    decreases f, 1, |items|
  {
    if items == [] then [] else Payloads(f, items[..|items| - 1]) + Payload(f, items[|items| - 1])
  }

  predicate RecordOk(d: Demand, desc: Desc, r: Record) {
    && r.field < |desc.fields|
    && match r
       case Single(j, v) => ValueOk(d, desc.fields[j], v)
       case Item(j, v) => ValueOk(d, desc.fields[j], v)
       case Packed(j, items) => forall i :: 0 <= i < |items| ==> ValueOk(d, desc.fields[j], items[i])
  }

  predicate RecordsOk(d: Demand, desc: Desc, rs: seq<Record>) {
    forall i :: 0 <= i < |rs| ==> RecordOk(d, desc, rs[i])
  }

  function RecordBytes(desc: Desc, r: Record): Bytes
    requires RecordOk(Held, desc, r)
    decreases desc, 0, 0
  {
    var f := desc.fields[r.field];
    match r
    case Single(_, v) => TagBytes(f.tag, WireType(f.kind)) + Payload(f, v)
    case Item(_, v) => TagBytes(f.tag, WireType(f.kind)) + Payload(f, v)
    case Packed(_, items) => TagBytes(f.tag, STRING) + PutString(Payloads(f, items))
  }

  function RecordsBytes(desc: Desc, rs: seq<Record>): Bytes
    requires RecordsOk(Held, desc, rs)
    decreases desc, 1, |rs|
  {
    if rs == [] then [] else RecordsBytes(desc, rs[..|rs| - 1]) + RecordBytes(desc, rs[|rs| - 1])
  }

  /** The encoding of a message: its records, in the order of the descriptor. */
  function Encoding(desc: Desc, slots: seq<Slot>): Bytes
    requires MessageOk(Held, desc, slots)
    decreases desc, 2, 0
  {
    MessageRecordsOk(Held, desc, slots, |slots|);
    RecordsBytes(desc, Records(desc, slots, |slots|))
  }

  lemma FieldRecordsOk(d: Demand, desc: Desc, j: nat, s: Slot)
    requires j < |desc.fields| && SlotOk(d, desc.fields[j], s)
    ensures RecordsOk(d, desc, FieldRecords(desc.fields[j], j, s))
  {
  }

  lemma {:induction false} MessageRecordsOk(d: Demand, desc: Desc, slots: seq<Slot>, n: nat)
    requires MessageOk(d, desc, slots) && n <= |slots|
    ensures RecordsOk(d, desc, Records(desc, slots, n))
  {
    hide RecordOk, FieldRecords, SlotOk;
    if n > 0 {
      MessageRecordsOk(d, desc, slots, n - 1);
      FieldRecordsOk(d, desc, n - 1, slots[n - 1]);
    }
  }

  lemma {:induction false} UnsetAt(desc: Desc, slots: seq<Slot>, n: nat, i: nat)
    requires i < n <= |desc.fields| && AllUnset(desc, slots, n)
    ensures i < |slots| && IsUnset(desc.fields[i], slots[i])
  {
    if i < n - 1 {
      UnsetAt(desc, slots, n - 1, i);
    }
  }
}
