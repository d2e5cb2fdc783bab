/** Encoding and decoding a message (nanopb: pb_encode, pb_decode): when the round trip restores it. */
module NanopbRoundTrip {
  import opened Spec
  import opened Coding
  import opened Nanopb
  import opened NanopbReplay
  import opened NanopbEncode
  import opened NanopbDecode

  /** What survives the round trip can be encoded. */
  lemma {:induction false} SendableValue(f: Field, v: Value)
    requires ValueOk(Sendable, f, v)
    ensures ValueOk(Encodable, f, v) && ValueOk(Held, f, v)
    decreases f
  {
    if f.kind.Submessage? {
      SendableMessage(f.kind.desc, v.slots);
    }
  }

  lemma {:induction false} SendableMessage(desc: Desc, m: seq<Slot>)
    requires MessageOk(Sendable, desc, m)
    ensures MessageOk(Encodable, desc, m) && MessageOk(Held, desc, m)
    decreases desc
  {
    forall i | 0 <= i < |m| ensures SlotOk(Encodable, desc.fields[i], m[i]) && SlotOk(Held, desc.fields[i], m[i]) {
      var f := desc.fields[i];
      assert SlotOk(Sendable, f, m[i]);
      match m[i]
      case One(v) => SendableValue(f, v);
      case Opt(o) => if o.Some? { SendableValue(f, o.value); }
      case Many(items) =>
        forall k | 0 <= k < |items| ensures ValueOk(Encodable, f, items[k]) && ValueOk(Held, f, items[k]) {
          SendableValue(f, items[k]);
        }
    }
  }

  /**
   A message encoded into a buffer of `room` bytes and decoded from what was written:
   it comes back as it was exactly when it fits and every array, byte array and string
   in it is within its field, the terminating NUL included.
   */
  method RoundTrip(desc: Desc, m: seq<Slot>, room: nat) returns (r: Option<seq<Slot>>)
    requires DescOk(desc) && MessageOk(Held, desc, m) && |Encoding(desc, m)| < WORD
    ensures r == Some(m) <==> |Encoding(desc, m)| <= room && MessageOk(Sendable, desc, m)
    ensures r.Some? ==> MessageOk(Sendable, desc, r.value)
  {
    hide DescOk, MessageOk, Encoding;
    if MessageOk(Sendable, desc, m) {
      SendableMessage(desc, m);
    }
    var out := new OStream.Buffer(room);
    var ok := EncodeMessage(out, desc, m);
    if !ok {
      return None;
    }
    var input := new IStream(out.st.out);
    var slots;
    ok, slots := Decode(input, desc, m);
    r := if ok then Some(slots) else None;
  }

  /** A text that fills its character array is encoded, but cannot be read back. */
  lemma UnterminatedText()
    ensures var desc := Desc([Field(1, Text, Required, 2, 0, None)]);
      var m := [One(Raw([104, 105]))];
      DescOk(desc) && MessageOk(Encodable, desc, m) && !MessageOk(Sendable, desc, m)
  {
    var f := Field(1, Text, Required, 2, 0, None);
    var desc, m := Desc([f]), [One(Raw([104, 105]))];
    assert desc.fields[0] == f && FieldOk(f);
    assert SlotOk(Encodable, f, m[0]) && !SlotOk(Sendable, desc.fields[0], m[0]);
  }
}
