/**
 Reading a message back, record by record (nanopb: pb_decode_noinit and
 decode_static_field, pb_decode.c): what one record does to the structure, and why the
 records of a message, read into a structure at its defaults, restore it.
 */
module NanopbReplay {
  import opened Spec
  import opened Nanopb

  // --- well-formed descriptors --------------------------------------------------------------

  /** Size and default value of a field.  A field without presence has no default but zero. */
  ghost predicate FieldOk(f: Field)
    decreases f
  {
    && 0 < f.tag < 0x2000_0000
    && (f.kind.Varint? || f.kind.UVarint? || f.kind.SVarint? ==> f.dataSize in {1, 2, 4, 8})
    && (f.kind.ByteArray? ==> f.dataSize >= BYTES_HEADER)
    && (f.kind.Text? ==> f.dataSize > 0)
    && (f.kind.Submessage? ==> DescOk(f.kind.desc))
    && (f.init.Some? ==> !f.kind.Submessage? && !f.rule.Singular? && ValueOk(Sendable, f, f.init.value))
  }

  ghost predicate DescOk(desc: Desc)
    decreases desc
  {
    && (forall i :: 0 <= i < |desc.fields| ==> FieldOk(desc.fields[i]))
    && (forall i, j :: 0 <= i < j < |desc.fields| ==> desc.fields[i].tag != desc.fields[j].tag)
  }

  ghost function DefaultsOf(desc: Desc): seq<Slot> {
    Defaults(desc, |desc.fields|)
  }

  lemma {:induction false} DefaultsAt(desc: Desc, n: nat, i: nat)
    requires i < n <= |desc.fields|
    ensures Defaults(desc, n)[i] == DefaultSlot(desc.fields[i])
  {
    if i < n - 1 {
      DefaultsAt(desc, n - 1, i);
    }
  }

  /** Defaults can be sent. */
  lemma {:induction false} InitOk(f: Field)
    requires FieldOk(f)
    ensures ValueOk(Sendable, f, InitValue(f))
    decreases f
  {
    if f.kind.Submessage? {
      DefaultsOk(f.kind.desc);
    }
  }

  lemma {:induction false} DefaultsOk(desc: Desc)
    requires DescOk(desc)
    ensures MessageOk(Sendable, desc, DefaultsOf(desc))
    decreases desc
  {
    var slots := DefaultsOf(desc);
    forall i | 0 <= i < |slots| ensures SlotOk(Sendable, desc.fields[i], slots[i]) {
      DefaultsAt(desc, |slots|, i);
      InitOk(desc.fields[i]);
    }
    forall i, j | 0 <= i < j < |slots| && desc.fields[i].rule.OneOf? && desc.fields[i].rule == desc.fields[j].rule
      ensures slots[i] == Opt(None)
    {
      DefaultsAt(desc, |slots|, i);
    }
  }

  // --- one record ------------------------------------------------------------------------------

  /** The structure, and the repeated field without count that was read last, with how many entries it got. */
  datatype Dest = Dest(slots: seq<Slot>, fixed: Option<nat>, count: nat)

  ghost predicate DestOk(desc: Desc, d: Dest) {
    && |d.slots| == |desc.fields| && MessageOk(Sendable, desc, d.slots)
    && (d.fixed.Some? ==> d.fixed.value < |desc.fields| && desc.fields[d.fixed.value].rule.FixedCount?
                          && d.count <= desc.fields[d.fixed.value].arraySize)
  }

  /** All entries of the last such field have arrived. */
  ghost predicate FixedDone(desc: Desc, d: Dest) {
    d.fixed.Some? && d.fixed.value < |desc.fields| ==> d.count == desc.fields[d.fixed.value].arraySize
  }

  /** Counting starts over when another field without count begins. */
  function Focus(desc: Desc, d: Dest, j: nat): Dest
    requires j < |desc.fields|
  {
    if desc.fields[j].rule.FixedCount? && d.fixed != Some(j) then d.(fixed := Some(j), count := 0) else d
  }

  /** Choosing a member of a union drops the one it held. */
  function Choose(fields: seq<Field>, slots: seq<Slot>, j: nat, v: Value): (r: seq<Slot>)
    requires |fields| == |slots| && j < |slots|
    ensures |r| == |slots| && r[j] == Opt(Some(v))
    ensures forall i :: 0 <= i < |slots| && i != j ==>
              r[i] == if fields[i].rule == fields[j].rule then Opt(None) else slots[i]
  {
    seq(|slots|, i requires 0 <= i < |slots| =>
      if i == j then Opt(Some(v)) else if fields[i].rule == fields[j].rule then Opt(None) else slots[i])
  }

  function PutSingle(desc: Desc, d: Dest, j: nat, v: Value): Dest
    requires j < |desc.fields| == |d.slots|
  {
    match desc.fields[j].rule
    case Required => d.(slots := d.slots[j := One(v)])
    case Singular => d.(slots := d.slots[j := One(v)])
    case Optional => d.(slots := d.slots[j := Opt(Some(v))])
    case OneOf(_) => d.(slots := Choose(desc.fields, d.slots, j, v))
    case _ => d
  }

  /** How many entries an array has so far. */
  function Filled(desc: Desc, d: Dest, j: nat): nat
    requires j < |desc.fields| == |d.slots|
  {
    if desc.fields[j].rule.FixedCount? then d.count else if d.slots[j].Many? then |d.slots[j].items| else 0
  }

  function PutItem(desc: Desc, d: Dest, j: nat, v: Value): (r: Dest)
    requires j < |desc.fields| == |d.slots|
    ensures |r.slots| == |d.slots|
  {
    match d.slots[j]
    case Many(items) =>
      if desc.fields[j].rule.FixedCount? then
        if d.count < |items| then d.(slots := d.slots[j := Many(items[d.count := v])], count := d.count + 1) else d
      else d.(slots := d.slots[j := Many(items + [v])])
    case _ => d
  }

  function PutItems(desc: Desc, d: Dest, j: nat, items: seq<Value>): (r: Dest)
    requires j < |desc.fields| == |d.slots|
    ensures |r.slots| == |d.slots|
  {
    if items == [] then d else PutItem(desc, PutItems(desc, d, j, items[..|items| - 1]), j, items[|items| - 1])
  }

  /** What reading a record does to the structure. */
  function Put(desc: Desc, e: Dest, r: Record): (d: Dest)
    requires r.field < |desc.fields| == |e.slots|
    ensures |d.slots| == |e.slots|
  {
    match r
    case Single(j, v) => PutSingle(desc, e, j, v)
    case Item(j, v) => PutItem(desc, e, j, v)
    case Packed(j, items) => PutItems(desc, e, j, items)
  }

  function Apply(desc: Desc, d: Dest, r: Record): (d': Dest)
    requires r.field < |desc.fields| == |d.slots|
    ensures |d'.slots| == |d.slots|
  {
    Put(desc, Focus(desc, d, r.field), r)
  }

  predicate IsArray(f: Field) {
    f.rule.Repeated? || f.rule.FixedCount?
  }

  /** The record has the shape its field asks for, and its entries have room. */
  ghost predicate Fits(desc: Desc, e: Dest, r: Record)
    requires r.field < |desc.fields| == |e.slots|
  {
    var f, filled := desc.fields[r.field], Filled(desc, e, r.field);
    match r
    case Single(j, v) => !IsArray(f) && (f.kind.Submessage? ==> Fresh(f, e.slots[j]))
    case Item(j, v) => IsArray(f) && !Packable(f.kind) && filled < f.arraySize
    case Packed(j, items) => IsArray(f) && Packable(f.kind) && filled + |items| <= f.arraySize
  }

  /** The record may come next: it fits, and does not cut short another field without count. */
  ghost predicate Applies(desc: Desc, d: Dest, r: Record) {
    && r.field < |desc.fields| == |d.slots|
    && (desc.fields[r.field].rule.FixedCount? && d.fixed != Some(r.field) ==> FixedDone(desc, d))
    && Fits(desc, Focus(desc, d, r.field), r)
  }

  /** A submessage that is not an array entry is read into what is there: here, its defaults. */
  ghost predicate Fresh(f: Field, s: Slot) {
    match s
    case One(v) => v == InitValue(f)
    case Opt(o) => o.None?
    case Many(_) => true
  }

  // --- bounds -------------------------------------------------------------------------------------

  /** Replacing a slot of a field outside unions. */
  lemma SlotReplaced(desc: Desc, slots: seq<Slot>, j: nat, s: Slot)
    requires MessageOk(Sendable, desc, slots) && j < |slots| && SlotOk(Sendable, desc.fields[j], s)
    requires !desc.fields[j].rule.OneOf?
    ensures MessageOk(Sendable, desc, slots[j := s])
  {
    hide SlotOk;
  }

  lemma PutSingleOk(desc: Desc, e: Dest, j: nat, v: Value)
    requires DestOk(desc, e) && j < |desc.fields| && !IsArray(desc.fields[j]) && ValueOk(Sendable, desc.fields[j], v)
    ensures DestOk(desc, PutSingle(desc, e, j, v))
  {
    hide ValueOk;
    var f := desc.fields[j];
    if f.rule.OneOf? {
      var slots := Choose(desc.fields, e.slots, j, v);
      forall i | 0 <= i < |slots| ensures SlotOk(Sendable, desc.fields[i], slots[i]) {
        assert SlotOk(Sendable, desc.fields[i], e.slots[i]);
      }
    } else {
      SlotReplaced(desc, e.slots, j, if f.rule.Optional? then Opt(Some(v)) else One(v));
    }
  }

  lemma PutItemOk(desc: Desc, e: Dest, j: nat, v: Value)
    requires DestOk(desc, e) && j < |desc.fields| && IsArray(desc.fields[j]) && ValueOk(Sendable, desc.fields[j], v)
    requires desc.fields[j].rule.FixedCount? ==> e.fixed == Some(j)
    requires Filled(desc, e, j) < desc.fields[j].arraySize
    ensures var d := PutItem(desc, e, j, v);
            DestOk(desc, d) && d.fixed == e.fixed && Filled(desc, d, j) == Filled(desc, e, j) + 1
  {
    hide ValueOk;
    var f := desc.fields[j];
    assert SlotOk(Sendable, f, e.slots[j]);
    var items := e.slots[j].items;
    SlotReplaced(desc, e.slots, j, Many(if f.rule.FixedCount? then items[e.count := v] else items + [v]));
  }

  lemma FocusOk(desc: Desc, d: Dest, j: nat)
    requires DestOk(desc, d) && j < |desc.fields|
    ensures DestOk(desc, Focus(desc, d, j)) && (desc.fields[j].rule.FixedCount? ==> Focus(desc, d, j).fixed == Some(j))
  {
  }

  // --- runs of records ------------------------------------------------------------------------------

  ghost predicate Legal(desc: Desc, d: Dest, rs: seq<Record>)
    decreases |rs|
  {
    rs == [] || (Applies(desc, d, rs[0]) && Legal(desc, Apply(desc, d, rs[0]), rs[1..]))
  }

  /** Reading records in order. */
  ghost function Run(desc: Desc, d: Dest, rs: seq<Record>): (d': Dest)
    requires Legal(desc, d, rs)
    ensures |d'.slots| == |d.slots|
    decreases |rs|
  {
    if rs == [] then d else Run(desc, Apply(desc, d, rs[0]), rs[1..])
  }

  lemma {:induction false} RunBoth(desc: Desc, d: Dest, rs: seq<Record>, ts: seq<Record>)
    requires Legal(desc, d, rs) && Legal(desc, Run(desc, d, rs), ts)
    ensures Legal(desc, d, rs + ts) && Run(desc, d, rs + ts) == Run(desc, Run(desc, d, rs), ts)
    decreases |rs|
  {
    if rs == [] {
      assert rs + ts == ts;
    } else {
      RunBoth(desc, Apply(desc, d, rs[0]), rs[1..], ts);
      assert (rs + ts)[0] == rs[0] && (rs + ts)[1..] == rs[1..] + ts;
    }
  }

  lemma RunOne(desc: Desc, d: Dest, r: Record)
    requires Applies(desc, d, r)
    ensures Legal(desc, d, [r]) && Run(desc, d, [r]) == Apply(desc, d, r)
  {
    assert [r][1..] == [];
    assert Legal(desc, Apply(desc, d, r), []);
  }

  // --- the records of a message ----------------------------------------------------------------------

  /** The first `n` fields as in `m`, the others at their defaults. */
  ghost function Mixed(desc: Desc, m: seq<Slot>, n: nat): seq<Slot>
    requires n <= |m| == |desc.fields|
  {
    m[..n] + DefaultsOf(desc)[n..]
  }

  ghost predicate ReadTo(desc: Desc, m: seq<Slot>, n: nat, d: Dest)
    requires n <= |m| == |desc.fields|
  {
    && d.slots == Mixed(desc, m, n) && FixedDone(desc, d)
    && (d.fixed.Some? ==> d.fixed.value < n)
  }

  lemma MixedAt(desc: Desc, m: seq<Slot>, n: nat)
    requires n < |m| == |desc.fields|
    ensures Mixed(desc, m, n)[n] == DefaultSlot(desc.fields[n])
    ensures Mixed(desc, m, n)[n := m[n]] == Mixed(desc, m, n + 1)
  {
    DefaultsAt(desc, |desc.fields|, n);
  }

  /** A value not sent is the default. */
  lemma {:induction false} ZeroIsInit(f: Field, v: Value)
    requires FieldOk(f) && f.rule.Singular? && ValueOk(Sendable, f, v) && IsZero(f, v)
    ensures v == InitValue(f)
    decreases f
  {
    if f.kind.Submessage? {
      UnsetIsDefault(f.kind.desc, v.slots);
    }
  }

  lemma {:induction false} UnsetIsDefault(desc: Desc, slots: seq<Slot>)
    requires DescOk(desc) && MessageOk(Sendable, desc, slots) && AllUnset(desc, slots, |desc.fields|)
    ensures slots == DefaultsOf(desc)
    decreases desc
  {
    forall i | 0 <= i < |slots| ensures slots[i] == DefaultsOf(desc)[i] {
      DefaultsAt(desc, |slots|, i);
      UnsetAt(desc, slots, |slots|, i);
      assert SlotOk(Sendable, desc.fields[i], slots[i]);
      if desc.fields[i].rule.Singular? {
        ZeroIsInit(desc.fields[i], slots[i].v);
      }
    }
  }

  // --- arrays, entry by entry ---------------------------------------------------------------------------

  /** `d` with the first `k` entries of array `j` read. */
  ghost function Entries(desc: Desc, d: Dest, j: nat, items: seq<Value>, k: nat): Dest
    requires j < |desc.fields| == |d.slots| && k <= |items|
  {
    var f := desc.fields[j];
    if f.rule.FixedCount? && k > 0 && |items| == f.arraySize then
      Dest(d.slots[j := Many(items[..k] + Copies(InitValue(f), f.arraySize)[k..])], Some(j), k)
    else if f.rule.Repeated? && k > 0 then d.(slots := d.slots[j := Many(items[..k])])
    else d
  }

  /** The array is at its default, and no other field without count is unfinished. */
  ghost predicate ArrayStart(desc: Desc, d: Dest, j: nat, items: seq<Value>) {
    && j < |desc.fields| == |d.slots| && IsArray(desc.fields[j])
    && d.slots[j] == DefaultSlot(desc.fields[j]) && FixedDone(desc, d) && d.fixed != Some(j)
    && (desc.fields[j].rule.FixedCount? ==> |items| == desc.fields[j].arraySize)
    && |items| <= desc.fields[j].arraySize
  }

  lemma NextEntry(desc: Desc, d: Dest, j: nat, items: seq<Value>, k: nat)
    requires ArrayStart(desc, d, j, items) && k < |items|
    ensures PutItem(desc, Focus(desc, Entries(desc, d, j, items, k), j), j, items[k])
            == Entries(desc, d, j, items, k + 1)
    ensures Filled(desc, Focus(desc, Entries(desc, d, j, items, k), j), j) == k
    ensures desc.fields[j].rule.FixedCount? && Entries(desc, d, j, items, k).fixed != Some(j) ==>
              FixedDone(desc, Entries(desc, d, j, items, k))
  {
    var f, e := desc.fields[j], Entries(desc, d, j, items, k);
    assert items[..k + 1] == items[..k] + [items[k]];
    if f.rule.FixedCount? {
      var zeros := Copies(InitValue(f), f.arraySize);
      assert (items[..k] + zeros[k..])[k := items[k]] == items[..k + 1] + zeros[k + 1..];
      assert k == 0 ==> zeros == items[..k] + zeros[k..];
    }
  }

  lemma {:induction false} ItemsRestore(desc: Desc, d: Dest, j: nat, items: seq<Value>, k: nat)
    requires ArrayStart(desc, d, j, items) && k <= |items| && !Packable(desc.fields[j].kind)
    ensures Legal(desc, Entries(desc, d, j, items, k), ItemsOf(j, items)[k..])
    ensures Run(desc, Entries(desc, d, j, items, k), ItemsOf(j, items)[k..]) == Entries(desc, d, j, items, |items|)
    decreases |items| - k
  {
    hide Entries, PutItem, Focus, Filled, FixedDone;
    var rs := ItemsOf(j, items);
    if k == |items| {
      assert rs[k..] == [];
    } else {
      NextEntry(desc, d, j, items, k);
      ItemsRestore(desc, d, j, items, k + 1);
      assert rs[k..][0] == Item(j, items[k]) && rs[k..][1..] == rs[k + 1..];
      EntriesLength(desc, d, j, items, k);
      assert Applies(desc, Entries(desc, d, j, items, k), Item(j, items[k]));
    }
  }

  lemma EntriesLength(desc: Desc, d: Dest, j: nat, items: seq<Value>, k: nat)
    requires j < |desc.fields| == |d.slots| && k <= |items|
    ensures |Entries(desc, d, j, items, k).slots| == |d.slots|
  {
  }

  lemma {:induction false} PackedRestores(desc: Desc, d: Dest, j: nat, items: seq<Value>, k: nat)
    requires ArrayStart(desc, d, j, items) && 0 < k <= |items|
    ensures PutItems(desc, Focus(desc, d, j), j, items[..k]) == Entries(desc, d, j, items, k)
  {
    assert items[..k][..k - 1] == items[..k - 1];
    NextEntry(desc, d, j, items, k - 1);
    if k == 1 {
      assert items[..0] == [];
    } else {
      PackedRestores(desc, d, j, items, k - 1);
      FocusAgain(desc, d, j, items, k - 1);
    }
  }

  lemma FocusAgain(desc: Desc, d: Dest, j: nat, items: seq<Value>, k: nat)
    requires ArrayStart(desc, d, j, items) && 0 < k <= |items|
    ensures Focus(desc, Entries(desc, d, j, items, k), j) == Entries(desc, d, j, items, k)
  {
  }

  // --- fields and messages -----------------------------------------------------------------------------------

  ghost predicate Restores(desc: Desc, m: seq<Slot>, n: nat, d: Dest, rs: seq<Record>)
    requires n < |m| == |desc.fields|
  {
    Legal(desc, d, rs) && ReadTo(desc, m, n + 1, Run(desc, d, rs))
  }

  lemma ArrayRestores(desc: Desc, m: seq<Slot>, n: nat, d: Dest)
    requires n < |m| == |desc.fields| && IsArray(desc.fields[n]) && SlotOk(Sendable, desc.fields[n], m[n])
    requires ReadTo(desc, m, n, d)
    ensures Restores(desc, m, n, d, FieldRecords(desc.fields[n], n, m[n]))
  {
    hide ValueOk;
    var f, items := desc.fields[n], m[n].items;
    MixedAt(desc, m, n);
    var rs := FieldRecords(f, n, m[n]);
    if items == [] {
      assert m[n] == DefaultSlot(f);
      assert Mixed(desc, m, n) == Mixed(desc, m, n)[n := m[n]];
    } else {
      assert ArrayStart(desc, d, n, items);
      WholeArray(desc, d, n, items);
      if Packable(f.kind) {
        PackedRestores(desc, d, n, items, |items|);
        assert items[..|items|] == items;
        PackedApplies(desc, d, n, items);
        RunOne(desc, d, Packed(n, items));
      } else {
        ItemsRestore(desc, d, n, items, 0);
        assert rs[0..] == rs;
      }
    }
  }

  lemma PackedApplies(desc: Desc, d: Dest, j: nat, items: seq<Value>)
    requires ArrayStart(desc, d, j, items) && Packable(desc.fields[j].kind)
    ensures Applies(desc, d, Packed(j, items))
  {
  }

  lemma WholeArray(desc: Desc, d: Dest, j: nat, items: seq<Value>)
    requires ArrayStart(desc, d, j, items) && items != []
    ensures Entries(desc, d, j, items, 0) == d
    ensures Entries(desc, d, j, items, |items|).slots == d.slots[j := Many(items)]
    ensures FixedDone(desc, Entries(desc, d, j, items, |items|))
    ensures var e := Entries(desc, d, j, items, |items|); e.fixed == d.fixed || e.fixed == Some(j)
  {
    var f := desc.fields[j];
    assert items[..|items|] == items;
    if f.rule.FixedCount? {
      assert items[..|items|] + Copies(InitValue(f), f.arraySize)[|items|..] == items;
    }
  }

  lemma SingleRestores(desc: Desc, m: seq<Slot>, n: nat, d: Dest)
    requires n < |m| == |desc.fields| && !IsArray(desc.fields[n]) && MessageOk(Sendable, desc, m)
    requires FieldOk(desc.fields[n])
    requires ReadTo(desc, m, n, d)
    ensures Restores(desc, m, n, d, FieldRecords(desc.fields[n], n, m[n]))
  {
    hide ValueOk, FieldOk;
    var f, s := desc.fields[n], m[n];
    assert SlotOk(Sendable, f, s);
    MixedAt(desc, m, n);
    var rs := FieldRecords(f, n, s);
    if rs == [] {
      if s.One? {
        ZeroIsInit(f, s.v);
      }
      assert s == DefaultSlot(f);
      assert Mixed(desc, m, n) == Mixed(desc, m, n)[n := s];
    } else {
      var v := if s.One? then s.v else s.o.value;
      assert rs == [Single(n, v)];
      RunOne(desc, d, rs[0]);
      if f.rule.OneOf? {
        ChosenAlone(desc, m, n, v);
      }
    }
  }

  /** Nothing else of the union is set yet, nor ever will be. */
  lemma ChosenAlone(desc: Desc, m: seq<Slot>, n: nat, v: Value)
    requires n < |m| == |desc.fields| && OneOfOk(desc.fields, m) && desc.fields[n].rule.OneOf? && m[n] == Opt(Some(v))
    ensures Choose(desc.fields, Mixed(desc, m, n), n, v) == Mixed(desc, m, n + 1)
  {
    var a, b := Choose(desc.fields, Mixed(desc, m, n), n, v), Mixed(desc, m, n + 1);
    forall i | 0 <= i < |a| ensures a[i] == b[i] {
      if i > n {
        DefaultsAt(desc, |desc.fields|, i);
      }
    }
  }

  lemma {:induction false} PrefixRestores(desc: Desc, m: seq<Slot>, n: nat)
    requires DescOk(desc) && MessageOk(Sendable, desc, m) && n <= |m|
    ensures Legal(desc, Dest(DefaultsOf(desc), None, 0), Records(desc, m, n))
    ensures ReadTo(desc, m, n, Run(desc, Dest(DefaultsOf(desc), None, 0), Records(desc, m, n)))
  {
    var start := Dest(DefaultsOf(desc), None, 0);
    if n == 0 {
      assert Mixed(desc, m, 0) == DefaultsOf(desc);
    } else {
      PrefixRestores(desc, m, n - 1);
      var d := Run(desc, start, Records(desc, m, n - 1));
      assert SlotOk(Sendable, desc.fields[n - 1], m[n - 1]);
      if IsArray(desc.fields[n - 1]) {
        ArrayRestores(desc, m, n - 1, d);
      } else {
        SingleRestores(desc, m, n - 1, d);
      }
      RunBoth(desc, start, Records(desc, m, n - 1), FieldRecords(desc.fields[n - 1], n - 1, m[n - 1]));
    }
  }

  /** The records of a message, read into a structure at its defaults, restore the message. */
  lemma RecordsRestore(desc: Desc, m: seq<Slot>)
    requires DescOk(desc) && MessageOk(Sendable, desc, m)
    ensures Legal(desc, Dest(DefaultsOf(desc), None, 0), Records(desc, m, |m|))
    ensures var d := Run(desc, Dest(DefaultsOf(desc), None, 0), Records(desc, m, |m|));
            d.slots == m && FixedDone(desc, d)
  {
    PrefixRestores(desc, m, |m|);
    assert Mixed(desc, m, |m|) == m;
  }
}
