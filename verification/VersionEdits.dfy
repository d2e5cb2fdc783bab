/**
 Manifest records (db/version_edit.cc): a VersionEdit written as tagged fields and read
 back.
 */
module VersionEdits {
  import opened Spec
  import opened Coding

  const NUM_LEVELS: nat := 7

  /** FileMetaData as the manifest keeps it. */
  datatype FileMeta = FileMeta(number: nat, size: nat, smallest: Bytes, largest: Bytes)

  datatype Edit = Edit(
    comparator: Option<Bytes>,
    logNumber: Option<nat>,
    prevLogNumber: Option<nat>,
    nextFileNumber: Option<nat>,
    lastSequence: Option<nat>,
    compactPointers: seq<(nat, Bytes)>,
    deletedFiles: set<(nat, nat)>,
    newFiles: seq<(nat, FileMeta)>)

  const EMPTY: Edit := Edit(None, None, None, None, None, [], {}, [])

  // --- fields --------------------------------------------------------------------------------

  datatype Field =
    | Comparator(name: Bytes)
    | LogNumber(number: nat)
    | PrevLogNumber(number: nat)
    | NextFileNumber(number: nat)
    | LastSequence(number: nat)
    | CompactPointer(level: nat, key: Bytes)
    | DeletedFile(level: nat, number: nat)
    | NewFile(level: nat, file: FileMeta)

  function TagOf(f: Field): nat {
    match f
    case Comparator(_) => 1
    case LogNumber(_) => 2
    case NextFileNumber(_) => 3
    case LastSequence(_) => 4
    case CompactPointer(_, _) => 5
    case DeletedFile(_, _) => 6
    case NewFile(_, _) => 7
    case PrevLogNumber(_) => 9
  }

  function Body(f: Field): Bytes {
    match f
    case Comparator(name) => PutString(name)
    case LogNumber(n) => EncodeVarint(n)
    case PrevLogNumber(n) => EncodeVarint(n)
    case NextFileNumber(n) => EncodeVarint(n)
    case LastSequence(n) => EncodeVarint(n)
    case CompactPointer(level, key) => EncodeVarint(level) + PutString(key)
    case DeletedFile(level, number) => EncodeVarint(level) + EncodeVarint(number)
    case NewFile(level, file) =>
      EncodeVarint(level)
      + (EncodeVarint(file.number) + (EncodeVarint(file.size) + (PutString(file.smallest) + PutString(file.largest))))
  }

  function EncodeField(f: Field): Bytes {
    EncodeVarint(TagOf(f)) + Body(f)
  }

  /** What fits the format: 64-bit numbers, levels that exist, keys that are not empty. */
  predicate KeyOk(k: Bytes) {
    0 < |k| < WORD
  }

  predicate MetaOk(f: FileMeta) {
    f.number < FIXED64 && f.size < FIXED64 && KeyOk(f.smallest) && KeyOk(f.largest)
  }

  predicate FieldOk(f: Field) {
    match f
    case Comparator(name) => |name| < WORD
    case LogNumber(n) => n < FIXED64
    case PrevLogNumber(n) => n < FIXED64
    case NextFileNumber(n) => n < FIXED64
    case LastSequence(n) => n < FIXED64
    case CompactPointer(level, key) => level < NUM_LEVELS && KeyOk(key)
    case DeletedFile(level, number) => level < NUM_LEVELS && number < FIXED64
    case NewFile(level, file) => level < NUM_LEVELS && MetaOk(file)
  }

  // --- reading a field ---------------------------------------------------------------------------

  function GetNumber(b: Bytes): (r: Option<Parsed<nat>>)
    ensures r.Some? ==> 0 < r.value.used <= |b|
  {
    GetVarint64(b)
  }

  function GetLevel(b: Bytes): (r: Option<Parsed<nat>>)
    ensures r.Some? ==> 0 < r.value.used <= |b| && r.value.value < NUM_LEVELS
  {
    match GetVarint32(b)
    case None => None
    case Some(p) => if p.value < NUM_LEVELS then Some(p) else None
  }

  function GetKey(b: Bytes): (r: Option<Parsed<Bytes>>)
    ensures r.Some? ==> r.value.used <= |b|
  {
    match GetString(b)
    case None => None
    case Some(p) => if p.value != [] then Some(p) else None
  }

  function ReadNewFile(b: Bytes): (r: Option<Parsed<Field>>)
    ensures r.Some? ==> r.value.used <= |b|
  {
    match GetLevel(b)
    case None => None
    case Some(level) =>
      match GetNumber(b[level.used..])
      case None => None
      case Some(number) =>
        var b1 := b[level.used + number.used..];
        match GetNumber(b1)
        case None => None
        case Some(size) =>
          match GetKey(b1[size.used..])
          case None => None
          case Some(smallest) =>
            match GetKey(b1[size.used + smallest.used..])
            case None => None
            case Some(largest) =>
              Some(Parsed(NewFile(level.value, FileMeta(number.value, size.value, smallest.value, largest.value)),
                          level.used + number.used + size.used + smallest.used + largest.used))
  }

  function NumberField(tag: nat, n: nat): Field {
    if tag == 2 then LogNumber(n) else if tag == 3 then NextFileNumber(n)
    else if tag == 4 then LastSequence(n) else PrevLogNumber(n)
  }

  function ReadNumber(tag: nat, b: Bytes): (r: Option<Parsed<Field>>)
    ensures r.Some? ==> r.value.used <= |b|
  {
    match GetNumber(b)
    case None => None
    case Some(p) => Some(Parsed(NumberField(tag, p.value), p.used))
  }

  function ReadComparator(b: Bytes): (r: Option<Parsed<Field>>)
    ensures r.Some? ==> r.value.used <= |b|
  {
    match GetString(b)
    case None => None
    case Some(p) => Some(Parsed(Comparator(p.value), p.used))
  }

  function ReadCompactPointer(b: Bytes): (r: Option<Parsed<Field>>)
    ensures r.Some? ==> r.value.used <= |b|
  {
    match GetLevel(b)
    case None => None
    case Some(level) =>
      match GetKey(b[level.used..])
      case None => None
      case Some(k) => Some(Parsed(CompactPointer(level.value, k.value), level.used + k.used))
  }

  function ReadDeletedFile(b: Bytes): (r: Option<Parsed<Field>>)
    ensures r.Some? ==> r.value.used <= |b|
  {
    match GetLevel(b)
    case None => None
    case Some(level) =>
      match GetNumber(b[level.used..])
      case None => None
      case Some(n) => Some(Parsed(DeletedFile(level.value, n.value), level.used + n.used))
  }

  function ReadBody(tag: nat, b: Bytes): (r: Option<Parsed<Field>>)
    ensures r.Some? ==> r.value.used <= |b|
  {
    if tag == 1 then ReadComparator(b)
    else if tag == 2 || tag == 3 || tag == 4 || tag == 9 then ReadNumber(tag, b)
    else if tag == 5 then ReadCompactPointer(b)
    else if tag == 6 then ReadDeletedFile(b)
    else if tag == 7 then ReadNewFile(b)
    else None
  }

  // --- what was written is read ----------------------------------------------------------------------

  lemma NumberBack(n: nat, rest: Bytes)
    requires n < FIXED64
    ensures GetNumber(EncodeVarint(n) + rest) == Some(Parsed(n, |EncodeVarint(n)|))
  {
    Varint64RoundTrip(n, rest);
  }

  lemma LevelBack(n: nat, rest: Bytes)
    requires n < NUM_LEVELS
    ensures GetLevel(EncodeVarint(n) + rest) == Some(Parsed(n, |EncodeVarint(n)|))
  {
    Varint32RoundTrip(n, rest);
  }

  lemma KeyBack(k: Bytes, rest: Bytes)
    requires KeyOk(k)
    ensures GetKey(PutString(k) + rest) == Some(Parsed(k, |PutString(k)|))
  {
    StringRoundTrip(k, rest);
  }

  lemma Skip(a: Bytes, b: Bytes, rest: Bytes)
    ensures (a + b) + rest == a + (b + rest) && ((a + b) + rest)[|a|..] == b + rest
  {
  }

  lemma TwoBack(level: nat, tail: Bytes, rest: Bytes)
    requires level < NUM_LEVELS
    ensures GetLevel((EncodeVarint(level) + tail) + rest) == Some(Parsed(level, |EncodeVarint(level)|))
    ensures ((EncodeVarint(level) + tail) + rest)[|EncodeVarint(level)|..] == tail + rest
  {
    hide GetLevel, EncodeVarint;
    Skip(EncodeVarint(level), tail, rest);
    LevelBack(level, tail + rest);
  }

  lemma NewFileBack(level: nat, f: FileMeta, rest: Bytes)
    requires level < NUM_LEVELS && MetaOk(f)
    ensures ReadNewFile(Body(NewFile(level, f)) + rest) == Some(Parsed(NewFile(level, f), |Body(NewFile(level, f))|))
  {
    hide GetLevel, GetNumber, GetKey, EncodeVarint, PutString;
    var n, z, s, l := EncodeVarint(f.number), EncodeVarint(f.size), PutString(f.smallest), PutString(f.largest);
    var b := Body(NewFile(level, f)) + rest;
    var e := EncodeVarint(level);
    TwoBack(level, n + (z + (s + l)), rest);
    Skip(n, z + (s + l), rest);
    NumberBack(f.number, (z + (s + l)) + rest);
    assert b[|e| + |n|..] == (z + (s + l)) + rest;
    Skip(z, s + l, rest);
    NumberBack(f.size, (s + l) + rest);
    Skip(s, l, rest);
    KeyBack(f.smallest, l + rest);
    KeyBack(f.largest, rest);
    assert b[|e| + |n|..][|z| + |s|..] == l + rest;
  }

  lemma BodyBack(f: Field, rest: Bytes)
    requires FieldOk(f)
    ensures ReadBody(TagOf(f), Body(f) + rest) == Some(Parsed(f, |Body(f)|))
  {
    hide GetLevel, GetNumber, GetKey, GetString, EncodeVarint, PutString, ReadNewFile;
    match f
    case Comparator(name) => StringRoundTrip(name, rest);
    case LogNumber(n) => NumberBack(n, rest);
    case PrevLogNumber(n) => NumberBack(n, rest);
    case NextFileNumber(n) => NumberBack(n, rest);
    case LastSequence(n) => NumberBack(n, rest);
    case CompactPointer(level, key) =>
      TwoBack(level, PutString(key), rest);
      KeyBack(key, rest);
    case DeletedFile(level, number) =>
      TwoBack(level, EncodeVarint(number), rest);
      NumberBack(number, rest);
    case NewFile(level, file) => NewFileBack(level, file, rest);
  }

  /** A tag and its body. */
  function ReadField(b: Bytes): (r: Option<Parsed<Field>>)
    ensures r.Some? ==> 0 < r.value.used <= |b|
  {
    match GetVarint32(b)
    case None => None
    case Some(tag) =>
      match ReadBody(tag.value, b[tag.used..])
      case None => None
      case Some(p) => Some(Parsed(p.value, tag.used + p.used))
  }

  /** A field is read back whatever follows it. */
  lemma FieldRoundTrip(f: Field, rest: Bytes)
    requires FieldOk(f)
    ensures ReadField(EncodeField(f) + rest) == Some(Parsed(f, |EncodeField(f)|))
  {
    hide ReadBody, Body, EncodeVarint, GetVarint32;
    var t := EncodeVarint(TagOf(f));
    Skip(t, Body(f), rest);
    Varint32RoundTrip(TagOf(f), Body(f) + rest);
    BodyBack(f, rest);
  }

  // --- whole edits ------------------------------------------------------------------------------------

  function EncodeFields(fs: seq<Field>): Bytes {
    if fs == [] then [] else EncodeField(fs[0]) + EncodeFields(fs[1..])
  }

  function PointerFields(ps: seq<(nat, Bytes)>): (fs: seq<Field>)
    ensures |fs| == |ps| && forall i :: 0 <= i < |ps| ==> fs[i] == CompactPointer(ps[i].0, ps[i].1)
  {
    seq(|ps|, i requires 0 <= i < |ps| => CompactPointer(ps[i].0, ps[i].1))
  }

  function DeletedFields(ds: seq<(nat, nat)>): (fs: seq<Field>)
    ensures |fs| == |ds| && forall i :: 0 <= i < |ds| ==> fs[i] == DeletedFile(ds[i].0, ds[i].1)
  {
    seq(|ds|, i requires 0 <= i < |ds| => DeletedFile(ds[i].0, ds[i].1))
  }

  function NewFields(ns: seq<(nat, FileMeta)>): (fs: seq<Field>)
    ensures |fs| == |ns| && forall i :: 0 <= i < |ns| ==> fs[i] == NewFile(ns[i].0, ns[i].1)
  {
    seq(|ns|, i requires 0 <= i < |ns| => NewFile(ns[i].0, ns[i].1))
  }

  function HeadFields(e: Edit): seq<Field> {
    (if e.comparator.Some? then [Comparator(e.comparator.value)] else []) + NumberFields(e)
  }

  function NumberFields(e: Edit): seq<Field> {
    (if e.logNumber.Some? then [LogNumber(e.logNumber.value)] else [])
    + (if e.prevLogNumber.Some? then [PrevLogNumber(e.prevLogNumber.value)] else []) + CounterFields(e)
  }

  function CounterFields(e: Edit): seq<Field> {
    (if e.nextFileNumber.Some? then [NextFileNumber(e.nextFileNumber.value)] else [])
    + (if e.lastSequence.Some? then [LastSequence(e.lastSequence.value)] else [])
  }

  /** The fields of an edit in the order they are written; `ds` lists the deleted files. */
  function Fields(e: Edit, ds: seq<(nat, nat)>): seq<Field> {
    HeadFields(e) + PointerFields(e.compactPointers) + DeletedFields(ds) + NewFields(e.newFiles)
  }

  ghost predicate Lists(ds: seq<(nat, nat)>, S: set<(nat, nat)>) {
    (forall x :: x in ds <==> x in S) && forall i, j :: 0 <= i < j < |ds| ==> ds[i] != ds[j]
  }

  ghost predicate EditOk(e: Edit) {
    && (e.comparator.Some? ==> |e.comparator.value| < WORD)
    && (e.logNumber.Some? ==> e.logNumber.value < FIXED64)
    && (e.prevLogNumber.Some? ==> e.prevLogNumber.value < FIXED64)
    && (e.nextFileNumber.Some? ==> e.nextFileNumber.value < FIXED64)
    && (e.lastSequence.Some? ==> e.lastSequence.value < FIXED64)
    && (forall i :: 0 <= i < |e.compactPointers| ==>
          e.compactPointers[i].0 < NUM_LEVELS && KeyOk(e.compactPointers[i].1))
    && (forall x :: x in e.deletedFiles ==> x.0 < NUM_LEVELS && x.1 < FIXED64)
    && (forall i :: 0 <= i < |e.newFiles| ==> e.newFiles[i].0 < NUM_LEVELS && MetaOk(e.newFiles[i].1))
  }

  ghost predicate AllFieldsOk(fs: seq<Field>) {
    forall i :: 0 <= i < |fs| ==> FieldOk(fs[i])
  }

  lemma HeadFieldsOk(e: Edit)
    requires EditOk(e)
    ensures AllFieldsOk(HeadFields(e))
  {
  }

  lemma ListedFieldsOk(e: Edit, ds: seq<(nat, nat)>)
    requires EditOk(e) && Lists(ds, e.deletedFiles)
    ensures AllFieldsOk(PointerFields(e.compactPointers)) && AllFieldsOk(DeletedFields(ds))
    ensures AllFieldsOk(NewFields(e.newFiles))
  {
    forall i | 0 <= i < |ds| ensures FieldOk(DeletedFields(ds)[i]) {
      assert ds[i] in e.deletedFiles;
    }
  }

  lemma FieldsOk(e: Edit, ds: seq<(nat, nat)>)
    requires EditOk(e) && Lists(ds, e.deletedFiles)
    ensures AllFieldsOk(Fields(e, ds))
  {
    hide FieldOk, EditOk, HeadFields, PointerFields, DeletedFields, NewFields;
    HeadFieldsOk(e);
    ListedFieldsOk(e, ds);
  }

  /** What decoding does with a field. */
  function Take(e: Edit, f: Field): Edit {
    match f
    case Comparator(name) => e.(comparator := Some(name))
    case LogNumber(n) => e.(logNumber := Some(n))
    case PrevLogNumber(n) => e.(prevLogNumber := Some(n))
    case NextFileNumber(n) => e.(nextFileNumber := Some(n))
    case LastSequence(n) => e.(lastSequence := Some(n))
    case CompactPointer(level, key) => e.(compactPointers := e.compactPointers + [(level, key)])
    case DeletedFile(level, number) => e.(deletedFiles := e.deletedFiles + {(level, number)})
    case NewFile(level, file) => e.(newFiles := e.newFiles + [(level, file)])
  }

  function TakeAll(e: Edit, fs: seq<Field>): Edit
    decreases |fs|
  {
    if fs == [] then e else TakeAll(Take(e, fs[0]), fs[1..])
  }

  lemma {:induction false} TakeConcat(e: Edit, a: seq<Field>, b: seq<Field>)
    ensures TakeAll(e, a + b) == TakeAll(TakeAll(e, a), b)
    decreases |a|
  {
    if a == [] {
      assert a + b == b;
    } else {
      assert (a + b)[1..] == a[1..] + b;
      TakeConcat(Take(e, a[0]), a[1..], b);
    }
  }

  lemma {:induction false} TakePointers(e: Edit, ps: seq<(nat, Bytes)>)
    ensures TakeAll(e, PointerFields(ps)) == e.(compactPointers := e.compactPointers + ps)
    decreases |ps|
  {
    if ps == [] {
      assert e.compactPointers + ps == e.compactPointers;
    } else {
      assert PointerFields(ps)[1..] == PointerFields(ps[1..]);
      TakePointers(e.(compactPointers := e.compactPointers + [(ps[0].0, ps[0].1)]), ps[1..]);
      assert e.compactPointers + [(ps[0].0, ps[0].1)] + ps[1..] == e.compactPointers + ps;
    }
  }

  lemma {:induction false} TakeDeleted(e: Edit, ds: seq<(nat, nat)>)
    ensures TakeAll(e, DeletedFields(ds)) == e.(deletedFiles := e.deletedFiles + set x | x in ds)
    decreases |ds|
  {
    if ds == [] {
      assert e.deletedFiles + (set x | x in ds) == e.deletedFiles;
    } else {
      assert DeletedFields(ds)[1..] == DeletedFields(ds[1..]);
      TakeDeleted(e.(deletedFiles := e.deletedFiles + {(ds[0].0, ds[0].1)}), ds[1..]);
      assert ds == [ds[0]] + ds[1..];
      assert e.deletedFiles + {(ds[0].0, ds[0].1)} + (set x | x in ds[1..]) == e.deletedFiles + set x | x in ds;
    }
  }

  lemma {:induction false} TakeNew(e: Edit, ns: seq<(nat, FileMeta)>)
    ensures TakeAll(e, NewFields(ns)) == e.(newFiles := e.newFiles + ns)
    decreases |ns|
  {
    if ns == [] {
      assert e.newFiles + ns == e.newFiles;
    } else {
      assert NewFields(ns)[1..] == NewFields(ns[1..]);
      TakeNew(e.(newFiles := e.newFiles + [(ns[0].0, ns[0].1)]), ns[1..]);
      assert e.newFiles + [(ns[0].0, ns[0].1)] + ns[1..] == e.newFiles + ns;
    }
  }

  lemma TakeOne(e: Edit, f: Field)
    ensures TakeAll(e, [f]) == Take(e, f)
  {
    assert TakeAll(Take(e, f), [f][1..]) == Take(e, f);
  }

  lemma TakeCounters(x: Edit, e: Edit)
    requires x.nextFileNumber.None? && x.lastSequence.None?
    ensures TakeAll(x, CounterFields(e)) == x.(nextFileNumber := e.nextFileNumber, lastSequence := e.lastSequence)
  {
    var a, b: seq<Field> := if e.nextFileNumber.Some? then [NextFileNumber(e.nextFileNumber.value)] else [],
                            if e.lastSequence.Some? then [LastSequence(e.lastSequence.value)] else [];
    TakeConcat(x, a, b);
    if e.nextFileNumber.Some? { TakeOne(x, a[0]); }
    if e.lastSequence.Some? { TakeOne(TakeAll(x, a), b[0]); }
  }

  lemma TakeNumbers(x: Edit, e: Edit)
    requires x.logNumber.None? && x.prevLogNumber.None? && x.nextFileNumber.None? && x.lastSequence.None?
    ensures TakeAll(x, NumberFields(e)) == x.(logNumber := e.logNumber, prevLogNumber := e.prevLogNumber,
                                              nextFileNumber := e.nextFileNumber, lastSequence := e.lastSequence)
  {
    var a, b: seq<Field> := if e.logNumber.Some? then [LogNumber(e.logNumber.value)] else [],
                            if e.prevLogNumber.Some? then [PrevLogNumber(e.prevLogNumber.value)] else [];
    TakeConcat(x, a + b, CounterFields(e));
    TakeConcat(x, a, b);
    if e.logNumber.Some? { TakeOne(x, a[0]); }
    if e.prevLogNumber.Some? { TakeOne(TakeAll(x, a), b[0]); }
    TakeCounters(TakeAll(x, a + b), e);
  }

  lemma TakeHead(x: Edit, e: Edit)
    requires x.comparator.None? && x.logNumber.None? && x.prevLogNumber.None? && x.nextFileNumber.None?
    requires x.lastSequence.None?
    ensures TakeAll(x, HeadFields(e)) == x.(comparator := e.comparator, logNumber := e.logNumber,
                                            prevLogNumber := e.prevLogNumber,
                                            nextFileNumber := e.nextFileNumber, lastSequence := e.lastSequence)
  {
    var a: seq<Field> := if e.comparator.Some? then [Comparator(e.comparator.value)] else [];
    TakeConcat(x, a, NumberFields(e));
    if e.comparator.Some? { TakeOne(x, a[0]); }
    TakeNumbers(TakeAll(x, a), e);
  }

  /** Clear leaves compact_pointers_ alone. */
  function Cleared(e: Edit): Edit {
    EMPTY.(compactPointers := e.compactPointers)
  }

  /** Reading the fields of `e` into an object restores `e`, after any compaction pointers the object had. */
  lemma TakeFields(start: Edit, e: Edit, ds: seq<(nat, nat)>)
    requires Lists(ds, e.deletedFiles)
    ensures TakeAll(Cleared(start), Fields(e, ds)) == e.(compactPointers := start.compactPointers + e.compactPointers)
  {
    hide TakeAll, HeadFields;
    var x0 := Cleared(start);
    var h, p, d, n := HeadFields(e), PointerFields(e.compactPointers), DeletedFields(ds), NewFields(e.newFiles);
    TakeConcat(x0, h + p + d, n);
    TakeConcat(x0, h + p, d);
    TakeConcat(x0, h, p);
    TakeHead(x0, e);
    var x1 := TakeAll(x0, h);
    TakePointers(x1, e.compactPointers);
    var x2 := TakeAll(x1, p);
    TakeDeleted(x2, ds);
    TakeNew(TakeAll(x2, d), e.newFiles);
    assert x2.deletedFiles + (set x | x in ds) == e.deletedFiles;
    assert TakeAll(x2, d).newFiles + e.newFiles == e.newFiles;
  }

  // --- EncodeTo and DecodeFrom ---------------------------------------------------------------------------

  predicate PairLess(a: (nat, nat), b: (nat, nat)) {
    a.0 < b.0 || (a.0 == b.0 && a.1 < b.1)
  }

  /** The smallest pair of a set, as std::set iterates. */
  method LeastPair(S: set<(nat, nat)>) returns (m: (nat, nat))
    requires S != {}
    ensures m in S && forall x :: x in S ==> x == m || PairLess(m, x)
  {
    m :| m in S;
    var rest := S - {m};
    while rest != {}
      invariant m in S && rest <= S && forall x :: x in S && x !in rest ==> x == m || PairLess(m, x)
      decreases |rest|
    {
      var x :| x in rest;
      rest := rest - {x};
      if PairLess(x, m) {
        m := x;
      }
    }
  }

  method ListDeleted(S: set<(nat, nat)>) returns (ds: seq<(nat, nat)>)
    ensures Lists(ds, S)
  {
    ds := [];
    var rest := S;
    while rest != {}
      invariant rest <= S && (forall x :: x in S <==> x in ds || x in rest) && (forall x :: x in ds ==> x !in rest)
      invariant forall i, j :: 0 <= i < j < |ds| ==> ds[i] != ds[j]
      decreases |rest|
    {
      var m := LeastPair(rest);
      rest := rest - {m};
      ds := ds + [m];
    }
  }

  lemma {:induction false} EncodeSnoc(fs: seq<Field>, f: Field)
    ensures EncodeFields(fs + [f]) == EncodeFields(fs) + EncodeField(f)
  {
    hide EncodeField;
    if fs == [] {
      assert [f][1..] == [] && fs + [f] == [f];
      assert EncodeFields([f]) == EncodeField(f) + EncodeFields([]);
    } else {
      EncodeSnoc(fs[1..], f);
      assert (fs + [f])[1..] == fs[1..] + [f];
    }
  }

  lemma NoBytes()
    ensures EncodeFields([]) == []
  {
  }

  /** VersionEdit::EncodeTo. */
  method EncodeTo(e: Edit) returns (dst: Bytes, ghost ds: seq<(nat, nat)>)
    ensures Lists(ds, e.deletedFiles) && dst == EncodeFields(Fields(e, ds))
  {
    hide Fields, EncodeField, EncodeFields, Lists;
    var deleted := ListDeleted(e.deletedFiles);
    ds := deleted;
    var fs := Fields(e, deleted);
    dst := [];
    NoBytes();
    var i := 0;
    assert fs[..0] == [];
    while i < |fs|
      invariant 0 <= i <= |fs| && dst == EncodeFields(fs[..i])
    {
      EncodeSnoc(fs[..i], fs[i]);
      assert fs[..i + 1] == fs[..i] + [fs[i]];
      dst := dst + EncodeField(fs[i]);
      i := i + 1;
    }
    assert fs[..i] == fs;
  }

  /** What a record consists of, if every field of it can be read. */
  function ReadFields(src: Bytes): Option<seq<Field>>
    decreases |src|
  {
    if src == [] then Some([])
    else
      match ReadField(src)
      case None => None
      case Some(p) =>
        match ReadFields(src[p.used..])
        case None => None
        case Some(rest) => Some([p.value] + rest)
  }

  lemma {:induction false} FieldsBack(fs: seq<Field>)
    requires AllFieldsOk(fs)
    ensures ReadFields(EncodeFields(fs)) == Some(fs)
  {
    hide ReadField, EncodeField, FieldOk;
    NoFields(fs);
    if fs != [] {
      NextField(fs);
      FieldsBack(fs[1..]);
      assert fs == [fs[0]] + fs[1..];
    }
  }

  /** VersionEdit::DecodeFrom: into an object that held `start`. */
  method DecodeFrom(src: Bytes, start: Edit) returns (ok: bool, e: Edit)
    ensures ok <==> ReadFields(src).Some?
    ensures ok ==> e == TakeAll(Cleared(start), ReadFields(src).value)
  {
    hide ReadField, Take;
    e := Cleared(start);
    var input := src;
    while input != []
      invariant ReadFields(src).Some? <==> ReadFields(input).Some?
      invariant ReadFields(src).Some? ==>
                  TakeAll(e, ReadFields(input).value) == TakeAll(Cleared(start), ReadFields(src).value)
      decreases |input|
    {
      var r := ReadField(input);
      if r.None? {
        return false, e;
      }
      TakeNext(e, input, r.value);
      e := Take(e, r.value.value);
      input := input[r.value.used..];
    }
    return true, e;
  }

  lemma TakeNext(e: Edit, input: Bytes, p: Parsed<Field>)
    requires input != [] && ReadField(input) == Some(p)
    ensures ReadFields(input).Some? <==> ReadFields(input[p.used..]).Some?
    ensures ReadFields(input).Some? ==>
              TakeAll(e, ReadFields(input).value) == TakeAll(Take(e, p.value), ReadFields(input[p.used..]).value)
  {
    hide ReadField, Take;
    if ReadFields(input).Some? {
      var fs := ReadFields(input).value;
      assert fs[0] == p.value && fs[1..] == ReadFields(input[p.used..]).value;
    }
  }

  lemma NextField(fs: seq<Field>)
    requires AllFieldsOk(fs) && EncodeFields(fs) != []
    ensures fs != [] && |EncodeField(fs[0])| <= |EncodeFields(fs)|
    ensures ReadField(EncodeFields(fs)) == Some(Parsed(fs[0], |EncodeField(fs[0])|))
    ensures EncodeFields(fs)[|EncodeField(fs[0])|..] == EncodeFields(fs[1..])
  {
    FieldRoundTrip(fs[0], EncodeFields(fs[1..]));
  }

  lemma NoFields(fs: seq<Field>)
    ensures EncodeFields(fs) == [] ==> fs == []
  {
    if fs != [] {
      assert |EncodeField(fs[0])| > 0;
    }
  }

  /**
   Writing an edit and reading it into an object: the edit comes back, after whatever
   compaction pointers the object had already.  A fresh object gets it exactly.
   */
  method RoundTrip(e: Edit, start: Edit) returns (ok: bool, e': Edit)
    requires EditOk(e)
    ensures ok && e' == e.(compactPointers := start.compactPointers + e.compactPointers)
    ensures start == EMPTY ==> e' == e
  {
    hide Fields, EncodeFields, TakeAll, EditOk, AllFieldsOk, Lists;
    var src;
    ghost var ds;
    src, ds := EncodeTo(e);
    FieldsOk(e, ds);
    TakeFields(start, e, ds);
    FieldsBack(Fields(e, ds));
    ok, e' := DecodeFrom(src, start);
  }
}
