/**
 The filter block of a table (table/filter_block.cc): one Bloom filter for the keys of
 all data blocks that start within the same 2 KB of the file.  Filters see user keys
 only (InternalFilterPolicy, db/dbformat.cc).
 */
module FilterBlock {
  import opened Keys
  import opened Coding
  import opened Block
  import Bloom

  const FILTER_BASE_LG: Byte := 11
  const FILTER_BASE: nat := 2048

  // --- strings laid end to end ------------------------------------------------------------------

  function Concat(bs: seq<Bytes>): Bytes {
    if bs == [] then [] else Concat(bs[..|bs| - 1]) + bs[|bs| - 1]
  }

  lemma ConcatSnoc(bs: seq<Bytes>, b: Bytes)
    ensures Concat(bs + [b]) == Concat(bs) + b
  {
    assert (bs + [b])[..|bs|] == bs;
  }

  /** Where each string starts. */
  ghost predicate StartsOf(starts: seq<nat>, bs: seq<Bytes>) {
    |starts| == |bs| && forall i :: 0 <= i < |bs| ==> starts[i] == |Concat(bs[..i])|
  }

  lemma {:induction false} ConcatPrefix(bs: seq<Bytes>, i: nat)
    requires i <= |bs|
    ensures Concat(bs[..i]) <= Concat(bs)
    decreases |bs|
  {
    if i < |bs| {
      ConcatPrefix(bs[..|bs| - 1], i);
      assert bs[..|bs| - 1][..i] == bs[..i];
    } else {
      assert bs[..i] == bs;
    }
  }

  /** A string is the piece between its start and that of the next. */
  lemma PieceAt(bs: seq<Bytes>, i: nat)
    requires i < |bs|
    ensures |Concat(bs[..i])| <= |Concat(bs[..i + 1])| <= |Concat(bs)|
    ensures Concat(bs)[|Concat(bs[..i])|..|Concat(bs[..i + 1])|] == bs[i]
  {
    assert bs[..i + 1] == bs[..i] + [bs[i]];
    ConcatSnoc(bs[..i], bs[i]);
    ConcatPrefix(bs, i + 1);
  }

  lemma StartsSnoc(starts: seq<nat>, bs: seq<Bytes>, b: Bytes)
    requires StartsOf(starts, bs)
    ensures StartsOf(starts + [|Concat(bs)|], bs + [b])
  {
    forall i | 0 <= i < |bs| + 1 ensures (starts + [|Concat(bs)|])[i] == |Concat((bs + [b])[..i])| {
      assert (bs + [b])[..i] == if i < |bs| then bs[..i] else bs;
      assert bs[..|bs|] == bs;
    }
  }

  // --- the builder ----------------------------------------------------------------------------------

  /** Filter `f` holds the user part of every key in `keys`; with no keys it is empty. */
  ghost predicate Covers(f: Bytes, keys: seq<Bytes>) {
    forall i :: 0 <= i < |keys| ==> Bloom.Holds(f, UserPart(keys[i]))
  }

  ghost predicate AllCover(filters: seq<Bytes>, groups: seq<seq<Bytes>>) {
    |filters| == |groups| && forall i :: 0 <= i < |filters| ==> Covers(filters[i], groups[i])
  }

  class FilterBlockBuilder {
    const bitsPerKey: nat
    var keys: Bytes               // pending keys, flattened
    var start: seq<nat>           // where each pending key starts
    var result: Bytes             // filters generated so far
    var offsets: seq<nat>         // where each starts
    ghost var pending: seq<Bytes>
    ghost var filters: seq<Bytes>
    ghost var groups: seq<seq<Bytes>>  // the keys of each filter

    ghost predicate Ok()
      reads this
    {
      && keys == Concat(pending) && StartsOf(start, pending) && (forall i :: 0 <= i < |pending| ==> |pending[i]| < WORD)
      && result == Concat(filters) && StartsOf(offsets, filters) && AllCover(filters, groups)
    }

    /** How large the filters will be, the pending one included. */
    ghost function Bound(): nat
      reads this
    {
      |result| + if pending == [] then 0 else Bloom.FilterBytes(|pending|, bitsPerKey) + 1
    }

    constructor (bits: nat)
      ensures Ok() && bitsPerKey == bits && pending == [] && filters == [] && groups == [] && result == []
    {
      bitsPerKey, keys, start, result, offsets, pending, filters, groups := bits, [], [], [], [], [], [], [];
    }

    method AddKey(key: Bytes)
      requires Ok() && |key| < WORD
      modifies this`keys, this`start, this`pending
      ensures Ok() && pending == old(pending) + [key]
    {
      hide Concat, StartsOf, AllCover;
      StartsSnoc(start, pending, key);
      ConcatSnoc(pending, key);
      start := start + [|keys|];
      keys := keys + key;
      pending := pending + [key];
    }

    /** Makes a filter of the pending keys; without any, an empty one. */
    method GenerateFilter()
      requires Ok()
      modifies this
      ensures Ok() && pending == [] && groups == old(groups) + [old(pending)]
      ensures |result| <= old(Bound())
    {
      hide Concat, StartsOf, AllCover, Covers, Bloom.FilterBytes;
      var f := FilterOf(bitsPerKey, keys, start, pending);
      AddFilter(filters, groups, f, pending);
      StartsSnoc(offsets, filters, f);
      ConcatSnoc(filters, f);
      offsets := offsets + [|result|];
      result := result + f;
      filters, groups := filters + [f], groups + [pending];
      keys, start, pending := [], [], [];
      NothingPending();
    }

    /** Called at the start of a data block: closes the filters of the ranges before it. */
    method StartBlock(blockOffset: nat)
      requires Ok()
      modifies this
      ensures Ok() && |groups| >= |old(groups)| && groups[..|old(groups)|] == old(groups)
      ensures |groups| == if blockOffset / FILTER_BASE > |old(groups)| then blockOffset / FILTER_BASE else |old(groups)|
      ensures if |groups| == |old(groups)| then pending == old(pending)
              else pending == [] && groups[|old(groups)|] == old(pending)
      ensures Bound() <= old(Bound())
    {
      var filterIndex := blockOffset / FILTER_BASE;
      hide Concat, StartsOf, AllCover;
      while filterIndex > |offsets|
        invariant Ok() && |offsets| == |groups| >= |old(groups)| && groups[..|old(groups)|] == old(groups)
        invariant Bound() <= old(Bound())
        invariant |groups| <= if filterIndex > |old(groups)| then filterIndex else |old(groups)|
        invariant if |groups| == |old(groups)| then pending == old(pending)
                  else pending == [] && groups[|old(groups)|] == old(pending)
        decreases filterIndex - |offsets|
      {
        GenerateFilter();
      }
    }

    /** Appends the array of offsets, where it starts, and the base.  Offsets must fit 32 bits. */
    method Finish() returns (contents: Bytes)
      requires Ok() && Bound() < WORD
      modifies this
      ensures IsFilterBlock(contents, filters) && AllCover(filters, groups)
      ensures groups == if old(pending) == [] then old(groups) else old(groups) + [old(pending)]
    {
      StartsEmpty(start, pending);
      if start != [] {
        GenerateFilter();
      }
      OffsetsFit(result, offsets, filters);
      var trailer := EncodeRestarts(offsets + [|result|]);
      contents := result + trailer + [FILTER_BASE_LG];
    }
  }

  /** The filter of the pending keys; an empty one if there are none. */
  method FilterOf(bitsPerKey: nat, keys: Bytes, start: seq<nat>, ghost pending: seq<Bytes>) returns (f: Bytes)
    requires keys == Concat(pending) && StartsOf(start, pending)
    requires forall i :: 0 <= i < |pending| ==> |pending[i]| < WORD
    ensures Covers(f, pending)
    ensures |f| == if pending == [] then 0 else Bloom.FilterBytes(|pending|, bitsPerKey) + 1
  {
    hide Concat, Bloom.Holds, Bloom.FilterBytes, Bloom.BitsOf;
    f := [];
    if |start| > 0 {
      var tmpKeys := SplitKeys(keys, start + [|keys|], pending);
      f := Bloom.CreateFilter(tmpKeys, bitsPerKey);
    }
  }

  lemma StartsEmpty(starts: seq<nat>, bs: seq<Bytes>)
    requires StartsOf(starts, bs)
    ensures starts == [] <==> bs == []
  {
  }

  lemma OffsetsFit(result: Bytes, offsets: seq<nat>, filters: seq<Bytes>)
    requires result == Concat(filters) && StartsOf(offsets, filters) && |result| < WORD
    ensures forall i :: 0 <= i < |offsets + [|result|]| ==> (offsets + [|result|])[i] < WORD
  {
    forall i | 0 <= i < |offsets| ensures offsets[i] < WORD {
      ConcatPrefix(filters, i);
    }
  }

  /** `contents` is a finished filter block made of `filters`. */
  ghost predicate IsFilterBlock(contents: Bytes, filters: seq<Bytes>) {
    exists offsets: seq<nat> ::
      && StartsOf(offsets, filters) && |Concat(filters)| < WORD
      && (forall i :: 0 <= i <= |offsets| ==> (offsets + [|Concat(filters)|])[i] < WORD)
      && contents == Concat(filters) + EncodeAll(offsets + [|Concat(filters)|]) + [FILTER_BASE_LG]
  }

  // --- the reader --------------------------------------------------------------------------------------

  /** What the reader finds in a finished filter block. */
  ghost predicate Layout(contents: Bytes, filters: seq<Bytes>) {
    var n, size := |contents|, |Concat(filters)|;
    && n == size + 4 * |filters| + 5 && contents[n - 1] == FILTER_BASE_LG
    && DecodeFixed32(contents[n - 5..n - 1]) == size
    && forall i :: 0 <= i < |filters| ==> Reads(contents, filters, i)
  }

  ghost predicate Reads(contents: Bytes, filters: seq<Bytes>, i: nat)
    requires i < |filters| && |contents| >= |Concat(filters)| + 4 * |filters| + 5
  {
    var at := |Concat(filters)| + 4 * i;
    var start, limit := DecodeFixed32(contents[at..at + 4]), DecodeFixed32(contents[at + 4..at + 8]);
    start <= limit <= |Concat(filters)| && contents[start..limit] == filters[i]
  }

  /** Word `j` of the array is where filter `j` starts. */
  ghost predicate WordIs(contents: Bytes, filters: seq<Bytes>, j: nat)
    requires j <= |filters|
  {
    var at := |Concat(filters)| + 4 * j;
    at + 4 <= |contents| && DecodeFixed32(contents[at..at + 4]) == |Concat(filters[..j])|
  }

  lemma OffsetWord(contents: Bytes, filters: seq<Bytes>, offsets: seq<nat>, j: nat)
    requires StartsOf(offsets, filters)
    requires (forall i :: 0 <= i <= |offsets| ==> (offsets + [|Concat(filters)|])[i] < WORD) && j <= |filters|
    requires contents == Concat(filters) + EncodeAll(offsets + [|Concat(filters)|]) + [FILTER_BASE_LG]
    ensures WordIs(contents, filters, j)
  {
    hide Concat, EncodeAll, DecodeFixed32, StartsOf;
    StartWord(filters, offsets, j);
    RawRestart(Concat(filters), offsets + [|Concat(filters)|], [FILTER_BASE_LG], j);
  }

  lemma StartWord(filters: seq<Bytes>, offsets: seq<nat>, j: nat)
    requires StartsOf(offsets, filters) && j <= |filters|
    ensures |offsets| == |filters| && (offsets + [|Concat(filters)|])[j] == |Concat(filters[..j])|
  {
    assert filters[..|filters|] == filters;
  }

  lemma BlockLayout(contents: Bytes, filters: seq<Bytes>)
    requires IsFilterBlock(contents, filters)
    ensures Layout(contents, filters)
  {
    hide Concat, EncodeAll, StartsOf, DecodeFixed32, Reads, WordIs;
    var offsets: seq<nat> :|
      && StartsOf(offsets, filters) && |Concat(filters)| < WORD
      && (forall i :: 0 <= i <= |offsets| ==> (offsets + [|Concat(filters)|])[i] < WORD)
      && contents == Concat(filters) + EncodeAll(offsets + [|Concat(filters)|]) + [FILTER_BASE_LG];
    SameLength(offsets, filters);
    forall j: nat | j <= |filters| ensures WordIs(contents, filters, j) {
      OffsetWord(contents, filters, offsets, j);
    }
    LastWord(contents, filters);
    forall i | 0 <= i < |filters| ensures Reads(contents, filters, i) {
      FilterAt(contents, filters, i);
    }
  }

  lemma LastWord(contents: Bytes, filters: seq<Bytes>)
    requires WordIs(contents, filters, |filters|) && |contents| == |Concat(filters)| + 4 * |filters| + 5
    ensures DecodeFixed32(contents[|contents| - 5..|contents| - 1]) == |Concat(filters)|
  {
    assert filters[..|filters|] == filters;
  }

  lemma FilterAt(contents: Bytes, filters: seq<Bytes>, i: nat)
    requires i < |filters| && WordIs(contents, filters, i) && WordIs(contents, filters, i + 1)
    requires Concat(filters) <= contents && |contents| >= |Concat(filters)| + 4 * |filters| + 5
    ensures Reads(contents, filters, i)
  {
    hide Concat, DecodeFixed32;
    PieceAt(filters, i);
    PrefixSlice(Concat(filters), contents, |Concat(filters[..i])|, |Concat(filters[..i + 1])|);
  }

  lemma Base()
    ensures Bloom.Pow2(FILTER_BASE_LG) == FILTER_BASE
  {
    assert Bloom.Pow2(3) == 8 && Bloom.Pow2(5) == 4 * Bloom.Pow2(3) && Bloom.Pow2(7) == 4 * Bloom.Pow2(5);
    assert Bloom.Pow2(9) == 4 * Bloom.Pow2(7);
  }

  lemma SameLength(starts: seq<nat>, bs: seq<Bytes>)
    requires StartsOf(starts, bs)
    ensures |starts| == |bs|
  {
  }

  lemma PrefixSlice(a: Bytes, b: Bytes, i: nat, j: nat)
    requires a <= b && i <= j <= |a|
    ensures b[i..j] == a[i..j]
  {
  }

  // What a finished filter block looks like to the reader, field by field.

  lemma LayoutLong(contents: Bytes, filters: seq<Bytes>)
    requires Layout(contents, filters)
    ensures |contents| >= 5
  {
  }

  lemma LayoutWord(contents: Bytes, filters: seq<Bytes>)
    requires Layout(contents, filters) && |contents| >= 5
    ensures DecodeFixed32(contents[|contents| - 5..|contents| - 1]) <= |contents| - 5
  {
  }

  lemma LayoutCount(contents: Bytes, filters: seq<Bytes>, lastWord: nat)
    requires Layout(contents, filters) && |contents| >= 5
    requires lastWord == DecodeFixed32(contents[|contents| - 5..|contents| - 1]) && lastWord <= |contents| - 5
    ensures (|contents| - 5 - lastWord) / 4 == |filters| && contents[|contents| - 1] == FILTER_BASE_LG
  {
  }

  lemma LayoutFilter(contents: Bytes, filters: seq<Bytes>, lastWord: nat, i: nat)
    requires Layout(contents, filters) && |contents| >= 5 && i < |filters|
    requires lastWord == DecodeFixed32(contents[|contents| - 5..|contents| - 1])
    ensures lastWord + 4 * i + 8 <= |contents|
    ensures var start := DecodeFixed32(contents[lastWord + 4 * i..lastWord + 4 * i + 4]);
      var limit := DecodeFixed32(contents[lastWord + 4 * i + 4..lastWord + 4 * i + 8]);
      start <= limit <= lastWord <= |contents| && contents[start..limit] == filters[i]
  {
    hide Concat, DecodeFixed32;
    assert Reads(contents, filters, i);
  }

  /** `blockOffset >> lg` */
  method Shifted(blockOffset: nat, lg: Byte) returns (index: nat)
    ensures lg == FILTER_BASE_LG ==> index == blockOffset / FILTER_BASE
  {
    hide Bloom.Pow2;
    Base();
    Pow2Positive(lg);
    index := blockOffset / Bloom.Pow2(lg);
  }

  /** What filter `index` says. */
  method FilterSays(contents: Bytes, lastWord: nat, index: nat, key: Bytes, ghost filters: seq<Bytes>)
      returns (may: bool)
    requires |key| < WORD && |contents| >= 5 && lastWord + 4 * index + 8 <= |contents|
    requires lastWord == DecodeFixed32(contents[|contents| - 5..|contents| - 1])
    ensures Layout(contents, filters) && index < |filters| ==> (may <==> Bloom.Matches(filters[index], UserPart(key)))
  {
    hide Layout, Concat, DecodeFixed32, UserPart, Bloom.Matches;
    if Layout(contents, filters) && index < |filters| {
      LayoutFilter(contents, filters, lastWord, index);
    }
    var start := DecodeFixed32(contents[lastWord + 4 * index..lastWord + 4 * index + 4]);
    var limit := DecodeFixed32(contents[lastWord + 4 * index + 4..lastWord + 4 * index + 8]);
    if start <= limit && limit <= lastWord {
      UserPartShort(key);
      may := Bloom.KeyMayMatch(UserPart(key), contents[start..limit]);
    } else {
      may := start != limit;
    }
  }

  lemma UserPartShort(key: Bytes)
    ensures |UserPart(key)| <= |key|
  {
  }

  /**
   FilterBlockReader: KeyMayMatch says what the filter of the block's range says.  A
   block beyond all filters, or a filter block too damaged to read, rules nothing out.
   */
  method KeyMayMatch(contents: Bytes, blockOffset: nat, key: Bytes, ghost filters: seq<Bytes>) returns (may: bool)
    requires |key| < WORD
    ensures Layout(contents, filters) ==>
              (may <==> blockOffset / FILTER_BASE >= |filters|
                        || Bloom.Matches(filters[blockOffset / FILTER_BASE], UserPart(key)))
    ensures |contents| < 5 || DecodeFixed32(contents[|contents| - 5..|contents| - 1]) > |contents| - 5 ==> may
  {
    hide Layout, Concat, DecodeFixed32, UserPart, Bloom.Matches;
    ghost var intact := Layout(contents, filters);
    if intact { LayoutLong(contents, filters); }
    var n := |contents|;
    if n < 5 {
      return true;
    }
    var lastWord := DecodeFixed32(contents[n - 5..n - 1]);
    if intact { LayoutWord(contents, filters); }
    if lastWord > n - 5 {
      return true;
    }
    if intact { LayoutCount(contents, filters, lastWord); }
    var num := (n - 5 - lastWord) / 4;
    var index := Shifted(blockOffset, contents[n - 1]);
    may := true;
    if index < num {
      InArray(n, lastWord, num, index);
      may := FilterSays(contents, lastWord, index, key, filters);
    }
  }

  lemma InArray(n: nat, lastWord: nat, num: nat, index: nat)
    requires lastWord + 5 <= n && num == (n - 5 - lastWord) / 4 && index < num
    ensures lastWord + 4 * index + 8 <= n
  {
  }

  lemma {:induction false} Pow2Positive(n: nat)
    ensures Bloom.Pow2(n) > 0
  {
    if n > 0 {
      Pow2Positive(n - 1);
    }
  }

  lemma NothingPending()
    ensures Concat([]) == [] && StartsOf([], [])
  {
  }

  lemma AddFilter(filters: seq<Bytes>, groups: seq<seq<Bytes>>, f: Bytes, keys: seq<Bytes>)
    requires AllCover(filters, groups) && Covers(f, keys)
    ensures AllCover(filters + [f], groups + [keys])
  {
  }

  /** The pending keys, cut out of the flattened ones and stripped to their user parts. */
  method SplitKeys(keys: Bytes, bounds: seq<nat>, ghost pending: seq<Bytes>) returns (tmpKeys: seq<Bytes>)
    requires keys == Concat(pending) && |bounds| == |pending| + 1 && StartsOf(bounds[..|pending|], pending)
    requires bounds[|pending|] == |keys|
    ensures |tmpKeys| == |pending| && forall i :: 0 <= i < |pending| ==> tmpKeys[i] == UserPart(pending[i])
  {
    tmpKeys := [];
    var i := 0;
    while i < |bounds| - 1
      invariant 0 <= i <= |pending| && |tmpKeys| == i && forall j :: 0 <= j < i ==> tmpKeys[j] == UserPart(pending[j])
    {
      PieceAt(pending, i);
      BoundAt(keys, bounds, pending, i);
      tmpKeys := tmpKeys + [UserPart(keys[bounds[i]..bounds[i + 1]])];
      i := i + 1;
    }
  }

  lemma BoundAt(keys: Bytes, bounds: seq<nat>, pending: seq<Bytes>, i: nat)
    requires keys == Concat(pending) && |bounds| == |pending| + 1 && StartsOf(bounds[..|pending|], pending)
    requires bounds[|pending|] == |keys|
    requires i < |pending|
    ensures bounds[i] == |Concat(pending[..i])| && bounds[i + 1] == |Concat(pending[..i + 1])|
  {
    assert bounds[..|pending|][i] == bounds[i];
    if i + 1 < |pending| {
      assert bounds[..|pending|][i + 1] == bounds[i + 1];
    } else {
      assert pending[..i + 1] == pending;
    }
  }
}
