/**
 Whole table files (TableBuilder::Finish, Footer, Table::Open, Table::ReadMeta): from
 sorted pairs to bytes, and from the bytes alone to the answer of a lookup.
 */
module TableFile {
  import opened Keys
  import opened Spec
  import opened Coding
  import opened Block
  import opened FilterBlock
  import opened Table

  // --- the footer ------------------------------------------------------------------------------

  const FOOTER_LENGTH: nat := 48
  const MAGIC_LOW: Word := 0x8b80fb57
  const MAGIC_HIGH: Word := 0xdb477524

  function Padding(n: nat): (r: Bytes)
    ensures |r| == n
  {
    seq(n, i requires 0 <= i < n => 0)
  }

  /** Two handles, padded to 40 bytes, and the magic number. */
  function EncodeFooter(meta: BlockHandle, index: BlockHandle): (r: Bytes)
    requires |EncodeHandle(meta)| + |EncodeHandle(index)| <= 40
    ensures |r| == FOOTER_LENGTH
  {
    var handles := EncodeHandle(meta) + EncodeHandle(index);
    handles + Padding(40 - |handles|) + EncodeFixed32(MAGIC_LOW) + EncodeFixed32(MAGIC_HIGH)
  }

  function DecodeFooter(b: Bytes): Option<(BlockHandle, BlockHandle)>
    requires |b| == FOOTER_LENGTH
  {
    if DecodeFixed32(b[40..44]) != MAGIC_LOW || DecodeFixed32(b[44..48]) != MAGIC_HIGH then None else
      match TakeHandle(b)
      case None => None
      case Some(meta) =>
        if meta.used > |b| then None else
          match TakeHandle(b[meta.used..])
          case None => None
          case Some(index) => Some((meta.value, index.value))
  }

  lemma FooterRoundTrip(meta: BlockHandle, index: BlockHandle)
    requires HandleOk(meta) && HandleOk(index)
    ensures |EncodeHandle(meta)| + |EncodeHandle(index)| <= 40
    ensures DecodeFooter(EncodeFooter(meta, index)) == Some((meta, index))
  {
    HandleRoundTrip(meta, []);
    HandleRoundTrip(index, []);
    hide TakeHandle, EncodeHandle, DecodeFixed32, EncodeFixed32;
    var m, i := EncodeHandle(meta), EncodeHandle(index);
    var end := Padding(40 - |m| - |i|) + EncodeFixed32(MAGIC_LOW) + EncodeFixed32(MAGIC_HIGH);
    var b := EncodeFooter(meta, index);
    assert b == m + (i + end) && b[|m|..] == i + end;
    assert b[40..44] == EncodeFixed32(MAGIC_LOW) && b[44..48] == EncodeFixed32(MAGIC_HIGH);
    HandleRoundTrip(meta, i + end);
    HandleRoundTrip(index, end);
  }

  // --- a table file ------------------------------------------------------------------------------

  /** What a table file is made of. */
  datatype Parts = Parts(
    ws: seq<Written>,                // data blocks
    index: Bytes, xs: seq<Item>, rs: seq<nat>, restarts: seq<nat>,
    filter: Bytes, filters: seq<Bytes>,
    name: Bytes,                     // of the filter policy
    meta: Bytes, metaItem: Item, metaRs: seq<nat>, metaRestarts: seq<nat>,
    filterHandle: BlockHandle, metaHandle: BlockHandle, indexHandle: BlockHandle)

  /** "filter." and the name of the policy. */
  function FilterKey(name: Bytes): Bytes {
    [102, 105, 108, 116, 101, 114, 46] + name
  }

  ghost predicate MetaOk(p: Parts) {
    && IsBlock(p.meta, [p.metaItem], p.metaRs, p.metaRestarts)
    && p.metaItem.key == FilterKey(p.name) && p.metaItem.value == EncodeHandle(p.filterHandle)
  }

  ghost predicate FooterAt(file: Bytes, meta: BlockHandle, index: BlockHandle) {
    && HandleOk(meta) && HandleOk(index) && |EncodeHandle(meta)| + |EncodeHandle(index)| <= 40
    && |file| >= FOOTER_LENGTH && file[|file| - FOOTER_LENGTH..] == EncodeFooter(meta, index)
  }

  ghost predicate FilterOk(p: Parts) {
    Layout(p.filter, p.filters) && forall i :: 0 <= i < |p.ws| ==> Filtered(p.filters, p.ws[i])
  }

  ghost predicate IsTableFile(file: Bytes, p: Parts) {
    && IsTable(file, p.ws, p.xs) && IsBlock(p.index, p.xs, p.rs, p.restarts) && FilterOk(p) && MetaOk(p)
    && FramedAt(file, p.filterHandle, p.filter) && FramedAt(file, p.metaHandle, p.meta)
    && FramedAt(file, p.indexHandle, p.index)
    && FooterAt(file, p.metaHandle, p.indexHandle)
  }

  // --- Table::Open -----------------------------------------------------------------------------------

  /** Table::ReadMeta: the filter, if the file has one of this policy. */
  method ReadMeta(file: Bytes, metaHandle: BlockHandle, verify: bool, policy: Bytes, ghost p: Parts)
      returns (filter: Option<Bytes>)
    requires MetaOk(p) && metaHandle == p.metaHandle && FramedAt(file, p.metaHandle, p.meta)
    requires FramedAt(file, p.filterHandle, p.filter)
    ensures filter == if policy == p.name then Some(p.filter) else None
  {
    hide IsBlock, FramedAt, ReadBlock, Iter.Sound, StandsAt, TakeHandle, EncodeHandle;
    FramedReads(file, metaHandle, p.meta, verify);
    var contents := ReadBlock(file, metaHandle, verify);
    var it := new Iter(Bytewise, contents.value, [p.metaItem], p.metaRs, p.metaRestarts);
    var key := FilterKey(policy);
    it.Seek(key);
    filter := None;
    SameKey(policy, p.name);
    assert it.order == Bytewise && |it.xs| == 1 && it.xs[0] == p.metaItem;
    assert policy == p.name ==> !Less(Bytewise, it.xs[0].key, key) && it.index == 0;
    if it.Valid() {
      var value := it.Value();
      if it.key == key {
        SmallHandle(file, p.filterHandle, p.filter);
        var handle := DecodeHandle(value);
        FramedReads(file, p.filterHandle, p.filter, verify);
        filter := ReadBlock(file, handle.value, verify);
      }
    }
  }

  lemma SameKey(a: Bytes, b: Bytes)
    ensures FilterKey(a) == FilterKey(b) <==> a == b
    ensures !BytesLess(FilterKey(a), FilterKey(a))
  {
    assert FilterKey(a)[7..] == a && FilterKey(b)[7..] == b;
    BytesTotal(FilterKey(a), FilterKey(a));
  }

  lemma SmallHandle(file: Bytes, h: BlockHandle, block: Bytes)
    requires FramedAt(file, h, block)
    ensures HandleOk(h) && DecodeHandle(EncodeHandle(h)) == Some(h)
  {
    HandleRoundTrip(h, []);
    assert EncodeHandle(h) + [] == EncodeHandle(h);
  }

  /** The index, and the filter if there is one of the reader's policy. */
  method Open(file: Bytes, verify: bool, policy: Option<Bytes>, ghost p: Parts)
      returns (ok: bool, index: Bytes, filter: Option<Bytes>)
    requires IsTableFile(file, p)
    ensures ok && index == p.index && filter == if policy == Some(p.name) then Some(p.filter) else None
  {
    hide IsTable, IsBlock, FilterOk, MetaOk, FramedAt, ReadBlock, DecodeFooter, EncodeFooter, EncodeHandle;
    ok, index, filter := false, [], None;
    assert FooterAt(file, p.metaHandle, p.indexHandle);
    if |file| < FOOTER_LENGTH {
      return;
    }
    FooterRoundTrip(p.metaHandle, p.indexHandle);
    var footer := DecodeFooter(file[|file| - FOOTER_LENGTH..]);
    if footer.None? {
      return;
    }
    FramedReads(file, p.indexHandle, p.index, verify);
    var contents := ReadBlock(file, footer.value.1, verify);
    if contents.None? {
      return;
    }
    ok, index := true, contents.value;
    if policy.Some? {
      filter := ReadMeta(file, footer.value.0, verify, policy.value, p);
    }
  }

  // --- a lookup ------------------------------------------------------------------------------------------

  /** An operation on `k`'s user key that is not newer than `k`. */
  predicate Candidate(q: Pair, k: Bytes) {
    UserPart(q.key) == UserPart(k) && Trailer(q.key) <= Trailer(k)
  }

  /** The newest candidate among the pairs, or nothing if there is none. */
  ghost predicate LookedUp(ps: seq<Pair>, k: Bytes, r: Found) {
    match r
    case Nothing => forall q :: q in ps ==> !Candidate(q, k)
    case Hit(key, value) =>
      Pair(key, value) in ps && Candidate(Pair(key, value), k) && forall q :: q in ps && Candidate(q, k) ==>
          Trailer(q.key) <= Trailer(key)
  }

  /** A pair of the table is an entry of some block. */
  lemma {:induction false} PairAt(bs: seq<seq<Item>>, q: Pair) returns (c: nat, j: nat)
    requires q in EntriesOf(bs)
    ensures c < |bs| && j < |bs[c]| && q == Pair(bs[c][j].key, bs[c][j].value)
    decreases |bs|
  {
    var n := |bs| - 1;
    if q in PairsOf(bs[n]) {
      c := n;
      j :| 0 <= j < |bs[n]| && PairsOf(bs[n])[j] == q;
    } else {
      c, j := PairAt(bs[..n], q);
    }
  }

  lemma {:induction false} EntryIn(bs: seq<seq<Item>>, c: nat, j: nat)
    requires c < |bs| && j < |bs[c]|
    ensures Pair(bs[c][j].key, bs[c][j].value) in EntriesOf(bs)
    decreases |bs|
  {
    var n := |bs| - 1;
    if c == n {
      assert PairsOf(bs[n])[j] in PairsOf(bs[n]);
    } else {
      EntryIn(bs[..n], c, j);
    }
  }

  /** SaveValue: an entry for another user key counts as nothing. */
  function SaveValue(k: Bytes, r: Found): Found {
    if r.Hit? && UserPart(r.key) == UserPart(k) then r else Nothing
  }

  lemma AnswerIsNewest(bs: seq<seq<Item>>, k: Bytes, r: Found)
    requires BlocksOk(bs) && Answer(bs, k, r)
    ensures LookedUp(EntriesOf(bs), k, SaveValue(k, r))
  {
    forall q | q in EntriesOf(bs) && Candidate(q, k)
      ensures r.Hit? && UserPart(r.key) == UserPart(k) && Trailer(q.key) <= Trailer(r.key)
    {
      var c, j := PairAt(bs, q);
      FindsNewest(bs, k, r, c, j);
    }
    if SaveValue(k, r).Hit? {
      var b: nat, i: nat :| IsFirst(bs, k, b, i) && bs[b][i].key == r.key && bs[b][i].value == r.value;
      EntryIn(bs, b, i);
    }
  }

  /** TableCache::Get on the bytes of a table file. */
  method Get(file: Bytes, verify: bool, policy: Option<Bytes>, k: Bytes, ghost p: Parts) returns (r: Found)
    requires |k| < WORD && IsTableFile(file, p)
    ensures LookedUp(EntriesOf(Blocks(p.ws)), k, r)
  {
    hide IsBlock, FramedAt, FooterAt, MetaOk, Layout, Filtered, Answer, BlocksOk, EntriesOf;
    var ok, index, filter := Open(file, verify, policy, p);
    var found := InternalGet(file, index, filter, verify, k, p.ws, p.xs, p.rs, p.restarts, p.filters);
    AnswerIsNewest(Blocks(p.ws), k, found);
    r := SaveValue(k, found);
  }

  // --- building ----------------------------------------------------------------------------------------------

  /** A bound on everything the builder keeps per entry, so that offsets and lengths fit 32 bits. */
  function Weight(ps: seq<Pair>, bits: nat): nat {
    if ps == [] then 0 else Weight(ps[..|ps| - 1], bits) + |ps[|ps| - 1].key| + |ps[|ps| - 1].value| + 50 + bits
  }

  lemma {:induction false} WeightPrefix(ps: seq<Pair>, bits: nat, i: nat)
    requires i <= |ps|
    ensures 50 * i <= Weight(ps[..i], bits) <= Weight(ps, bits)
    ensures i < |ps| ==> Weight(ps[..i + 1], bits) == Weight(ps[..i], bits) + |ps[i].key| + |ps[i].value| + 50 + bits
    decreases |ps|
  {
    if i < |ps| {
      assert ps[..i + 1][..i] == ps[..i];
      var front := ps[..|ps| - 1];
      WeightPrefix(front, bits, i);
      assert front[..i] == ps[..i];
    } else {
      assert ps[..i] == ps;
      if ps != [] {
        var front := ps[..|ps| - 1];
        WeightPrefix(front, bits, |front|);
        assert front[..|front|] == front;
      }
    }
  }

  ghost predicate SortedPairs(ps: seq<Pair>) {
    && (forall i :: 0 <= i < |ps| ==> |ps[i].key| >= 8)
    && (forall i, j :: 0 <= i < j < |ps| ==> Less(Internal, ps[i].key, ps[j].key))
  }

  /** The builder after some pairs. */
  ghost predicate Progress(b: TableBuilder, ps: seq<Pair>, bits: nat, blockSize: nat)
    reads b, b.dataBlock, b.indexBlock, b.filter
  {
    && b.Ok() && b.blockSize == blockSize && b.filter.bitsPerKey == bits && b.Entries() == ps
    && (if ps == [] then b.ws == [] && b.dataBlock.xs == [] && b.lastKey == [] else b.lastKey == ps[|ps| - 1].key)
    && |b.file| <= |ps| * 6 * WORD && |b.indexBlock.buffer| + |b.lastKey| <= Weight(ps, bits)
    && b.filter.Bound() <= Weight(ps, bits)
  }

  /** Writes a block and its trailer after what is there. */
  method WriteRawBlock(file: Bytes, block: Bytes) returns (file': Bytes, handle: BlockHandle)
    requires |file| + |block| + 5 < FIXED64
    ensures file' == file + block + BlockTrailer(block) && handle == BlockHandle(|file|, |block|)
    ensures FramedAt(file', handle, block)
  {
    FramedNew(file, block);
    file', handle := file + block + BlockTrailer(block), BlockHandle(|file|, |block|);
  }

  lemma TableStays(file: Bytes, more: Bytes, ws: seq<Written>, xs: seq<Item>)
    requires IsTable(file, ws, xs) && |file + more| < FIXED64
    ensures IsTable(file + more, ws, xs)
  {
    hide Stored, BlocksOk, IndexOk, Names;
    StoredStays(file, more, ws);
  }

  /** The metaindex block has one entry: where the filter is. */
  method MetaBlock(name: Bytes, filterHandle: BlockHandle, interval: nat)
    returns (meta: Bytes, ghost x: Item, ghost rs: seq<nat>, ghost restarts: seq<nat>)
    requires interval >= 1 && HandleOk(filterHandle) && |name| + 100 < WORD
    ensures IsBlock(meta, [x], rs, restarts) && x.key == FilterKey(name) && x.value == EncodeHandle(filterHandle)
    ensures |meta| <= 6 * WORD
  {
    hide IsBlock, Built;
    HandleRoundTrip(filterHandle, []);
    var builder := new BlockBuilder(interval);
    builder.Add(FilterKey(name), EncodeHandle(filterHandle));
    x, rs, restarts := builder.xs[0], builder.rs, builder.restarts;
    assert builder.xs == [x];
    meta := builder.Finish();
  }

  /** TableBuilder::Finish after the data blocks: filter, metaindex, index, footer. */
  method WriteRest(data: Bytes, filter: Bytes, index: Bytes, name: Bytes, interval: nat, ghost q: Parts)
    returns (file: Bytes, ghost p: Parts)
    requires interval >= 1 && |name| + 100 < WORD && |data| + |filter| + |index| + 7 * WORD < FIXED64
    requires IsTable(data, q.ws, q.xs) && IsBlock(index, q.xs, q.rs, q.restarts) && q.filter == filter && FilterOk(q)
    ensures IsTableFile(file, p) && p.ws == q.ws && p.name == name
  {
    hide IsTable, IsBlock, Layout, Filtered, FramedAt, EncodeHandle, EncodeFooter, BlockTrailer;
    var file1, filterHandle := WriteRawBlock(data, filter);
    var meta;
    ghost var x, metaRs, metaRestarts;
    meta, x, metaRs, metaRestarts := MetaBlock(name, filterHandle, interval);
    var file2, metaHandle := WriteRawBlock(file1, meta);
    var file3, indexHandle := WriteRawBlock(file2, index);
    FooterRoundTrip(metaHandle, indexHandle);
    var footer := EncodeFooter(metaHandle, indexHandle);
    file := file3 + footer;
    p := q.(index := index, name := name, meta := meta, metaItem := x, metaRs := metaRs, metaRestarts := metaRestarts,
            filterHandle := filterHandle, metaHandle := metaHandle, indexHandle := indexHandle);
    RestStays(data, file1, file2, file3, footer, p);
  }

  lemma RestStays(data: Bytes, file1: Bytes, file2: Bytes, file3: Bytes, footer: Bytes, p: Parts)
    requires IsTable(data, p.ws, p.xs) && FramedAt(file1, p.filterHandle, p.filter)
    requires FramedAt(file2, p.metaHandle, p.meta) && FramedAt(file3, p.indexHandle, p.index)
    requires data <= file1 <= file2 <= file3 && |file3 + footer| < FIXED64
    ensures IsTable(file3 + footer, p.ws, p.xs) && FramedAt(file3 + footer, p.filterHandle, p.filter)
    ensures FramedAt(file3 + footer, p.metaHandle, p.meta) && FramedAt(file3 + footer, p.indexHandle, p.index)
    ensures (file3 + footer)[|file3|..] == footer
  {
    hide IsTable, FramedAt;
    var all := file3 + footer;
    assert all == data + all[|data|..] && all == file1 + all[|file1|..] && all == file2 + all[|file2|..];
    TableStays(data, all[|data|..], p.ws, p.xs);
    FramedStays(file1, all[|file1|..], p.filterHandle, p.filter);
    FramedStays(file2, all[|file2|..], p.metaHandle, p.meta);
    FramedStays(file3, footer, p.indexHandle, p.index);
  }

  /** Builds a table file from sorted pairs (BuildTable, the loop of DoCompactionWork). */
  method BuildTable(ps: seq<Pair>, blockSize: nat, interval: nat, bits: nat, name: Bytes)
      returns (file: Bytes, ghost p: Parts)
    requires SortedPairs(ps) && blockSize > 0 && interval >= 1 && blockSize + Weight(ps, bits) + |name| + 200 < WORD
    ensures IsTableFile(file, p) && EntriesOf(Blocks(p.ws)) == ps && p.name == name
  {
    hide TableBuilder.Ok, TableBuilder.Core, TableBuilder.Entries, FilterBlockBuilder.Bound, Weight, Less, EntriesOf;
    hide IsTable, IsBlock, Layout, Filtered;
    var builder := new TableBuilder(blockSize, interval, bits);
    StartsEmpty(builder, bits, blockSize);
    var i := 0;
    while i < |ps|
      invariant 0 <= i <= |ps| && fresh(builder) && fresh(builder.dataBlock) && fresh(builder.indexBlock)
      invariant fresh(builder.filter)
      invariant Progress(builder, ps[..i], bits, blockSize)
    {
      WeightPrefix(ps, bits, i);
      WeightPrefix(ps, bits, i + 1);
      assert i > 0 ==> ps[..i][i - 1] == ps[i - 1];
      builder.Add(ps[i].key, ps[i].value);
      assert ps[..i + 1] == ps[..i] + [ps[i]];
      i := i + 1;
    }
    assert ps[..i] == ps;
    WeightPrefix(ps, bits, |ps|);
    var index, filter;
    ghost var xs, rs, restarts, filters;
    index, filter, xs, rs, restarts, filters := builder.Finish();
    ghost var q := Parts(builder.ws, index, xs, rs, restarts, filter, filters, name, [], Item([], [], 0), [], [],
                         BlockHandle(0, 0), BlockHandle(0, 0), BlockHandle(0, 0));
    file, p := WriteRest(builder.file, filter, index, name, interval, q);
  }

  lemma StartsEmpty(b: TableBuilder, bits: nat, blockSize: nat)
    requires b.Ok() && b.ws == [] && b.dataBlock.xs == [] && b.file == [] && b.lastKey == []
    requires b.indexBlock.buffer == []
    requires b.filter.Bound() == 0 && b.filter.bitsPerKey == bits && b.blockSize == blockSize
    ensures Progress(b, [], bits, blockSize)
  {
  }

  /**
   From sorted pairs to the bytes of a table file and back: whatever the block size, the
   restart interval and the filter, and whether or not the reader uses the filter or
   verifies checksums, a lookup finds the newest operation on the user key that is not
   newer than `k`, and nothing only if the pairs have none.
   */
  method BuildAndGet(ps: seq<Pair>, blockSize: nat, interval: nat, bits: nat, name: Bytes, verify: bool,
                     policy: Option<Bytes>, k: Bytes)
    returns (r: Found)
    requires SortedPairs(ps) && blockSize > 0 && interval >= 1 && blockSize + Weight(ps, bits) + |name| + 200 < WORD
    requires |k| < WORD
    ensures LookedUp(ps, k, r)
  {
    hide IsTableFile, SortedPairs, LookedUp, Weight;
    var file;
    ghost var p;
    file, p := BuildTable(ps, blockSize, interval, bits, name);
    r := Get(file, verify, policy, k, p);
  }
}
