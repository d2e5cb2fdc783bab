/**
 Table files (table/table_builder.cc, table/table.cc): data blocks, an index of short
 separators, and a filter; and the lookup that opens at most one data block.
 */
module Table {
  import opened Keys
  import opened Spec
  import opened Coding
  import opened Block
  import opened Separators
  import opened FilterBlock

  // --- what the index promises ------------------------------------------------------------------

  ghost predicate Ordered(xs: seq<Item>) {
    forall i, j :: 0 <= i < j < |xs| ==> Less(Internal, xs[i].key, xs[j].key)
  }

  ghost predicate AllBeforeAll(xs: seq<Item>, ys: seq<Item>) {
    forall i, j :: 0 <= i < |xs| && 0 <= j < |ys| ==> Less(Internal, xs[i].key, ys[j].key)
  }

  /** Blocks are filled with entries in order. */
  ghost predicate BlocksOk(bs: seq<seq<Item>>) {
    && (forall b :: 0 <= b < |bs| ==> bs[b] != [] && Ordered(bs[b]) && forall i :: 0 <= i < |bs[b]| ==>
          |bs[b][i].key| >= 8)
    && (forall b, c :: 0 <= b < c < |bs| ==> AllBeforeAll(bs[b], bs[c]))
  }

  function LastKey(xs: seq<Item>): Bytes
    requires xs != []
  {
    xs[|xs| - 1].key
  }

  /** A separator is the last key itself, or its user key lies strictly between those on either side. */
  predicate Separates(last: Bytes, sep: Bytes, next: Option<Bytes>) {
    || sep == last
    || (BytesLess(UserPart(last), UserPart(sep)) && (next.Some? ==> BytesLess(UserPart(sep), UserPart(next.value))))
  }

  function NextFirst(bs: seq<seq<Item>>, b: nat): Option<Bytes> {
    if b + 1 < |bs| && bs[b + 1] != [] then Some(bs[b + 1][0].key) else None
  }

  ghost predicate IndexOk(bs: seq<seq<Item>>, seps: seq<Bytes>) {
    |seps| == |bs| && forall b :: 0 <= b < |bs| && bs[b] != [] ==> Separates(LastKey(bs[b]), seps[b], NextFirst(bs, b))
  }

  /** Block `b`, entry `i` is the first entry of the table that is not before `k`. */
  ghost predicate IsFirst(bs: seq<seq<Item>>, k: Bytes, b: nat, i: nat) {
    && b < |bs| && i < |bs[b]| && !Less(Internal, bs[b][i].key, k)
    && (forall j :: 0 <= j < i ==> Less(Internal, bs[b][j].key, k))
    && (forall c, j :: 0 <= c < b && 0 <= j < |bs[c]| ==> Less(Internal, bs[c][j].key, k))
  }

  /** The separator of a block is not before anything in it. */
  lemma SeparatorAfter(bs: seq<seq<Item>>, seps: seq<Bytes>, b: nat, i: nat)
    requires BlocksOk(bs) && IndexOk(bs, seps) && b < |bs| && i < |bs[b]|
    ensures !Less(Internal, seps[b], bs[b][i].key)
  {
    var last, x := LastKey(bs[b]), bs[b][i].key;
    assert i < |bs[b]| - 1 ==> Less(Internal, x, last);
    LessTrans(Internal, x, last, seps[b]);
    LessTrans(Internal, seps[b], x, last);
    LessTrans(Internal, x, seps[b], x);
    BytesTotal(UserPart(last), UserPart(seps[b]));
    BytesTotal(UserPart(x), UserPart(x));
  }

  /** Blocks before the one the index names hold nothing at or after `k`. */
  lemma EarlierBlocks(bs: seq<seq<Item>>, seps: seq<Bytes>, k: Bytes, b: nat)
    requires BlocksOk(bs) && IndexOk(bs, seps) && b <= |bs| && forall c :: 0 <= c < b ==> Less(Internal, seps[c], k)
    ensures forall c, j :: 0 <= c < b && 0 <= j < |bs[c]| ==> Less(Internal, bs[c][j].key, k)
  {
    forall c, j | 0 <= c < b && 0 <= j < |bs[c]| ensures Less(Internal, bs[c][j].key, k) {
      SeparatorAfter(bs, seps, c, j);
      LessTrans(Internal, bs[c][j].key, seps[c], k);
    }
  }

  /** If a block whose separator is not before `k` has nothing at or after `k`, no later entry has `k`'s user key. */
  lemma NothingLeft(bs: seq<seq<Item>>, seps: seq<Bytes>, k: Bytes, b: nat, c: nat, i: nat)
    requires BlocksOk(bs) && IndexOk(bs, seps) && b < |bs| && !Less(Internal, seps[b], k)
    requires forall j :: 0 <= j < |bs[b]| ==> Less(Internal, bs[b][j].key, k)
    requires b < c < |bs| && i < |bs[c]|
    ensures UserPart(bs[c][i].key) != UserPart(k)
  {
    var last, sep, next, x := LastKey(bs[b]), seps[b], bs[b + 1][0].key, bs[c][i].key;
    assert Separates(last, sep, NextFirst(bs, b)) && Less(Internal, last, k);
    assert sep != last;
    assert BytesLess(UserPart(sep), UserPart(next));
    assert next == x || Less(Internal, next, x) by {
      if c == b + 1 {
        assert i > 0 ==> Less(Internal, bs[c][0].key, bs[c][i].key);
      } else {
        assert AllBeforeAll(bs[b + 1], bs[c]);
      }
    }
    BytesTotal(UserPart(k), UserPart(sep));
    BytesTrans(UserPart(k), UserPart(sep), UserPart(next));
    BytesTrans(UserPart(k), UserPart(next), UserPart(x));
    BytesTotal(UserPart(k), UserPart(x));
    BytesTotal(UserPart(sep), UserPart(next));
  }

  // --- block handles --------------------------------------------------------------------------------

  datatype BlockHandle = BlockHandle(offset: nat, size: nat)

  function EncodeHandle(h: BlockHandle): Bytes {
    EncodeVarint(h.offset) + EncodeVarint(h.size)
  }

  /** BlockHandle::DecodeFrom. */
  function TakeHandle(b: Bytes): Option<Parsed<BlockHandle>> {
    match GetVarint64(b)
    case None => None
    case Some(x) =>
      match GetVarint64(b[x.used..])
      case None => None
      case Some(y) => Some(Parsed(BlockHandle(x.value, y.value), x.used + y.used))
  }

  function DecodeHandle(b: Bytes): Option<BlockHandle> {
    match TakeHandle(b)
    case None => None
    case Some(h) => Some(h.value)
  }

  predicate HandleOk(h: BlockHandle) {
    h.offset < FIXED64 && h.size < FIXED64
  }

  lemma HandleRoundTrip(h: BlockHandle, rest: Bytes)
    requires HandleOk(h)
    ensures TakeHandle(EncodeHandle(h) + rest) == Some(Parsed(h, |EncodeHandle(h)|)) && |EncodeHandle(h)| <= 20
  {
    hide EncodeVarint, GetVarint64;
    var x, y := EncodeVarint(h.offset), EncodeVarint(h.size);
    VarintFits(h.offset);
    VarintFits(h.size);
    Varint64RoundTrip(h.offset, y + rest);
    Varint64RoundTrip(h.size, rest);
    assert EncodeHandle(h) + rest == x + (y + rest) && (x + (y + rest))[|x|..] == y + rest;
  }

  // --- blocks in a file --------------------------------------------------------------------------------

  /** The type byte and the masked checksum that follow a block. */
  function BlockTrailer(block: Bytes): (t: Bytes)
    ensures |t| == 5
  {
    [0] + EncodeFixed32(Mask(Crc(block + [0])))
  }

  /** Nothing if the file is too short, the checksum is wrong and was asked for, or the type is not "not compressed". */
  function ReadBlock(file: Bytes, h: BlockHandle, verify: bool): Option<Bytes> {
    var end := h.offset + h.size;
    if end + 5 > |file| then None
    else if verify && Unmask(DecodeFixed32(file[end + 1..end + 5])) != Crc(file[h.offset..end + 1]) then None
    else if file[end] != 0 then None
    else Some(file[h.offset..end])
  }

  ghost predicate FramedAt(file: Bytes, h: BlockHandle, block: Bytes) {
    && h.size == |block| && h.offset + |block| + 5 <= |file| < FIXED64
    && file[h.offset..h.offset + |block| + 5] == block + BlockTrailer(block)
  }

  lemma FramedReads(file: Bytes, h: BlockHandle, block: Bytes, verify: bool)
    requires FramedAt(file, h, block)
    ensures ReadBlock(file, h, verify) == Some(block)
  {
    hide Crc, Mask, DecodeFixed32, EncodeFixed32;
    var all, n := file[h.offset..h.offset + |block| + 5], |block|;
    var end := h.offset + n;
    assert file[h.offset..end] == all[..n] && all[..n] == block;
    assert file[h.offset..end + 1] == all[..n + 1] && all[..n + 1] == block + [0];
    assert file[end + 1..end + 5] == all[n + 1..n + 5] && all[n + 1..n + 5] == EncodeFixed32(Mask(Crc(block + [0])));
    assert file[end] == all[n];
    UnmaskMask(Crc(block + [0]));
  }

  lemma FramedStays(file: Bytes, more: Bytes, h: BlockHandle, block: Bytes)
    requires FramedAt(file, h, block) && |file + more| < FIXED64
    ensures FramedAt(file + more, h, block)
  {
    assert (file + more)[h.offset..h.offset + |block| + 5] == file[h.offset..h.offset + |block| + 5];
  }

  lemma FramedNew(file: Bytes, block: Bytes)
    requires |file| + |block| + 5 < FIXED64
    ensures FramedAt(file + block + BlockTrailer(block), BlockHandle(|file|, |block|), block)
  {
    assert file + block + BlockTrailer(block) == file + (block + BlockTrailer(block));
  }

  // --- a table in bytes ----------------------------------------------------------------------------------

  /** A data block as written: where it is, its entries and restart points. */
  datatype Written = Written(handle: BlockHandle, xs: seq<Item>, rs: seq<nat>, restarts: seq<nat>)

  ghost predicate Stored(file: Bytes, w: Written) {
    exists block :: FramedAt(file, w.handle, block) && IsBlock(block, w.xs, w.rs, w.restarts)
  }

  ghost function Blocks(ws: seq<Written>): (bs: seq<seq<Item>>)
    ensures |bs| == |ws| && forall i :: 0 <= i < |ws| ==> bs[i] == ws[i].xs
  {
    seq(|ws|, i requires 0 <= i < |ws| => ws[i].xs)
  }

  ghost function Seps(index: seq<Item>): (seps: seq<Bytes>)
    ensures |seps| == |index| && forall i :: 0 <= i < |index| ==> seps[i] == index[i].key
  {
    seq(|index|, i requires 0 <= i < |index| => index[i].key)
  }

  /** Every key of block `w` is held by the filter of its range. */
  ghost predicate Filtered(filters: seq<Bytes>, w: Written) {
    var f := w.handle.offset / FILTER_BASE;
    f < |filters| && forall i :: 0 <= i < |w.xs| ==> Bloom.Holds(filters[f], UserPart(w.xs[i].key))
  }

  /** The index block names the data blocks, in order. */
  ghost predicate Names(index: seq<Item>, ws: seq<Written>) {
    |index| == |ws| && forall i :: 0 <= i < |ws| ==> index[i].value == EncodeHandle(ws[i].handle)
  }

  ghost predicate IsTable(file: Bytes, ws: seq<Written>, index: seq<Item>) {
    && (forall i :: 0 <= i < |ws| ==> Stored(file, ws[i]))
    && BlocksOk(Blocks(ws)) && IndexOk(Blocks(ws), Seps(index)) && Names(index, ws)
  }

  /** Separators ascend, so that the index block can be searched. */
  lemma SeparatorBefore(last: Bytes, sep: Bytes, next: Bytes)
    requires Separates(last, sep, Some(next)) && Less(Internal, last, next)
    ensures Less(Internal, sep, next)
  {
  }

  lemma SeparatorsAscend(bs: seq<seq<Item>>, seps: seq<Bytes>, b: nat, c: nat)
    requires BlocksOk(bs) && IndexOk(bs, seps) && b < c < |bs|
    ensures Less(Internal, seps[b], seps[c])
    decreases c - b
  {
    hide Less;
    var last, next, sep := LastKey(bs[b]), bs[b + 1][0].key, seps[b];
    assert AllBeforeAll(bs[b], bs[b + 1]) && Less(Internal, last, next);
    assert Separates(last, sep, NextFirst(bs, b));
    SeparatorBefore(last, sep, next);
    SeparatorAfter(bs, seps, b + 1, 0);
    LessTrans(Internal, sep, next, seps[b + 1]);
    if b + 1 < c {
      SeparatorsAscend(bs, seps, b + 1, c);
      LessTrans(Internal, sep, seps[b + 1], seps[c]);
    }
  }

  lemma IndexIncreases(ws: seq<Written>, index: seq<Item>)
    requires BlocksOk(Blocks(ws)) && IndexOk(Blocks(ws), Seps(index))
    ensures Increasing(Internal, index)
  {
    forall i, j | 0 <= i < j < |index| ensures Less(Internal, index[i].key, index[j].key) {
      SeparatorsAscend(Blocks(ws), Seps(index), i, j);
    }
  }

  /** A lookup found an entry of the table, or nothing. */
  datatype Found = Nothing | Hit(key: Bytes, value: Bytes)

  /** `r` is the first entry at or after `k`; nothing only if no entry from `k` on has its user key. */
  ghost predicate Answer(bs: seq<seq<Item>>, k: Bytes, r: Found) {
    match r
    case Hit(key, value) =>
      exists b: nat, i: nat :: IsFirst(bs, k, b, i) && bs[b][i].key == key && bs[b][i].value == value
    case Nothing => forall b, i :: 0 <= b < |bs| && 0 <= i < |bs[b]| && !Less(Internal, bs[b][i].key, k) ==>
           UserPart(bs[b][i].key) != UserPart(k)
  }

  /** Looks into the one block that the index names. */
  method SearchBlock(file: Bytes, handle: BlockHandle, verify: bool, k: Bytes, ghost w: Written)
      returns (r: Found, ghost i: nat)
    requires Stored(file, w) && w.handle == handle && Increasing(Internal, w.xs)
    ensures i <= |w.xs| && (forall j :: 0 <= j < i ==> Less(Internal, w.xs[j].key, k))
    ensures if i < |w.xs| then !Less(Internal, w.xs[i].key, k) && r == Hit(w.xs[i].key, w.xs[i].value) else r == Nothing
  {
    hide IsBlock, Less, Iter.Sound, StandsAt, FramedAt, ReadBlock;
    ghost var block :| FramedAt(file, w.handle, block) && IsBlock(block, w.xs, w.rs, w.restarts);
    FramedReads(file, handle, block, verify);
    var contents := ReadBlock(file, handle, verify);
    var it := new Iter(Internal, contents.value, w.xs, w.rs, w.restarts);
    it.Seek(k);
    i := it.index;
    r := if it.Valid() then Hit(it.key, it.Value()) else Nothing;
  }

  /** What the search of the index says about the blocks. */
  ghost predicate Picks(seps: seq<Bytes>, k: Bytes, b: nat) {
    && b <= |seps| && (forall c :: 0 <= c < b ==> Less(Internal, seps[c], k))
    && (b < |seps| ==> !Less(Internal, seps[b], k))
  }

  lemma NoBlock(bs: seq<seq<Item>>, seps: seq<Bytes>, k: Bytes)
    requires BlocksOk(bs) && IndexOk(bs, seps) && Picks(seps, k, |seps|)
    ensures Answer(bs, k, Nothing)
  {
    EarlierBlocks(bs, seps, k, |bs|);
  }

  lemma BlockAnswers(bs: seq<seq<Item>>, seps: seq<Bytes>, k: Bytes, b: nat, i: nat)
    requires BlocksOk(bs) && IndexOk(bs, seps) && Picks(seps, k, b) && b < |seps| == |bs|
    requires i <= |bs[b]| && (forall j :: 0 <= j < i ==> Less(Internal, bs[b][j].key, k))
    requires (i < |bs[b]| ==> !Less(Internal, bs[b][i].key, k))
    ensures Answer(bs, k, if i < |bs[b]| then Hit(bs[b][i].key, bs[b][i].value) else Nothing)
  {
    hide Less, BlocksOk, IndexOk;
    EarlierBlocks(bs, seps, k, b);
    if i < |bs[b]| {
      assert IsFirst(bs, k, b, i);
    } else {
      MissAnswers(bs, seps, k, b);
    }
  }

  lemma MissAnswers(bs: seq<seq<Item>>, seps: seq<Bytes>, k: Bytes, b: nat)
    requires BlocksOk(bs) && IndexOk(bs, seps) && Picks(seps, k, b) && b < |seps| && b < |bs|
    requires forall j :: 0 <= j < |bs[b]| ==> Less(Internal, bs[b][j].key, k)
    ensures Answer(bs, k, Nothing)
  {
    hide Less, BlocksOk, IndexOk;
    hide Less, UserPart, IndexOk;
    EarlierBlocks(bs, seps, k, b);
    forall c, j | 0 <= c < |bs| && 0 <= j < |bs[c]| && !Less(Internal, bs[c][j].key, k)
      ensures UserPart(bs[c][j].key) != UserPart(k)
    {
      if c > b {
        NothingLeft(bs, seps, k, b, c, j);
      }
    }
  }

  /** If the filter has ruled out `k`'s user key in the block picked, no entry from `k` on has it. */
  lemma FilterAnswers(bs: seq<seq<Item>>, seps: seq<Bytes>, k: Bytes, b: nat)
    requires BlocksOk(bs) && IndexOk(bs, seps) && Picks(seps, k, b) && b < |seps| == |bs|
    requires forall j :: 0 <= j < |bs[b]| ==> UserPart(bs[b][j].key) != UserPart(k)
    ensures Answer(bs, k, Nothing)
  {
    hide Less, UserPart, IndexOk;
    EarlierBlocks(bs, seps, k, b);
    forall c, j | 0 <= c < |bs| && 0 <= j < |bs[c]| && !Less(Internal, bs[c][j].key, k)
      ensures UserPart(bs[c][j].key) != UserPart(k)
    {
      if c > b {
        if x :| 0 <= x < |bs[b]| && !Less(Internal, bs[b][x].key, k) {
          assert AllBeforeAll(bs[b], bs[c]);
          Between(k, bs[b][x].key, bs[c][j].key);
        } else {
          NothingLeft(bs, seps, k, b, c, j);
        }
      }
    }
  }

  lemma Between(k: Bytes, x: Bytes, y: Bytes)
    requires !Less(Internal, x, k) && Less(Internal, x, y) && UserPart(x) != UserPart(k)
    ensures UserPart(y) != UserPart(k)
  {
    BytesTotal(UserPart(x), UserPart(k));
    BytesTotal(UserPart(x), UserPart(y));
  }

  /**
   Table::InternalGet.  The result is the table's first entry at or after `k`.  There is
   none only when no entry of the table from `k` on has `k`'s user key.
   */
  method InternalGet(file: Bytes, index: Bytes, filter: Option<Bytes>, verify: bool, k: Bytes,
                     ghost ws: seq<Written>, ghost xs: seq<Item>, ghost rs: seq<nat>, ghost restarts: seq<nat>,
                       ghost filters: seq<Bytes>)
    returns (r: Found)
    requires |k| < WORD && IsTable(file, ws, xs) && IsBlock(index, xs, rs, restarts)
    requires filter.Some? ==> Layout(filter.value, filters) && forall i :: 0 <= i < |ws| ==> Filtered(filters, ws[i])
    ensures Answer(Blocks(ws), k, r)
  {
    hide IsBlock, Less, Iter.Sound, StandsAt, BlocksOk, IndexOk, Answer, Filtered, Layout, Stored, Increasing;
    hide AllSmaller;
    IndexIncreases(ws, xs);
    ghost var bs, seps := Blocks(ws), Seps(xs);
    var it := new Iter(Internal, index, xs, rs, restarts);
    it.Seek(k);
    ghost var b := it.index;
    PicksBlock(xs, k, b);
    if !it.Valid() {
      NoBlock(bs, seps, k);
      return Nothing;
    }
    ghost var w := ws[b];
    StoredHandle(file, w);
    var handle := DecodeHandle(it.Value());
    if filter.Some? && handle.Some? {
      var may := KeyMayMatch(filter.value, handle.value.offset, k, filters);
      if !may {
        RuledOut(filters, w, k);
        FilterAnswers(bs, seps, k, b);
        return Nothing;
      }
    }
    BlockIncreases(bs, b);
    ghost var i;
    r, i := SearchBlock(file, handle.value, verify, k, w);
    BlockAnswers(bs, seps, k, b, i);
  }

  lemma PicksBlock(xs: seq<Item>, k: Bytes, b: nat)
    requires b <= |xs| && AllSmaller(Internal, xs, k, b) && (b < |xs| ==> !Less(Internal, xs[b].key, k))
    ensures Picks(Seps(xs), k, b)
  {
  }

  lemma StoredHandle(file: Bytes, w: Written)
    requires Stored(file, w)
    ensures DecodeHandle(EncodeHandle(w.handle)) == Some(w.handle)
  {
    var block :| FramedAt(file, w.handle, block);
    HandleRoundTrip(w.handle, []);
    assert EncodeHandle(w.handle) + [] == EncodeHandle(w.handle);
  }

  /** Positions of a table in order. */
  lemma InOrder(bs: seq<seq<Item>>, b: nat, i: nat, c: nat, j: nat)
    requires BlocksOk(bs) && b < |bs| && i < |bs[b]| && c < |bs| && j < |bs[c]| && (b < c || (b == c && i <= j))
    ensures (b == c && i == j) || Less(Internal, bs[b][i].key, bs[c][j].key)
  {
    if b < c {
      assert AllBeforeAll(bs[b], bs[c]);
    } else {
      assert Ordered(bs[b]);
    }
  }

  /**
   Nothing is lost: if the table holds an entry for `k`'s user key that is not newer than
   `k`, the lookup finds the newest such entry.
   */
  lemma FindsNewest(bs: seq<seq<Item>>, k: Bytes, r: Found, c: nat, j: nat)
    requires BlocksOk(bs) && Answer(bs, k, r)
    requires c < |bs| && j < |bs[c]| && UserPart(bs[c][j].key) == UserPart(k) && Trailer(bs[c][j].key) <= Trailer(k)
    ensures r.Hit? && UserPart(r.key) == UserPart(k) && Trailer(bs[c][j].key) <= Trailer(r.key) <= Trailer(k)
    ensures Trailer(bs[c][j].key) == Trailer(r.key) ==> r == Hit(bs[c][j].key, bs[c][j].value)
  {
    var e := bs[c][j].key;
    BytesTotal(UserPart(k), UserPart(k));
    assert !Less(Internal, e, k);
    var b: nat, i: nat :| IsFirst(bs, k, b, i) && bs[b][i].key == r.key && bs[b][i].value == r.value;
    InOrder(bs, b, i, c, j);
    BytesTotal(UserPart(r.key), UserPart(k));
  }

  lemma BlockIncreases(bs: seq<seq<Item>>, b: nat)
    requires BlocksOk(bs) && b < |bs|
    ensures Increasing(Internal, bs[b])
  {
    assert Ordered(bs[b]);
  }

  lemma RuledOut(filters: seq<Bytes>, w: Written, k: Bytes)
    requires Filtered(filters, w)
    requires w.handle.offset / FILTER_BASE < |filters| ==>
               !Bloom.Holds(filters[w.handle.offset / FILTER_BASE], UserPart(k))
    ensures forall j :: 0 <= j < |w.xs| ==> UserPart(w.xs[j].key) != UserPart(k)
  {
  }

  // --- the builder ----------------------------------------------------------------------------------------

  /** Entries of the block being filled come after all finished blocks. */
  ghost predicate Growing(bs: seq<seq<Item>>, cur: seq<Item>) {
    && BlocksOk(bs) && Ordered(cur) && (forall i :: 0 <= i < |cur| ==> |cur[i].key| >= 8)
    && (forall b :: 0 <= b < |bs| ==> AllBeforeAll(bs[b], cur))
  }

  /** The key added last, if any. */
  ghost predicate IsLastKey(bs: seq<seq<Item>>, cur: seq<Item>, key: Bytes) {
    if cur != [] then key == LastKey(cur) else bs != [] && bs[|bs| - 1] != [] ==> key == LastKey(bs[|bs| - 1])
  }

  function KeyAfter(bs: seq<seq<Item>>, cur: seq<Item>, b: nat): Option<Bytes> {
    if b + 1 < |bs| then NextFirst(bs, b) else if cur != [] then Some(cur[0].key) else None
  }

  /** The first blocks have their index entries. */
  ghost predicate Indexed(bs: seq<seq<Item>>, cur: seq<Item>, index: seq<Item>) {
    && |index| <= |bs|
    && forall b :: 0 <= b < |index| && bs[b] != [] ==>
         KeyAfter(bs, cur, b).Some? && Separates(LastKey(bs[b]), index[b].key, KeyAfter(bs, cur, b))
  }

  /** A key after the last one is after all. */
  lemma AfterAll(bs: seq<seq<Item>>, cur: seq<Item>, last: Bytes, x: Item)
    requires Growing(bs, cur) && IsLastKey(bs, cur, last) && |x.key| >= 8
    requires (bs != [] || cur != [] ==> Less(Internal, last, x.key))
    ensures Growing(bs, cur + [x]) && IsLastKey(bs, cur + [x], x.key)
  {
    hide Less;
    var cur' := cur + [x];
    forall i | 0 <= i < |cur| ensures Less(Internal, cur[i].key, x.key) {
      if i < |cur| - 1 {
        assert Less(Internal, cur[i].key, last);
        LessTrans(Internal, cur[i].key, last, x.key);
      }
    }
    forall b | 0 <= b < |bs| ensures AllBeforeAll(bs[b], cur') {
      forall i | 0 <= i < |bs[b]| ensures Less(Internal, bs[b][i].key, x.key) {
        EarlierThanLast(bs, cur, last, b, i);
        LessTrans(Internal, bs[b][i].key, last, x.key);
      }
    }
  }

  lemma EarlierThanLast(bs: seq<seq<Item>>, cur: seq<Item>, last: Bytes, b: nat, i: nat)
    requires Growing(bs, cur) && IsLastKey(bs, cur, last) && b < |bs| && i < |bs[b]|
    ensures bs[b][i].key == last || Less(Internal, bs[b][i].key, last)
  {
    if cur != [] {
      assert AllBeforeAll(bs[b], cur);
    } else if b < |bs| - 1 {
      assert AllBeforeAll(bs[b], bs[|bs| - 1]);
    } else if i < |bs[b]| - 1 {
      assert Less(Internal, bs[b][i].key, bs[b][|bs[b]| - 1].key);
    }
  }

  /** Closing the block makes it one of the finished ones. */
  lemma CloseBlock(bs: seq<seq<Item>>, cur: seq<Item>, index: seq<Item>, last: Bytes)
    requires Growing(bs, cur) && cur != [] && IsLastKey(bs, cur, last) && Indexed(bs, cur, index)
    ensures Growing(bs + [cur], []) && IsLastKey(bs + [cur], [], last) && Indexed(bs + [cur], [], index)
  {
    var bs' := bs + [cur];
    forall b, c | 0 <= b < c < |bs'| ensures AllBeforeAll(bs'[b], bs'[c]) {
    }
    forall b | 0 <= b < |index| && bs'[b] != [] ensures KeyAfter(bs', [], b) == KeyAfter(bs, cur, b) {
    }
  }

  lemma MoreInBlock(bs: seq<seq<Item>>, cur: seq<Item>, index: seq<Item>, x: Item)
    requires Indexed(bs, cur, index) && (cur == [] ==> |index| < |bs| || bs == [])
    ensures Indexed(bs, cur + [x], index)
  {
    forall b | 0 <= b < |index| && bs[b] != [] ensures KeyAfter(bs, cur + [x], b) == KeyAfter(bs, cur, b) {
    }
  }

  /** The entry for the last finished block, made when the next key is known. */
  lemma AddIndexEntry(bs: seq<seq<Item>>, index: seq<Item>, e: Item, x: Item)
    requires Indexed(bs, [], index) && |index| + 1 == |bs| && bs[|bs| - 1] != []
    requires Separates(LastKey(bs[|bs| - 1]), e.key, Some(x.key))
    ensures Indexed(bs, [x], index + [e])
  {
    forall b | 0 <= b < |index| && bs[b] != [] ensures KeyAfter(bs, [x], b) == KeyAfter(bs, [], b) {
    }
  }

  /** A complete index: every separator but the last was made with the next key known. */
  lemma IndexComplete(bs: seq<seq<Item>>, index: seq<Item>, e: Item)
    requires Indexed(bs, [], index) && |index| + 1 == |bs| && bs[|bs| - 1] != []
    requires Separates(LastKey(bs[|bs| - 1]), e.key, None)
    ensures IndexOk(bs, Seps(index + [e]))
  {
    var all := index + [e];
    forall b | 0 <= b < |bs| && bs[b] != [] ensures Separates(LastKey(bs[b]), Seps(all)[b], NextFirst(bs, b)) {
      if b < |index| {
        assert KeyAfter(bs, [], b) == NextFirst(bs, b);
      }
    }
  }

  // --- which filter a key is in --------------------------------------------------------------------------

  ghost predicate InFilter(groups: seq<seq<Bytes>>, pending: seq<Bytes>, offset: nat, key: Bytes) {
    var f := offset / FILTER_BASE;
    if f < |groups| then key in groups[f] else f == |groups| && key in pending
  }

  ghost predicate BlockInFilter(groups: seq<seq<Bytes>>, pending: seq<Bytes>, offset: nat, xs: seq<Item>) {
    forall i :: 0 <= i < |xs| ==> InFilter(groups, pending, offset, xs[i].key)
  }

  /** Starting a block moves the pending keys into the filter of their range. */
  lemma StartKeeps(groups: seq<seq<Bytes>>, pending: seq<Bytes>, groups': seq<seq<Bytes>>, pending': seq<Bytes>,
                   offset: nat, xs: seq<Item>)
    requires BlockInFilter(groups, pending, offset, xs) && |groups'| >= |groups| && groups'[..|groups|] == groups
    requires if |groups'| == |groups| then pending' == pending else groups'[|groups|] == pending
    ensures BlockInFilter(groups', pending', offset, xs)
  {
    forall i | 0 <= i < |xs| ensures InFilter(groups', pending', offset, xs[i].key) {
      assert InFilter(groups, pending, offset, xs[i].key);
      var f := offset / FILTER_BASE;
      if f < |groups| {
        assert groups'[..|groups|][f] == groups'[f];
      }
    }
  }

  lemma PendingKeeps(groups: seq<seq<Bytes>>, pending: seq<Bytes>, key: Bytes, offset: nat, xs: seq<Item>)
    requires BlockInFilter(groups, pending, offset, xs)
    ensures BlockInFilter(groups, pending + [key], offset, xs)
  {
    forall i | 0 <= i < |xs| ensures InFilter(groups, pending + [key], offset, xs[i].key) {
      assert InFilter(groups, pending, offset, xs[i].key);
    }
  }

  /** Once all filters are made, every key is held by the filter of its block's range. */
  lemma GroupsHold(filters: seq<Bytes>, groups: seq<seq<Bytes>>, w: Written)
    requires AllCover(filters, groups) && BlockInFilter(groups, [], w.handle.offset, w.xs) && w.xs != []
    ensures Filtered(filters, w)
  {
    assert InFilter(groups, [], w.handle.offset, w.xs[0].key);
    var f := w.handle.offset / FILTER_BASE;
    forall i | 0 <= i < |w.xs| ensures Bloom.Holds(filters[f], UserPart(w.xs[i].key)) {
      assert InFilter(groups, [], w.handle.offset, w.xs[i].key);
      assert Covers(filters[f], groups[f]);
      var j :| 0 <= j < |groups[f]| && groups[f][j] == w.xs[i].key;
    }
  }

  // --- TableBuilder --------------------------------------------------------------------------------------------

  ghost predicate AllStored(file: Bytes, ws: seq<Written>) {
    forall i :: 0 <= i < |ws| ==> Stored(file, ws[i])
  }

  lemma StoredStays(file: Bytes, more: Bytes, ws: seq<Written>)
    requires AllStored(file, ws) && |file + more| < FIXED64
    ensures AllStored(file + more, ws)
  {
    forall i | 0 <= i < |ws| ensures Stored(file + more, ws[i]) {
      var w := ws[i];
      assert Stored(file, w);
      var block :| FramedAt(file, w.handle, block) && IsBlock(block, w.xs, w.rs, w.restarts);
      FramedStays(file, more, w.handle, block);
    }
  }

  lemma StoredNew(file: Bytes, block: Bytes, ws: seq<Written>, w: Written)
    requires AllStored(file, ws) && |file| + |block| + 5 < FIXED64
    requires w.handle == BlockHandle(|file|, |block|) && IsBlock(block, w.xs, w.rs, w.restarts)
    ensures AllStored(file + block + BlockTrailer(block), ws + [w])
  {
    hide FramedAt, IsBlock;
    StoredStays(file, block + BlockTrailer(block), ws);
    assert file + block + BlockTrailer(block) == file + (block + BlockTrailer(block));
    FramedNew(file, block);
  }

  ghost predicate AllInFilter(groups: seq<seq<Bytes>>, pending: seq<Bytes>, ws: seq<Written>) {
    forall i :: 0 <= i < |ws| ==> BlockInFilter(groups, pending, ws[i].handle.offset, ws[i].xs)
  }

  lemma BlocksSnoc(ws: seq<Written>, w: Written)
    ensures Blocks(ws + [w]) == Blocks(ws) + [w.xs]
  {
  }

  /** What the builder has written and what it still owes the index. */
  ghost predicate Consistent(file: Bytes, ws: seq<Written>, cur: seq<Item>, index: seq<Item>, lastKey: Bytes,
                             pending: bool, handle: BlockHandle) {
    && AllStored(file, ws) && Growing(Blocks(ws), cur) && IsLastKey(Blocks(ws), cur, lastKey)
    && Indexed(Blocks(ws), cur, index) && NamesFirst(index, ws)
    && |index| == (if pending then |ws| - 1 else |ws|)
    && (pending ==> ws != [] && cur == [] && handle == ws[|ws| - 1].handle)
    && (!pending ==> cur != [] || ws == [])
  }

  ghost predicate FiltersOk(file: Bytes, ws: seq<Written>, cur: seq<Item>, groups: seq<seq<Bytes>>,
                            pending: seq<Bytes>) {
    |groups| == |file| / FILTER_BASE && AllInFilter(groups, pending, ws) && BlockInFilter(groups, pending, |file|, cur)
  }

  lemma FlushConsistent(file: Bytes, ws: seq<Written>, cur: seq<Item>, index: seq<Item>, lastKey: Bytes,
                        handle: BlockHandle, block: Bytes, w: Written)
    requires Consistent(file, ws, cur, index, lastKey, false, handle) && cur != [] && w.xs == cur
    requires IsBlock(block, cur, w.rs, w.restarts)
    requires w.handle == BlockHandle(|file|, |block|) && |file| + |block| + 5 < FIXED64
    ensures Consistent(file + block + BlockTrailer(block), ws + [w], [], index, lastKey, true, w.handle)
    ensures Blocks(ws + [w]) == Blocks(ws) + [cur]
  {
    StoredNew(file, block, ws, w);
    CloseBlock(Blocks(ws), cur, index, lastKey);
    BlocksSnoc(ws, w);
    hide IsBlock, Growing, Indexed, IsLastKey, AllStored;
  }

  /** One more entry; an owed index entry is made first. */
  lemma AddConsistent(file: Bytes, ws: seq<Written>, cur: seq<Item>, index: seq<Item>, lastKey: Bytes, pending: bool,
                      handle: BlockHandle,
                      x: Item, index': seq<Item>)
    requires Consistent(file, ws, cur, index, lastKey, pending, handle) && |x.key| >= 8
    requires ws != [] || cur != [] ==> Less(Internal, lastKey, x.key)
    requires if pending then |index'| == |index| + 1 && index <= index' else index' == index
    requires pending ==> Separates(lastKey, index'[|index|].key, Some(x.key))
    requires pending ==> index'[|index|].value == EncodeHandle(handle)
    ensures Consistent(file, ws, cur + [x], index', x.key, false, handle)
  {
    hide Growing, IsLastKey, Indexed, AllStored, NamesFirst, Less, Separates;
    var bs := Blocks(ws);
    AfterAll(bs, cur, lastKey, x);
    if pending {
      var e := index'[|index|];
      assert index' == index + [e];
      LastBlock(bs, lastKey);
      AddIndexEntry(bs, index, e, x);
      NameNext(index, ws, e);
      assert cur + [x] == [x];
    } else {
      MoreInBlock(bs, cur, index, x);
    }
  }

  lemma NameNext(index: seq<Item>, ws: seq<Written>, e: Item)
    requires NamesFirst(index, ws) && |index| < |ws| && e.value == EncodeHandle(ws[|index|].handle)
    ensures NamesFirst(index + [e], ws)
  {
  }

  lemma LastBlock(bs: seq<seq<Item>>, lastKey: Bytes)
    requires Growing(bs, []) && bs != [] && IsLastKey(bs, [], lastKey)
    ensures bs[|bs| - 1] != [] && LastKey(bs[|bs| - 1]) == lastKey && |lastKey| >= 8
  {
  }

  lemma HandleShort(file: Bytes, ws: seq<Written>, cur: seq<Item>, index: seq<Item>, lastKey: Bytes,
                    handle: BlockHandle)
    requires Consistent(file, ws, cur, index, lastKey, true, handle)
    ensures |EncodeHandle(handle)| <= 20 && 8 <= |lastKey| < WORD
  {
    var w := ws[|ws| - 1];
    assert Stored(file, w);
    var block :| FramedAt(file, w.handle, block) && IsBlock(block, w.xs, w.rs, w.restarts);
    LastBlock(Blocks(ws), lastKey);
    assert ItemOk(w.xs[|w.xs| - 1]);
    VarintFits(handle.offset);
    VarintFits(handle.size);
  }

  lemma AddFilters(file: Bytes, ws: seq<Written>, cur: seq<Item>, groups: seq<seq<Bytes>>, pending: seq<Bytes>, x: Item)
    requires FiltersOk(file, ws, cur, groups, pending)
    ensures FiltersOk(file, ws, cur + [x], groups, pending + [x.key])
  {
    forall i | 0 <= i < |ws| ensures BlockInFilter(groups, pending + [x.key], ws[i].handle.offset, ws[i].xs) {
      PendingKeeps(groups, pending, x.key, ws[i].handle.offset, ws[i].xs);
    }
    PendingKeeps(groups, pending, x.key, |file|, cur);
  }

  // --- what was added --------------------------------------------------------------------------------------

  ghost function PairsOf(xs: seq<Item>): (ps: seq<Pair>)
    ensures |ps| == |xs| && forall i :: 0 <= i < |xs| ==> ps[i] == Pair(xs[i].key, xs[i].value)
  {
    seq(|xs|, i requires 0 <= i < |xs| => Pair(xs[i].key, xs[i].value))
  }

  /** All entries of a table, in order. */
  ghost function EntriesOf(bs: seq<seq<Item>>): seq<Pair> {
    if bs == [] then [] else EntriesOf(bs[..|bs| - 1]) + PairsOf(bs[|bs| - 1])
  }

  lemma EntriesSnoc(bs: seq<seq<Item>>, cur: seq<Item>)
    ensures EntriesOf(bs + [cur]) == EntriesOf(bs) + PairsOf(cur)
  {
    assert (bs + [cur])[..|bs|] == bs;
  }

  lemma PairsSnoc(bs: seq<seq<Item>>, cur: seq<Item>, x: Item)
    ensures EntriesOf(bs) + PairsOf(cur + [x]) == EntriesOf(bs) + PairsOf(cur) + [Pair(x.key, x.value)]
  {
    assert PairsOf(cur + [x]) == PairsOf(cur) + [Pair(x.key, x.value)];
  }

  lemma FlushFilters(file: Bytes, ws: seq<Written>, cur: seq<Item>, groups: seq<seq<Bytes>>, pending: seq<Bytes>,
                     file': Bytes, w: Written, groups': seq<seq<Bytes>>, pending': seq<Bytes>)
    requires FiltersOk(file, ws, cur, groups, pending) && w.xs == cur && w.handle.offset == |file| <= |file'|
    requires |groups'| >= |groups| && groups'[..|groups|] == groups
    requires |groups'| == if |file'| / FILTER_BASE > |groups| then |file'| / FILTER_BASE else |groups|
    requires if |groups'| == |groups| then pending' == pending else groups'[|groups|] == pending
    ensures FiltersOk(file', ws + [w], [], groups', pending')
  {
    hide InFilter, BlockInFilter;
    assert |file'| / FILTER_BASE >= |file| / FILTER_BASE;
    assert AllInFilter(groups, pending, ws + [w]);
    FilterMoves(groups, pending, groups', pending', ws + [w]);
    NothingInFilter(groups', pending', |file'|);
  }

  lemma NothingInFilter(groups: seq<seq<Bytes>>, pending: seq<Bytes>, offset: nat)
    ensures BlockInFilter(groups, pending, offset, [])
  {
  }

  /** One more key makes a filter little larger. */
  lemma OneKeyMore(n: nat, bits: nat)
    ensures Bloom.FilterBytes(n + 1, bits) + 1 <= (if n == 0 then 0 else Bloom.FilterBytes(n, bits) + 1) + 12 + bits
  {
    assert (n + 1) * bits == n * bits + bits;
  }

  class TableBuilder {
    const blockSize: nat
    const interval: nat
    var file: Bytes
    var dataBlock: BlockBuilder
    const indexBlock: BlockBuilder
    const filter: FilterBlockBuilder
    var lastKey: Bytes
    var pendingIndexEntry: bool
    var pendingHandle: BlockHandle
    ghost var ws: seq<Written>     // the finished data blocks

    ghost predicate Ok()
      reads this, dataBlock, indexBlock, filter
    {
      Core() && |dataBlock.buffer| < blockSize
    }

    /** Everything but the size of the block being filled. */
    ghost predicate Core()
      reads this, dataBlock, indexBlock, filter
    {
      && dataBlock != indexBlock && dataBlock.Ok() && indexBlock.Ok() && filter.Ok() && interval >= 1
      && Consistent(file, ws, dataBlock.xs, indexBlock.xs, lastKey, pendingIndexEntry, pendingHandle)
      && FiltersOk(file, ws, dataBlock.xs, filter.groups, filter.pending)
    }

    constructor (size: nat, restartInterval: nat, bitsPerKey: nat)
      requires size > 0 && restartInterval >= 1
      ensures Ok() && ws == [] && dataBlock.xs == [] && blockSize == size && file == [] && lastKey == []
      ensures indexBlock.buffer == [] && filter.Bound() == 0 && filter.bitsPerKey == bitsPerKey
      ensures fresh(dataBlock) && fresh(indexBlock) && fresh(filter)
    {
      blockSize, interval, file := size, restartInterval, [];
      dataBlock := new BlockBuilder(restartInterval);
      indexBlock := new BlockBuilder(1);
      filter := new FilterBlockBuilder(bitsPerKey);
      lastKey, pendingIndexEntry, pendingHandle, ws := [], false, BlockHandle(0, 0), [];
    }

    /** Writes the block being filled to the file; its index entry has to wait for the next key. */
    method Flush()
      requires Core() && |dataBlock.buffer| < WORD && |file| + 6 * WORD < FIXED64
      modifies this, filter
      ensures Core() && dataBlock.xs == [] && dataBlock.buffer == []
      ensures (dataBlock == old(dataBlock) || fresh(dataBlock))
      ensures Blocks(ws) == if old(dataBlock.xs) == [] then Blocks(old(ws)) else Blocks(old(ws)) + [old(dataBlock.xs)]
      ensures old(file) <= file && |file| <= |old(file)| + 6 * WORD && filter.Bound() <= old(filter.Bound())
      ensures lastKey == old(lastKey)
    {
      hide IsBlock, Consistent, FiltersOk, Built, FilterBlockBuilder.Ok;
      var empty := DataEmpty();
      if empty {
        return;
      }
      var block := dataBlock.Finish();
      ghost var w := Written(BlockHandle(|file|, |block|), dataBlock.xs, dataBlock.rs, dataBlock.restarts);
      NotPending(file, ws, dataBlock.xs, indexBlock.xs, lastKey, pendingIndexEntry, pendingHandle);
      FlushConsistent(file, ws, dataBlock.xs, indexBlock.xs, lastKey, pendingHandle, block, w);
      ghost var before := file;
      pendingHandle := BlockHandle(|file|, |block|);
      file := file + block + BlockTrailer(block);
      filter.StartBlock(|file|);
      FlushFilters(before, ws, w.xs, old(filter.groups), old(filter.pending), file, w, filter.groups, filter.pending);
      ws := ws + [w];
      dataBlock := new BlockBuilder(interval);
      pendingIndexEntry := true;
    }

    method DataEmpty() returns (b: bool)
      requires dataBlock.Ok()
      ensures b <==> dataBlock.xs == []
      ensures b ==> dataBlock.buffer == []
    {
      DataNonEmpty(dataBlock.xs);
      return dataBlock.buffer == [];
    }

    ghost function Entries(): seq<Pair>
      reads this, dataBlock
    {
      EntriesOf(Blocks(ws)) + PairsOf(dataBlock.xs)
    }

    /** Makes the index entry that was waiting for `key`. */
    method AddPendingEntry(key: Bytes)
      requires Core() && |key| >= 8 && pendingIndexEntry
      modifies this`pendingIndexEntry, indexBlock
      ensures indexBlock.Ok() && |indexBlock.xs| == |old(indexBlock.xs)| + 1 && old(indexBlock.xs) <= indexBlock.xs
      ensures !pendingIndexEntry
      ensures var e := indexBlock.xs[|old(indexBlock.xs)|];
              Separates(lastKey, e.key, Some(key)) && e.value == EncodeHandle(pendingHandle)
      ensures |indexBlock.buffer| <= |old(indexBlock.buffer)| + 35 + |lastKey|
    {
      hide Consistent, FiltersOk, Built, FilterBlockBuilder.Ok;
      HandleShort(file, ws, dataBlock.xs, indexBlock.xs, lastKey, pendingHandle);
      var sep := InternalSeparator(lastKey, key);
      indexBlock.Add(sep, EncodeHandle(pendingHandle));
      pendingIndexEntry := false;
    }

    /** Appends an entry; keys come in ascending order.  Lengths must fit 32 bits. */
    method Add(key: Bytes, value: Bytes)
      requires Ok() && |key| >= 8 && (ws != [] || dataBlock.xs != [] ==> Less(Internal, lastKey, key))
      requires blockSize + 15 + |key| + |value| < WORD && |file| + 6 * WORD < FIXED64
      modifies this, dataBlock, indexBlock, filter
      ensures Ok() && Entries() == old(Entries()) + [Pair(key, value)]
      ensures (dataBlock == old(dataBlock) || fresh(dataBlock)) && |file| <= |old(file)| + 6 * WORD && lastKey == key
      ensures |indexBlock.buffer| <= |old(indexBlock.buffer)| + 35 + |old(lastKey)|
      ensures filter.Bound() <= old(filter.Bound()) + 12 + filter.bitsPerKey
    {
      hide Consistent, FiltersOk, Built, FilterBlockBuilder.Ok, Less, Separates, IsBlock, EntriesOf;
      ghost var cur, index, handle, last, pending := dataBlock.xs, indexBlock.xs, pendingHandle, lastKey,
        pendingIndexEntry;
      if pendingIndexEntry {
        AddPendingEntry(key);
      }
      filter.AddKey(key);
      OneKeyMore(|old(filter.pending)|, filter.bitsPerKey);
      lastKey := key;
      dataBlock.Add(key, value);
      ghost var x := dataBlock.xs[|cur|];
      assert dataBlock.xs == cur + [x];
      AddConsistent(file, ws, cur, index, last, pending, handle, x, indexBlock.xs);
      AddFilters(file, ws, cur, old(filter.groups), old(filter.pending), x);
      PairsSnoc(Blocks(ws), cur, x);
      if dataBlock.CurrentSizeEstimate() >= blockSize {
        EntriesSnoc(Blocks(ws), dataBlock.xs);
        Flush();
        assert PairsOf(dataBlock.xs) == [];
      }
    }

    /** Ends the table: the last index entry, then the index and filter blocks. */
    method Finish()
        returns (index: Bytes, filterBytes: Bytes, ghost xs: seq<Item>, ghost rs: seq<nat>, ghost restarts: seq<nat>,
                 ghost filters: seq<Bytes>)
      requires Ok() && blockSize < WORD && |file| + 6 * WORD < FIXED64
      requires |indexBlock.buffer| + 50 + |lastKey| < WORD && filter.Bound() < WORD
      modifies this, indexBlock, filter
      ensures IsTable(file, ws, xs) && IsBlock(index, xs, rs, restarts) && EntriesOf(Blocks(ws)) == old(Entries())
      ensures Layout(filterBytes, filters) && forall i :: 0 <= i < |ws| ==> Filtered(filters, ws[i])
      ensures |file| <= |old(file)| + 6 * WORD && |index| <= 6 * WORD && |filterBytes| <= WORD + |file| + 9
    {
      hide Consistent, FiltersOk, Built, FilterBlockBuilder.Ok, Less, Separates, IsBlock, EntriesOf, IsFilterBlock;
      hide AllCover, Layout, Filtered, IsTable;
      EntriesSnoc(Blocks(ws), dataBlock.xs);
      assert dataBlock.xs == [] ==> PairsOf(dataBlock.xs) == [];
      Flush();
      ghost var groups, pending := filter.groups, filter.pending;
      filterBytes := filter.Finish();
      filters := filter.filters;
      BlockLayout(filterBytes, filters);
      FilterSize(file, ws, groups, pending, filterBytes, filters, filter.groups);
      AllNonEmpty(file, ws, indexBlock.xs, lastKey, pendingIndexEntry, pendingHandle);
      AllFiltered(file, ws, groups, pending, filters, filter.groups);
      ghost var made := indexBlock.xs;
      if pendingIndexEntry {
        HandleShort(file, ws, [], indexBlock.xs, lastKey, pendingHandle);
        var sep := InternalSuccessor(lastKey);
        Succeeds(lastKey, sep);
        indexBlock.Add(sep, EncodeHandle(pendingHandle));
        assert indexBlock.xs == made + [indexBlock.xs[|made|]];
      }
      TableDone(file, ws, made, lastKey, pendingIndexEntry, pendingHandle, indexBlock.xs);
      xs, rs, restarts := indexBlock.xs, indexBlock.rs, indexBlock.restarts;
      index := indexBlock.Finish();
    }
  }

  lemma Succeeds(key: Bytes, sep: Bytes)
    requires sep == key || BytesLess(UserPart(key), UserPart(sep))
    ensures Separates(key, sep, None)
  {
  }

  lemma TableDone(file: Bytes, ws: seq<Written>, made: seq<Item>, lastKey: Bytes, pending: bool, handle: BlockHandle,
                  index: seq<Item>)
    requires Consistent(file, ws, [], made, lastKey, pending, handle)
    requires if pending then |index| == |made| + 1 && made <= index else index == made
    requires pending ==> index[|made|].value == EncodeHandle(handle) && Separates(lastKey, index[|made|].key, None)
    ensures IsTable(file, ws, index)
  {
    hide Less, Separates, Stored;
    if pending {
      var e := index[|made|];
      assert index == made + [e];
      LastBlock(Blocks(ws), lastKey);
      IndexComplete(Blocks(ws), made, e);
      NameNext(made, ws, e);
    }
  }

  lemma AllNonEmpty(file: Bytes, ws: seq<Written>, index: seq<Item>, lastKey: Bytes, pending: bool, handle: BlockHandle)
    requires Consistent(file, ws, [], index, lastKey, pending, handle)
    ensures forall i :: 0 <= i < |ws| ==> ws[i].xs != []
  {
    forall i | 0 <= i < |ws| ensures ws[i].xs != [] {
      assert Blocks(ws)[i] != [];
    }
  }

  lemma AllFiltered(file: Bytes, ws: seq<Written>, groups: seq<seq<Bytes>>, pending: seq<Bytes>, filters: seq<Bytes>,
                    groups': seq<seq<Bytes>>)
    requires FiltersOk(file, ws, [], groups, pending) && AllCover(filters, groups')
    requires forall i :: 0 <= i < |ws| ==> ws[i].xs != []
    requires groups' == if pending == [] then groups else groups + [pending]
    ensures forall i :: 0 <= i < |ws| ==> Filtered(filters, ws[i])
  {
    forall i | 0 <= i < |ws| ensures Filtered(filters, ws[i]) {
      assert BlockInFilter(groups, pending, ws[i].handle.offset, ws[i].xs);
      if pending != [] {
        StartKeeps(groups, pending, groups', [], ws[i].handle.offset, ws[i].xs);
      }
      GroupsHold(filters, groups', ws[i]);
    }
  }

  lemma FilterSize(file: Bytes, ws: seq<Written>, groups: seq<seq<Bytes>>, pending: seq<Bytes>, contents: Bytes,
                   filters: seq<Bytes>,
                   groups': seq<seq<Bytes>>)
    requires FiltersOk(file, ws, [], groups, pending) && IsFilterBlock(contents, filters) && Layout(contents, filters)
    requires AllCover(filters, groups') && groups' == if pending == [] then groups else groups + [pending]
    ensures |contents| <= WORD + |file| + 9
  {
    hide Reads, EncodeAll, Concat, StartsOf, AllInFilter, BlockInFilter;
  }

  lemma NotPending(file: Bytes, ws: seq<Written>, cur: seq<Item>, index: seq<Item>, lastKey: Bytes, pending: bool,
                   handle: BlockHandle)
    requires Consistent(file, ws, cur, index, lastKey, pending, handle) && cur != []
    ensures !pending
  {
  }

  lemma DataNonEmpty(xs: seq<Item>)
    requires AllOk(xs)
    ensures Data(xs) == [] <==> xs == []
  {
  }

  lemma FilterMoves(groups: seq<seq<Bytes>>, pending: seq<Bytes>, groups': seq<seq<Bytes>>, pending': seq<Bytes>,
                    ws: seq<Written>)
    requires AllInFilter(groups, pending, ws) && |groups'| >= |groups| && groups'[..|groups|] == groups
    requires if |groups'| == |groups| then pending' == pending else groups'[|groups|] == pending
    ensures AllInFilter(groups', pending', ws)
  {
    forall i | 0 <= i < |ws| ensures BlockInFilter(groups', pending', ws[i].handle.offset, ws[i].xs) {
      StartKeeps(groups, pending, groups', pending', ws[i].handle.offset, ws[i].xs);
    }
  }

  /** The index entries made so far name the first blocks. */
  ghost predicate NamesFirst(index: seq<Item>, ws: seq<Written>) {
    |index| <= |ws| && forall i :: 0 <= i < |index| ==> index[i].value == EncodeHandle(ws[i].handle)
  }
}
