/**
 Blocks of a table (table/block_builder.cc, table/block.cc): key-value pairs with
 prefix-compressed keys, restart points, and an iterator in both directions.
 */
module Block {
  import opened Keys
  import opened Spec
  import opened Coding

  // --- comparators ---------------------------------------------------------------------------

  /** The bytewise order, and the order of internal keys: user key ascending, then trailer descending. */
  datatype Comparator = Bytewise | Internal

  function UserPart(k: Bytes): Bytes {
    if |k| >= 8 then k[..|k| - 8] else []
  }

  function Trailer(k: Bytes): nat {
    if |k| >= 8 then DecodeFixed64(k[|k| - 8..]) else 0
  }

  predicate Less(c: Comparator, a: Bytes, b: Bytes) {
    match c
    case Bytewise => BytesLess(a, b)
    case Internal => BytesLess(UserPart(a), UserPart(b)) || (UserPart(a) == UserPart(b) && Trailer(a) > Trailer(b))
  }

  lemma {:induction false} BytesTrans(a: Bytes, b: Bytes, c: Bytes)
    ensures BytesLess(a, b) && BytesLess(b, c) ==> BytesLess(a, c)
    decreases |a|
  {
    if a != [] && b != [] && c != [] {
      BytesTrans(a[1..], b[1..], c[1..]);
    }
  }

  lemma {:induction false} BytesTotal(a: Bytes, b: Bytes)
    ensures BytesLess(a, b) || BytesLess(b, a) || a == b
    ensures !(BytesLess(a, b) && BytesLess(b, a)) && !BytesLess(a, a)
    decreases |a|
  {
    if a != [] && b != [] {
      BytesTotal(a[1..], b[1..]);
      assert a == [a[0]] + a[1..] && b == [b[0]] + b[1..];
    }
    if a != [] {
      BytesTotal(a[1..], a[1..]);
    }
  }

  /** Smaller than something not after `c` is smaller than `c`, and so on: what a search needs of an order. */
  lemma LessTrans(o: Comparator, a: Bytes, b: Bytes, c: Bytes)
    ensures Less(o, a, b) && Less(o, b, c) ==> Less(o, a, c)
    ensures Less(o, a, b) && !Less(o, c, b) ==> Less(o, a, c)
    ensures !Less(o, b, a) && Less(o, b, c) ==> Less(o, a, c)
  {
    BytesTrans(a, b, c);
    BytesTrans(UserPart(a), UserPart(b), UserPart(c));
    BytesTotal(b, c);
    BytesTotal(a, b);
    BytesTotal(UserPart(b), UserPart(c));
    BytesTotal(UserPart(a), UserPart(b));
  }

  // --- layout ------------------------------------------------------------------------------------

  /** One entry: `shared` bytes of its key are taken from the key before it. */
  datatype Item = Item(key: Bytes, value: Bytes, shared: nat)

  predicate ItemOk(x: Item) {
    x.shared <= |x.key| < WORD && |x.value| < WORD
  }

  /** The three lengths, then the rest of the key, then the value. */
  function Encode(x: Item): (b: Bytes)
    requires ItemOk(x)
    ensures |b| >= 3
  {
    EncodeVarint(x.shared) + EncodeVarint(|x.key| - x.shared) + EncodeVarint(|x.value|) + x.key[x.shared..] + x.value
  }

  ghost predicate AllOk(xs: seq<Item>) {
    forall i :: 0 <= i < |xs| ==> ItemOk(xs[i])
  }

  ghost function Data(xs: seq<Item>): Bytes
    requires AllOk(xs)
  {
    if xs == [] then [] else Data(xs[..|xs| - 1]) + Encode(xs[|xs| - 1])
  }

  /** Where entry `i` starts. */
  ghost function Offset(xs: seq<Item>, i: nat): nat
    requires AllOk(xs) && i <= |xs|
  {
    |Data(xs[..i])|
  }

  function KeyBefore(xs: seq<Item>, i: nat): Bytes
    requires i <= |xs|
  {
    if i == 0 then [] else xs[i - 1].key
  }

  /** Sharing refers to bytes the two keys have in common. */
  ghost predicate SharingOk(xs: seq<Item>) {
    AllOk(xs) && forall i {:trigger KeyBefore(xs, i)} :: 0 <= i < |xs| ==> Shares(KeyBefore(xs, i), xs[i])
  }

  predicate Shares(before: Bytes, x: Item) {
    x.shared <= |before| && x.shared <= |x.key| && before[..x.shared] == x.key[..x.shared]
  }

  /** `rs` are the entries that restart points name: the first, and others that share nothing. */
  ghost predicate RestartsAt(xs: seq<Item>, rs: seq<nat>) {
    && rs != [] && rs[0] == 0
    && (forall i, j :: 0 <= i < j < |rs| ==> rs[i] < rs[j])
    && (forall j :: 0 <= j < |rs| ==> rs[j] <= |xs| && (rs[j] < |xs| ==>
                                                          xs[rs[j]].shared == 0) && (rs[j] == |xs| ==> j == 0))
  }

  ghost predicate OffsetsOf(xs: seq<Item>, rs: seq<nat>, restarts: seq<nat>)
    requires AllOk(xs) && RestartsAt(xs, rs)
  {
    |restarts| == |rs| && forall j :: 0 <= j < |rs| ==> restarts[j] == Offset(xs, rs[j])
  }

  lemma DataSnoc(xs: seq<Item>, x: Item)
    requires AllOk(xs) && ItemOk(x)
    ensures AllOk(xs + [x]) && Data(xs + [x]) == Data(xs) + Encode(x)
  {
    assert (xs + [x])[..|xs|] == xs;
  }

  lemma {:induction false} DataPrefix(xs: seq<Item>, i: nat)
    requires AllOk(xs) && i <= |xs|
    ensures AllOk(xs[..i]) && Data(xs[..i]) <= Data(xs)
    decreases |xs|
  {
    if i < |xs| {
      DataPrefix(xs[..|xs| - 1], i);
      assert xs[..|xs| - 1][..i] == xs[..i];
    } else {
      assert xs[..i] == xs;
    }
  }

  /** Entry `i` in the data, with everything before it. */
  lemma EntryAt(xs: seq<Item>, i: nat)
    requires AllOk(xs) && i < |xs|
    ensures Offset(xs, i + 1) == Offset(xs, i) + |Encode(xs[i])| <= |Data(xs)|
    ensures Encode(xs[i]) <= Data(xs)[Offset(xs, i)..]
  {
    hide Data, Encode, AllOk;
    OkTake(xs, i);
    DataSnoc(xs[..i], xs[i]);
    assert xs[..i + 1] == xs[..i] + [xs[i]];
    DataPrefix(xs, i + 1);
    DataPrefix(xs, i);
  }

  lemma OkTake(xs: seq<Item>, i: nat)
    requires AllOk(xs) && i < |xs|
    ensures AllOk(xs[..i]) && ItemOk(xs[i])
  {
  }

  lemma {:induction false} OffsetsRise(xs: seq<Item>, i: nat, j: nat)
    requires AllOk(xs) && i <= j <= |xs|
    ensures Offset(xs, i) + 3 * (j - i) <= Offset(xs, j)
    decreases j - i
  {
    if i < j {
      OffsetsRise(xs, i, j - 1);
      EntryAt(xs, j - 1);
    }
  }

  lemma OffsetEnd(xs: seq<Item>)
    requires AllOk(xs)
    ensures Offset(xs, |xs|) == |Data(xs)|
  {
    assert xs[..|xs|] == xs;
  }

  lemma OffsetKept(xs: seq<Item>, x: Item, i: nat)
    requires AllOk(xs) && ItemOk(x) && i <= |xs|
    ensures AllOk(xs + [x]) && Offset(xs + [x], i) == Offset(xs, i)
  {
    assert (xs + [x])[..i] == xs[..i];
  }

  // --- the builder ------------------------------------------------------------------------------------

  function EncodeAll(restarts: seq<nat>): (b: Bytes)
    requires forall j :: 0 <= j < |restarts| ==> restarts[j] < WORD
    ensures |b| == 4 * |restarts|
  {
    if restarts == [] then [] else EncodeAll(restarts[..|restarts| - 1]) + EncodeFixed32(restarts[|restarts| - 1])
  }

  /** `block` is a finished block holding `xs`. */
  ghost predicate IsBlock(block: Bytes, xs: seq<Item>, rs: seq<nat>, restarts: seq<nat>) {
    && SharingOk(xs) && RestartsAt(xs, rs) && OffsetsOf(xs, rs, restarts) && |rs| < WORD
    && (forall j :: 0 <= j < |restarts| ==> restarts[j] < WORD)
    && block == Data(xs) + EncodeAll(restarts) + EncodeFixed32(|rs|)
  }

  /** What the builder's fields say about the entries added. */
  ghost predicate Built(interval: nat, buffer: Bytes, restarts: seq<nat>, counter: nat, lastKey: Bytes, xs: seq<Item>,
                        rs: seq<nat>) {
    && interval >= 1 && SharingOk(xs) && RestartsAt(xs, rs) && buffer == Data(xs) && OffsetsOf(xs, rs, restarts)
    && lastKey == KeyBefore(xs, |xs|) && counter == |xs| - rs[|rs| - 1] && counter <= interval
  }

  lemma AppendSharing(xs: seq<Item>, x: Item)
    requires SharingOk(xs) && ItemOk(x) && Shares(KeyBefore(xs, |xs|), x)
    ensures SharingOk(xs + [x])
  {
    hide Shares, ItemOk;
    var xs' := xs + [x];
    forall i | 0 <= i < |xs'| ensures Shares(KeyBefore(xs', i), xs'[i]) {
      SameBefore(xs, x, i);
      assert xs'[i] == if i < |xs| then xs[i] else x;
    }
  }

  lemma SameBefore(xs: seq<Item>, x: Item, i: nat)
    requires i <= |xs|
    ensures KeyBefore(xs + [x], i) == KeyBefore(xs, i)
  {
  }

  lemma AppendOffsets(xs: seq<Item>, x: Item, rs: seq<nat>, restarts: seq<nat>, restart: bool)
    requires AllOk(xs) && ItemOk(x) && RestartsAt(xs, rs) && OffsetsOf(xs, rs, restarts)
    requires if restart then xs != [] && x.shared == 0 && rs[|rs| - 1] < |xs| else xs == [] ==> x.shared == 0
    ensures AllOk(xs + [x])
    ensures var rs' := if restart then rs + [|xs|] else rs;
            var restarts' := if restart then restarts + [|Data(xs)|] else restarts;
            RestartsAt(xs + [x], rs') && OffsetsOf(xs + [x], rs', restarts')
  {
    hide Data;
    OffsetEnd(xs);
    forall i | 0 <= i <= |xs| ensures Offset(xs + [x], i) == Offset(xs, i) {
      OffsetKept(xs, x, i);
    }
  }

  /** One more entry, at a restart point exactly when the last one has `interval` entries already. */
  lemma AppendItem(interval: nat, buffer: Bytes, restarts: seq<nat>, counter: nat, lastKey: Bytes, xs: seq<Item>,
                   rs: seq<nat>, x: Item)
    requires Built(interval, buffer, restarts, counter, lastKey, xs, rs) && ItemOk(x)
    requires Shares(lastKey, x) && (counter == interval ==> x.shared == 0)
    ensures var full := counter == interval;
            Built(interval, buffer + Encode(x), if full then restarts + [|buffer|] else restarts,
                  if full then 1 else counter + 1,
                  x.key, xs + [x], if full then rs + [|xs|] else rs)
  {
    hide Data, Offset, Encode, Shares, AllOk, RestartsAt, OffsetsOf;
    FirstSharesNothing(interval, buffer, restarts, counter, lastKey, xs, rs, x);
    AppendSharing(xs, x);
    AppendOffsets(xs, x, rs, restarts, counter == interval);
    DataSnoc(xs, x);
  }

  lemma FirstSharesNothing(interval: nat, buffer: Bytes, restarts: seq<nat>, counter: nat, lastKey: Bytes,
                           xs: seq<Item>, rs: seq<nat>, x: Item)
    requires Built(interval, buffer, restarts, counter, lastKey, xs, rs) && Shares(lastKey, x)
    ensures xs == [] ==> x.shared == 0
    ensures counter == interval ==> xs != [] && rs != [] && rs[|rs| - 1] < |xs|
  {
  }

  lemma Resized(before: Bytes, key: Bytes, shared: nat)
    requires shared <= |before| && shared <= |key| && before[..shared] == key[..shared]
    ensures before[..shared] + key[shared..] == key
  {
  }

  /** How many bytes two keys have in common at the front. */
  method CommonPrefix(a: Bytes, b: Bytes) returns (shared: nat)
    ensures shared <= |a| && shared <= |b| && a[..shared] == b[..shared]
    ensures shared < |a| && shared < |b| ==> a[shared] != b[shared]
  {
    shared := 0;
    var minLength := if |a| < |b| then |a| else |b|;
    while shared < minLength && a[shared] == b[shared]
      invariant shared <= minLength && a[..shared] == b[..shared]
    {
      shared := shared + 1;
    }
  }

  class BlockBuilder {
    const interval: nat
    var buffer: Bytes
    var restarts: seq<nat>
    var counter: nat
    var lastKey: Bytes
    ghost var xs: seq<Item>
    ghost var rs: seq<nat>

    ghost predicate Ok()
      reads this
    {
      Built(interval, buffer, restarts, counter, lastKey, xs, rs)
    }

    constructor (blockRestartInterval: nat)
      requires blockRestartInterval >= 1
      ensures Ok() && interval == blockRestartInterval && xs == [] && buffer == []
    {
      interval, buffer, restarts, counter, lastKey := blockRestartInterval, [], [0], 0, [];
      xs, rs := [], [0];
    }

    /** Appends a pair.  Lengths must fit 32 bits. */
    method Add(key: Bytes, value: Bytes)
      requires Ok() && |key| < WORD && |value| < WORD
      modifies this
      ensures Ok() && |xs| == |old(xs)| + 1 && old(xs) <= xs
      ensures xs[|old(xs)|].key == key && xs[|old(xs)|].value == value
      ensures |buffer| <= |old(buffer)| + 15 + |key| + |value| && |restarts| <= |old(restarts)| + 1
    {
      hide Built;
      ghost var before := xs;
      var shared := SharedWith(key);
      var x := Item(key, value, shared);
      AppendItem(interval, buffer, restarts, counter, lastKey, xs, rs, x);
      EncodeBound(x);
      Store(x);
      assert before + [x] == xs;
    }

    /** How much of the last key to reuse: nothing at a restart point. */
    method SharedWith(key: Bytes) returns (shared: nat)
      requires Ok()
      ensures shared <= |key| && shared <= |lastKey| && lastKey[..shared] == key[..shared] && counter <= interval
      ensures counter == interval ==> shared == 0
    {
      shared := 0;
      if counter < interval {
        shared := CommonPrefix(lastKey, key);
      }
    }

    function CurrentSizeEstimate(): nat
      reads this
    {
      |buffer| + 4 * |restarts| + 4
    }

    /** Writes the entry and updates the state. */
    method Store(x: Item)
      requires ItemOk(x) && Shares(lastKey, x) && counter <= interval
      modifies this
      ensures xs == old(xs) + [x] && rs == (if old(counter) == interval then old(rs) + [|old(xs)|] else old(rs))
      ensures restarts == if old(counter) == interval then old(restarts) + [|old(buffer)|] else old(restarts)
      ensures counter == (if old(counter) == interval then 1 else old(counter) + 1)
      ensures buffer == old(buffer) + Encode(x) && lastKey == x.key
    {
      hide Encode;
      if counter == interval {
        restarts := restarts + [|buffer|];
        counter := 0;
        rs := rs + [|xs|];
      }
      buffer := buffer + Encode(x);
      lastKey := lastKey[..x.shared] + x.key[x.shared..];
      counter := counter + 1;
      xs := xs + [x];
    }

    /** Appends the restart offsets and their number. */
    method Finish() returns (block: Bytes)
      requires Ok() && |buffer| < WORD
      ensures IsBlock(block, xs, rs, restarts) && |block| == |buffer| + 4 * |restarts| + 4 && |restarts| < WORD
    {
      RestartsFit(xs, rs, restarts);
      var trailer := EncodeRestarts(restarts);
      block := buffer + trailer + EncodeFixed32(|restarts|);
    }
  }

  method EncodeRestarts(restarts: seq<nat>) returns (b: Bytes)
    requires forall j :: 0 <= j < |restarts| ==> restarts[j] < WORD
    ensures b == EncodeAll(restarts)
  {
    b := [];
    var i := 0;
    while i < |restarts|
      invariant 0 <= i <= |restarts| && b == EncodeAll(restarts[..i])
    {
      assert restarts[..i + 1][..i] == restarts[..i];
      b := b + EncodeFixed32(restarts[i]);
      i := i + 1;
    }
    assert restarts[..i] == restarts;
  }

  lemma {:induction false} RestartAfter(xs: seq<Item>, rs: seq<nat>, j: nat)
    requires RestartsAt(xs, rs) && j < |rs|
    ensures rs[j] >= j
  {
    if j > 0 {
      RestartAfter(xs, rs, j - 1);
    }
  }

  /** Offsets and their number fit 32 bits when the data does. */
  lemma RestartsFit(xs: seq<Item>, rs: seq<nat>, restarts: seq<nat>)
    requires AllOk(xs) && RestartsAt(xs, rs) && OffsetsOf(xs, rs, restarts) && |Data(xs)| < WORD
    ensures |rs| < WORD && forall j :: 0 <= j < |restarts| ==> restarts[j] < WORD
  {
    RestartAfter(xs, rs, |rs| - 1);
    OffsetsRise(xs, 0, |xs|);
    OffsetEnd(xs);
    forall j | 0 <= j < |restarts| ensures restarts[j] < WORD {
      OffsetsRise(xs, rs[j], |xs|);
    }
  }

  // --- reading an entry ---------------------------------------------------------------------------------

  datatype Header = Header(shared: nat, nonShared: nat, valueLength: nat, used: nat)

  function Varints(b: Bytes): (r: Option<Header>)
    ensures r.Some? ==> r.value.used <= |b|
  {
    match GetVarint32(b)
    case None => None
    case Some(x) =>
      match GetVarint32(b[x.used..])
      case None => None
      case Some(y) =>
        match GetVarint32(b[x.used + y.used..])
        case None => None
        case Some(z) => Some(Header(x.value, y.value, z.value, x.used + y.used + z.used))
  }

  /** The lengths at the front of an entry, if what they announce is there. */
  function DecodeEntry(b: Bytes): (r: Option<Header>)
    ensures r.Some? ==> r.value.used + r.value.nonShared + r.value.valueLength <= |b|
  {
    if |b| < 3 then None
    else
      var h := if b[0] < 128 && b[1] < 128 && b[2] < 128 then Some(Header(b[0], b[1], b[2], 3)) else Varints(b);
      if h.Some? && h.value.used + h.value.nonShared + h.value.valueLength <= |b| then h else None
  }

  lemma VarintsOf(a: nat, b: nat, c: nat, rest: Bytes)
    requires a < WORD && b < WORD && c < WORD
    ensures Varints(EncodeVarint(a) + EncodeVarint(b) + EncodeVarint(c) + rest)
            == Some(Header(a, b, c, |EncodeVarint(a)| + |EncodeVarint(b)| + |EncodeVarint(c)|))
  {
    hide EncodeVarint, GetVarint32, Varints;
    var ea, eb, ec := EncodeVarint(a), EncodeVarint(b), EncodeVarint(c);
    var all := ea + eb + ec + rest;
    Tails(ea, eb, ec, rest);
    Varint32RoundTrip(a, eb + (ec + rest));
    Varint32RoundTrip(b, ec + rest);
    Varint32RoundTrip(c, rest);
    ThreeVarints(all, Parsed(a, |ea|), Parsed(b, |eb|), Parsed(c, |ec|));
  }

  lemma ThreeVarints(all: Bytes, x: Parsed<nat>, y: Parsed<nat>, z: Parsed<nat>)
    requires GetVarint32(all) == Some(x) && x.used <= |all| && GetVarint32(all[x.used..]) == Some(y)
    requires x.used + y.used <= |all| && GetVarint32(all[x.used + y.used..]) == Some(z)
    ensures Varints(all) == Some(Header(x.value, y.value, z.value, x.used + y.used + z.used))
  {
    hide GetVarint32;
  }

  lemma Tails(a: Bytes, b: Bytes, c: Bytes, rest: Bytes)
    ensures var all := a + b + c + rest;
            all == a + (b + (c + rest)) && all[|a|..] == b + (c + rest) && all[|a| + |b|..] == c + rest
  {
  }

  /** The one-byte shortcut agrees with the general case. */
  lemma Shortcut(b: Bytes)
    requires |b| >= 3 && b[0] < 128 && b[1] < 128 && b[2] < 128
    ensures Varints(b) == Some(Header(b[0], b[1], b[2], 3))
  {
  }

  lemma DecodeEncoded(x: Item, b: Bytes)
    requires ItemOk(x) && Encode(x) <= b
    ensures var r := DecodeEntry(b);
            && r.Some? && r.value.shared == x.shared && r.value.nonShared == |x.key| - x.shared
            && r.value.valueLength == |x.value|
            && r.value.used + r.value.nonShared + r.value.valueLength == |Encode(x)|
            && b[r.value.used..r.value.used + r.value.nonShared] == x.key[x.shared..]
            && b[r.value.used + r.value.nonShared..|Encode(x)|] == x.value
  {
    hide EncodeVarint, GetVarint32, Varints;
    var e, k, v := EncodeVarint(x.shared) + EncodeVarint(|x.key| - x.shared) + EncodeVarint(|x.value|),
      x.key[x.shared..], x.value;
    Parts(e, k, v, b);
    VarintsOf(x.shared, |k|, |v|, b[|e|..]);
    if b[0] < 128 && b[1] < 128 && b[2] < 128 {
      Shortcut(b);
    }
  }

  lemma Parts(e: Bytes, k: Bytes, v: Bytes, b: Bytes)
    requires e + k + v <= b
    ensures b == e + b[|e|..] && b[|e|..|e| + |k|] == k && b[|e| + |k|..|e| + |k| + |v|] == v
  {
    var whole := e + k + v;
    assert whole[|e|..|e| + |k|] == k && whole[|e| + |k|..] == v;
  }

  // --- the restart array ---------------------------------------------------------------------------------

  lemma {:induction false} RestartAt(restarts: seq<nat>, j: nat, rest: Bytes)
    requires (forall i :: 0 <= i < |restarts| ==> restarts[i] < WORD) && j < |restarts|
    ensures 4 * j + 4 <= |EncodeAll(restarts) + rest|
    ensures DecodeFixed32((EncodeAll(restarts) + rest)[4 * j..4 * j + 4]) == restarts[j]
    decreases |restarts|
  {
    var front, last := restarts[..|restarts| - 1], EncodeFixed32(restarts[|restarts| - 1]);
    if j < |front| {
      RestartAt(front, j, last + rest);
      assert EncodeAll(restarts) + rest == EncodeAll(front) + (last + rest);
    } else {
      assert (EncodeAll(restarts) + rest)[4 * j..4 * j + 4] == last;
    }
  }

  /** Block::NumRestarts and the offset of the restart array, as Block's constructor finds them. */
  function NumRestarts(block: Bytes): nat
    requires |block| >= 4
  {
    DecodeFixed32(block[|block| - 4..])
  }

  lemma BlockCount(block: Bytes, xs: seq<Item>, rs: seq<nat>, restarts: seq<nat>)
    requires IsBlock(block, xs, rs, restarts)
    ensures |block| == |Data(xs)| + 4 * |rs| + 4 && NumRestarts(block) == |rs| && Data(xs) <= block
  {
    var d, a, n := Data(xs), EncodeAll(restarts), EncodeFixed32(|rs|);
    hide Data, EncodeAll, DecodeFixed32, SharingOk, RestartsAt, Offset;
    LastFour(d + a, n);
  }

  lemma RawRestart(d: Bytes, restarts: seq<nat>, n: Bytes, j: nat)
    requires (forall i :: 0 <= i < |restarts| ==> restarts[i] < WORD) && j < |restarts|
    ensures |d| + 4 * j + 4 <= |d + EncodeAll(restarts) + n|
    ensures DecodeFixed32((d + EncodeAll(restarts) + n)[|d| + 4 * j..|d| + 4 * j + 4]) == restarts[j]
  {
    hide EncodeAll, DecodeFixed32;
    RestartAt(restarts, j, n);
    SliceIn(d, EncodeAll(restarts) + n, 4 * j, 4 * j + 4);
    assert d + EncodeAll(restarts) + n == d + (EncodeAll(restarts) + n);
  }

  lemma BlockRestart(block: Bytes, xs: seq<Item>, rs: seq<nat>, restarts: seq<nat>, j: nat)
    requires IsBlock(block, xs, rs, restarts) && AllOk(xs) && j < |restarts|
    ensures |Data(xs)| + 4 * j + 4 <= |block|
    ensures DecodeFixed32(block[|Data(xs)| + 4 * j..|Data(xs)| + 4 * j + 4]) == restarts[j]
  {
    hide Data, EncodeAll, DecodeFixed32, SharingOk, EncodeFixed32, Offset, OffsetsOf, RestartsAt;
    RawRestart(Data(xs), restarts, EncodeFixed32(|rs|), j);
  }

  lemma RestartOffset(block: Bytes, xs: seq<Item>, rs: seq<nat>, restarts: seq<nat>, j: nat)
    requires IsBlock(block, xs, rs, restarts) && j < |rs|
    ensures j < |restarts| && rs[j] <= |xs| && restarts[j] == Offset(xs, rs[j])
  {
    hide Data, EncodeAll, SharingOk, Offset;
  }

  lemma LastFour(a: Bytes, n: Bytes)
    ensures (a + n)[|a + n| - |n|..] == n
  {
  }

  lemma SliceIn(a: Bytes, b: Bytes, i: nat, j: nat)
    requires i <= j <= |b|
    ensures (a + b)[|a| + i..|a| + j] == b[i..j]
  {
  }

  // --- the iterator ------------------------------------------------------------------------------------------

  /** Where an iterator stands when it is at entry `n`. */
  ghost predicate StandsAt(block: Bytes, xs: seq<Item>, rs: seq<nat>, n: nat, current: nat, restartIndex: nat,
                           key: Bytes, valueStart: nat, valueLength: nat)
    requires AllOk(xs)
  {
    && n < |xs| && current == Offset(xs, n) && key == xs[n].key && valueLength == |xs[n].value|
    && valueStart + valueLength == Offset(xs, n + 1) && valueStart + valueLength <= |block|
    && block[valueStart..valueStart + valueLength] == xs[n].value
    && restartIndex < |rs| && rs[restartIndex] <= n
  }

  /** What ParseNextKey finds at the start of entry `n`. */
  ghost predicate Finds(block: Bytes, xs: seq<Item>, n: nat, p: nat, end: nat, h: Header)
    requires n < |xs|
  {
    && h.shared == xs[n].shared <= |xs[n].key| && h.nonShared == |xs[n].key| - h.shared
    && h.valueLength == |xs[n].value|
    && p + h.used + h.nonShared + h.valueLength == end <= |block|
    && block[p + h.used..p + h.used + h.nonShared] == xs[n].key[h.shared..]
    && block[p + h.used + h.nonShared..end] == xs[n].value
  }

  lemma ParseAt(block: Bytes, xs: seq<Item>, n: nat) returns (h: Header)
    requires AllOk(xs) && n < |xs| && Data(xs) <= block
    ensures Offset(xs, n) < Offset(xs, n + 1) <= |Data(xs)| <= |block|
    ensures DecodeEntry(block[Offset(xs, n)..|Data(xs)|]) == Some(h)
    ensures Finds(block, xs, n, Offset(xs, n), Offset(xs, n + 1), h)
  {
    EntryAt(xs, n);
    hide Data, Offset, Encode, DecodeEntry;
    h := ParseBytes(block, Data(xs), Offset(xs, n), xs, n);
  }

  lemma ParseBytes(block: Bytes, d: Bytes, p: nat, xs: seq<Item>, n: nat) returns (h: Header)
    requires n < |xs| && ItemOk(xs[n]) && d <= block && p <= |d| && Encode(xs[n]) <= d[p..]
    ensures DecodeEntry(block[p..|d|]) == Some(h)
    ensures Finds(block, xs, n, p, p + |Encode(xs[n])|, h)
  {
    hide Encode, DecodeEntry;
    DecodeEncoded(xs[n], d[p..]);
    h := DecodeEntry(d[p..]).value;
    assert block[p..|d|] == d[p..];
    SlicesAgree(d, block, p, h.used, h.used + h.nonShared);
    SlicesAgree(d, block, p, h.used + h.nonShared, |Encode(xs[n])|);
  }

  lemma SlicesAgree(d: Bytes, block: Bytes, p: nat, i: nat, j: nat)
    requires d <= block && p <= |d| && i <= j <= |d| - p
    ensures block[p + i..p + j] == d[p..][i..j]
  {
  }

  /** Entry `n` can be read with `key` in hand: it is the key before, or the entry starts afresh. */
  lemma KeyInHand(xs: seq<Item>, n: nat)
    requires SharingOk(xs) && 0 < n < |xs|
    ensures Shares(xs[n - 1].key, xs[n])
  {
    assert KeyBefore(xs, n) == xs[n - 1].key;
  }

  lemma Afresh(x: Item)
    requires x.shared == 0
    ensures Shares([], x)
  {
  }

  class Iter {
    const order: Comparator
    const block: Bytes
    const restartsOffset: nat   // restarts_
    const numRestarts: nat
    var current: nat            // >= restarts_ when not valid
    var restartIndex: nat
    var key: Bytes
    var valueStart: nat         // value_ as a range of the block
    var valueLength: nat
    ghost const xs: seq<Item>
    ghost const rs: seq<nat>
    ghost const restarts: seq<nat>
    ghost var index: int        // position among the entries: -1 before them, their number after

    constructor (comparator: Comparator, contents: Bytes, ghost items: seq<Item>, ghost marks: seq<nat>,
                 ghost offsets: seq<nat>)
      requires IsBlock(contents, items, marks, offsets)
      ensures Ok() && index == -1 && xs == items && order == comparator
    {
      BlockCount(contents, items, marks, offsets);
      hide IsBlock, Data, NumRestarts;
      order, block, xs, rs, restarts, index := comparator, contents, items, marks, offsets, -1;
      numRestarts := NumRestarts(contents);
      restartsOffset := |contents| - (1 + NumRestarts(contents)) * 4;
      current := |contents| - (1 + NumRestarts(contents)) * 4;
      restartIndex, key, valueStart, valueLength := NumRestarts(contents), [], 0, 0;
    }

    ghost predicate Sound()
      reads this
    {
      && IsBlock(block, xs, rs, restarts) && AllOk(xs) && Data(xs) <= block && restartsOffset == |Data(xs)|
      && numRestarts == |rs|
    }

    ghost predicate Ok()
      reads this
    {
      && Sound() && -1 <= index <= |xs| && (Valid() <==> 0 <= index < |xs|)
      && (if Valid() then StandsAt(block, xs, rs, index, current, restartIndex, key, valueStart, valueLength)
          else current == restartsOffset)
    }

    predicate Valid()
      reads this
    {
      current < restartsOffset
    }

    /** key() and value() are those of the entry the iterator stands at. */
    function Value(): (v: Bytes)
      reads this
      requires Ok() && Valid()
      ensures v == xs[index].value && key == xs[index].key
    {
      block[valueStart..valueStart + valueLength]
    }

    function NextEntryOffset(): nat
      reads this
    {
      valueStart + valueLength
    }

    method GetRestartPoint(j: nat) returns (offset: nat)
      requires Sound() && j < numRestarts
      ensures rs[j] <= |xs| && offset == Offset(xs, rs[j])
    {
      hide IsBlock, Data, Offset, DecodeFixed32;
      RestartOffset(block, xs, rs, restarts, j);
      BlockRestart(block, xs, rs, restarts, j);
      offset := DecodeFixed32(block[restartsOffset + 4 * j..restartsOffset + 4 * j + 4]);
    }

    /** Entry `n` is next: the iterator stands at its start with what is needed to read it. */
    ghost predicate CanParse(n: nat)
      reads this
    {
      && Sound() && n <= |xs| && NextEntryOffset() == Offset(xs, n)
      && (n < |xs| ==> Shares(key, xs[n]) && restartIndex < numRestarts && rs[restartIndex] <= n)
    }

    lemma ReadyForNext()
      requires Ok() && Valid()
      ensures CanParse(index + 1)
    {
      StepFrom(xs, index);
    }

    /** The current entry ends before `limit`, the end of entry `last`, exactly when it comes before it. */
    lemma BeforeLimit(limit: nat, last: int)
      requires Ok() && Valid() && -1 <= last < |xs| && limit == Offset(xs, last + 1)
      ensures NextEntryOffset() < limit <==> index < last
    {
      if index < last {
        OffsetsRise(xs, index + 1, last + 1);
      } else {
        OffsetsRise(xs, last + 1, index + 1);
      }
    }

    method SeekToRestartPoint(j: nat)
      requires Sound() && j < numRestarts
      modifies this
      ensures CanParse(rs[j])
    {
      Mark(xs, rs, j);
      key := [];
      restartIndex := j;
      var offset := GetRestartPoint(j);
      valueStart, valueLength := offset, 0;
    }

    /** Moves restart_index_ up to the last restart point before the current entry. */
    method AdvanceRestart(ghost n: nat)
      requires Sound() && n < |xs| && current == Offset(xs, n) && restartIndex < numRestarts && rs[restartIndex] <= n
      modifies this`restartIndex
      ensures restartIndex < numRestarts && rs[restartIndex] <= n
    {
      hide IsBlock, Data, Offset, AllOk;
      while restartIndex + 1 < numRestarts
        invariant restartIndex < numRestarts && rs[restartIndex] <= n
        decreases numRestarts - restartIndex
      {
        var next := GetRestartPoint(restartIndex + 1);
        if next >= current {
          break;
        }
        Earlier(xs, rs[restartIndex + 1], n);
        restartIndex := restartIndex + 1;
      }
    }

    /** Reads entry `n`, which starts where the last one ended. */
    method ParseNextKey(ghost n: nat) returns (ok: bool)
      requires CanParse(n)
      modifies this
      ensures Ok() && index == n && (ok <==> n < |xs|)
    {
      hide IsBlock, Data, Offset, AllOk, Shares, RestartsAt;
      index := n;
      current := NextEntryOffset();
      if current >= restartsOffset {
        NotPast(xs, n);
        current := restartsOffset;
        restartIndex := numRestarts;
        return false;
      }
      NotEnd(xs, n);
      ok := ReadEntry(n);
      AdvanceRestart(n);
    }

    /** Decodes entry `n` at the current offset; fails on a malformed one. */
    method ReadEntry(ghost n: nat) returns (ok: bool)
      requires Sound() && n < |xs| && current == Offset(xs, n) < restartsOffset && Shares(key, xs[n])
      modifies this`key, this`valueStart, this`valueLength
      ensures ok && key == xs[n].key && valueLength == |xs[n].value|
      ensures valueStart + valueLength == Offset(xs, n + 1) <= |block|
      ensures block[valueStart..valueStart + valueLength] == xs[n].value
    {
      hide IsBlock, Data, Offset, DecodeEntry, AllOk;
      ghost var found := ParseAt(block, xs, n);
      var h := DecodeEntry(block[current..restartsOffset]);
      if h.None? || |key| < h.value.shared {
        return false;
      }
      var p := current + h.value.used;
      Resized(key, xs[n].key, h.value.shared);
      key := key[..h.value.shared] + block[p..p + h.value.nonShared];
      valueStart, valueLength := p + h.value.nonShared, h.value.valueLength;
      return true;
    }

    method SeekToFirst()
      requires Ok()
      modifies this
      ensures Ok() && index == 0
    {
      SeekToRestartPoint(0);
      var ok := ParseNextKey(0);
    }

    method Next()
      requires Ok() && Valid()
      modifies this
      ensures Ok() && index == old(index) + 1
    {
      ReadyForNext();
      var ok := ParseNextKey(index + 1);
    }

    lemma MarkOf(j: nat)
      requires Sound() && j < numRestarts
      ensures AllOk(xs) && j < |rs| && rs[j] <= |xs|
      ensures (rs[j] < |xs| ==> Shares([], xs[rs[j]])) && (|xs| > 0 ==> rs[j] < |xs|)
    {
      Mark(xs, rs, j);
    }

    /** Parses on from restart point `j` up to entry `last`; there is none only in an empty block. */
    method ScanTo(j: nat, limit: nat, ghost last: int)
      requires Sound() && j < numRestarts && -1 <= last < |xs| && limit == Offset(xs, last + 1)
      requires if xs == [] then last == -1 else rs[j] <= last
      modifies this
      ensures Ok() && (xs != [] ==> index == last)
    {
      hide Sound, CanParse, Offset, RestartsAt, StandsAt, Data, Shares, IsBlock, AllOk, Encode;
      MarkOf(j);
      SeekToRestartPoint(j);
      var ok := ParseNextKey(rs[j]);
      while ok && NextEntryOffset() < limit
        invariant Ok() && (ok <==> Valid()) && (xs != [] ==> Valid() && rs[j] <= index <= last)
        decreases last - index
      {
        BeforeLimit(limit, last);
        ReadyForNext();
        ok := ParseNextKey(index + 1);
      }
      if xs != [] {
        BeforeLimit(limit, last);
      }
    }

    method SeekToLast()
      requires Ok()
      modifies this
      ensures Ok() && (xs != [] ==> index == |xs| - 1)
    {
      OffsetEnd(xs);
      Mark(xs, rs, |rs| - 1);
      ScanTo(numRestarts - 1, restartsOffset, |xs| - 1);
    }

    /** Goes back to a restart point before the current entry, then forward to the entry before it. */
    method Prev()
      requires Ok() && Valid()
      modifies this
      ensures Ok() && index == old(index) - 1
    {
      var original := current;
      ghost var n := index;
      while true
        invariant Sound() && restartIndex < numRestarts && original == Offset(xs, n) && 0 <= n < |xs|
        invariant rs[restartIndex] <= n
        decreases restartIndex
      {
        var offset := GetRestartPoint(restartIndex);
        if offset < original {
          Earlier(xs, rs[restartIndex], n);
          break;
        }
        NotEarlier(xs, rs[restartIndex], n);
        if restartIndex == 0 {
          current := restartsOffset;
          restartIndex := numRestarts;
          index := -1;
          return;
        }
        restartIndex := restartIndex - 1;
      }
      ScanTo(restartIndex, original, n - 1);
    }

    /** The key at a restart point, which shares nothing. */
    method RestartKey(j: nat) returns (k: Bytes)
      requires Sound() && j < numRestarts && rs[j] < |xs|
      ensures k == xs[rs[j]].key
    {
      var offset := GetRestartPoint(j);
      Mark(xs, rs, j);
      ghost var found := ParseAt(block, xs, rs[j]);
      var h := DecodeEntry(block[offset..restartsOffset]);
      k := block[offset + h.value.used..offset + h.value.used + h.value.nonShared];
    }

    /** The last restart point whose key is before `target`, or the first. */
    method FindRestart(target: Bytes) returns (left: nat)
      requires Sound() && Increasing(order, xs)
      ensures left < numRestarts && (left > 0 ==> rs[left] < |xs| && Less(order, xs[rs[left]].key, target))
    {
      left := 0;
      var right := numRestarts - 1;
      while left < right
        invariant 0 <= left <= right < numRestarts
        invariant (left > 0 ==> rs[left] < |xs| && Less(order, xs[rs[left]].key, target))
        decreases right - left
      {
        var mid := (left + right + 1) / 2;
        var midKey := RestartKey(mid);
        if Less(order, midKey, target) {
          left := mid;
        } else {
          right := mid - 1;
        }
      }
    }

    /** Positions at the first entry at or after `target`. */
    method Seek(target: Bytes)
      requires Ok() && Increasing(order, xs)
      modifies this
      ensures Ok() && 0 <= index <= |xs|
      ensures AllSmaller(order, xs, target, index)
      ensures index < |xs| ==> !Less(order, xs[index].key, target)
    {
      var left := FindRestart(target);
      ghost var start := rs[left];
      AllBefore(order, xs, target, start);
      ScanForward(left, start, target);
    }

    /** Parses on from restart point `left` to the first key not before `target`. */
    method ScanForward(left: nat, ghost start: nat, target: Bytes)
      requires Sound() && left < numRestarts && start == rs[left] && AllSmaller(order, xs, target, start)
      modifies this
      ensures Ok() && 0 <= index <= |xs| && AllSmaller(order, xs, target, index)
      ensures index < |xs| ==> !Less(order, xs[index].key, target)
    {
      hide Sound, CanParse, Less, RestartsAt, StandsAt, AllSmaller;
      SeekToRestartPoint(left);
      var ok := ParseNextKey(start);
      while ok
        invariant Ok() && 0 <= index && (ok <==> Valid()) && AllSmaller(order, xs, target, index)
        decreases |xs| - index
      {
        KeyIs();
        if !Less(order, key, target) {
          return;
        }
        OneMore(order, xs, target, index);
        ReadyForNext();
        ok := ParseNextKey(index + 1);
      }
    }

    lemma KeyIs()
      requires Ok() && Valid()
      ensures key == xs[index].key
    {
    }
  }

  ghost predicate Increasing(order: Comparator, xs: seq<Item>) {
    forall i, j :: 0 <= i < j < |xs| ==> Less(order, xs[i].key, xs[j].key)
  }

  ghost predicate AllSmaller(order: Comparator, xs: seq<Item>, target: Bytes, n: int) {
    n <= |xs| && forall i :: 0 <= i < n ==> Less(order, xs[i].key, target)
  }

  lemma OneMore(order: Comparator, xs: seq<Item>, target: Bytes, n: nat)
    requires n < |xs| && AllSmaller(order, xs, target, n) && Less(order, xs[n].key, target)
    ensures AllSmaller(order, xs, target, n + 1)
  {
  }

  lemma AllBefore(order: Comparator, xs: seq<Item>, target: Bytes, n: nat)
    requires Increasing(order, xs) && n <= |xs| && (n > 0 ==> n < |xs| && Less(order, xs[n].key, target))
    ensures AllSmaller(order, xs, target, n)
  {
    forall i | 0 <= i < n ensures Less(order, xs[i].key, target) {
      LessTrans(order, xs[i].key, xs[n].key, target);
    }
  }

  lemma NotEarlier(xs: seq<Item>, i: nat, n: nat)
    requires AllOk(xs) && i <= |xs| && n <= |xs| && Offset(xs, i) >= Offset(xs, n)
    ensures i >= n
  {
    if i < n {
      OffsetsRise(xs, i, n);
    }
  }

  /** A restart point can be read with no key in hand. */
  lemma Mark(xs: seq<Item>, rs: seq<nat>, j: nat)
    requires RestartsAt(xs, rs) && j < |rs|
    ensures rs[j] <= |xs| && (rs[j] < |xs| ==> Shares([], xs[rs[j]])) && (|xs| > 0 ==> rs[j] < |xs|)
  {
    if rs[j] < |xs| {
      Afresh(xs[rs[j]]);
    }
  }

  lemma StepFrom(xs: seq<Item>, n: nat)
    requires SharingOk(xs) && n < |xs|
    ensures n + 1 < |xs| ==> Shares(xs[n].key, xs[n + 1])
  {
    if n + 1 < |xs| {
      KeyInHand(xs, n + 1);
    }
  }

  lemma Earlier(xs: seq<Item>, i: nat, n: nat)
    requires AllOk(xs) && i <= |xs| && n <= |xs| && Offset(xs, i) < Offset(xs, n)
    ensures i < n
  {
    if n <= i {
      OffsetsRise(xs, n, i);
    }
  }

  lemma NotPast(xs: seq<Item>, n: nat)
    requires AllOk(xs) && n <= |xs| && Offset(xs, n) >= |Data(xs)|
    ensures n == |xs|
  {
    if n < |xs| {
      EntryAt(xs, n);
    }
  }

  lemma NotEnd(xs: seq<Item>, n: nat)
    requires AllOk(xs) && n <= |xs| && Offset(xs, n) < |Data(xs)|
    ensures n < |xs|
  {
    OffsetEnd(xs);
  }

  // --- round trip ---------------------------------------------------------------------------------------------

  datatype Pair = Pair(key: Bytes, value: Bytes)

  /** A bound on the size of a block: lengths take at most five bytes each. */
  function SizeBound(ps: seq<Pair>): nat {
    if ps == [] then 0 else SizeBound(ps[..|ps| - 1]) + 15 + |ps[|ps| - 1].key| + |ps[|ps| - 1].value|
  }

  ghost predicate Holds(xs: seq<Item>, ps: seq<Pair>) {
    |xs| == |ps| && forall i :: 0 <= i < |ps| ==> xs[i].key == ps[i].key && xs[i].value == ps[i].value
  }

  lemma EncodeBound(x: Item)
    requires ItemOk(x)
    ensures |Encode(x)| <= 15 + |x.key| + |x.value|
  {
    hide EncodeVarint;
    VarintFits(x.shared);
    VarintFits(|x.key| - x.shared);
    VarintFits(|x.value|);
  }

  lemma {:induction false} DataBound(xs: seq<Item>, ps: seq<Pair>)
    requires AllOk(xs) && Holds(xs, ps)
    ensures |Data(xs)| <= SizeBound(ps)
  {
    if xs != [] {
      DataBound(xs[..|xs| - 1], ps[..|ps| - 1]);
      EncodeBound(xs[|xs| - 1]);
    }
  }

  method Build(ps: seq<Pair>, interval: nat)
    returns (block: Bytes, ghost xs: seq<Item>, ghost rs: seq<nat>, ghost restarts: seq<nat>)
    requires interval >= 1 && SizeBound(ps) < WORD
    requires forall i :: 0 <= i < |ps| ==> |ps[i].key| < WORD && |ps[i].value| < WORD
    ensures IsBlock(block, xs, rs, restarts) && Holds(xs, ps)
  {
    hide Built, IsBlock;
    var builder := new BlockBuilder(interval);
    var i := 0;
    while i < |ps|
      invariant 0 <= i <= |ps| && fresh(builder) && builder.Ok() && Holds(builder.xs, ps[..i])
    {
      builder.Add(ps[i].key, ps[i].value);
      i := i + 1;
    }
    assert ps[..i] == ps;
    BuiltData(builder, ps);
    block := builder.Finish();
    xs, rs, restarts := builder.xs, builder.rs, builder.restarts;
  }

  lemma BuiltData(b: BlockBuilder, ps: seq<Pair>)
    requires b.Ok() && Holds(b.xs, ps)
    ensures |b.buffer| <= SizeBound(ps)
  {
    DataBound(b.xs, ps);
  }

  /** Whatever the restart interval, a block read forwards gives the pairs put in, and read backwards their reverse. */
  method RoundTrip(order: Comparator, ps: seq<Pair>, interval: nat) returns (forwards: seq<Pair>, backwards: seq<Pair>)
    requires interval >= 1 && SizeBound(ps) < WORD
    requires forall i :: 0 <= i < |ps| ==> |ps[i].key| < WORD && |ps[i].value| < WORD
    ensures forwards == ps
    ensures |backwards| == |ps| && forall i :: 0 <= i < |ps| ==> backwards[i] == ps[|ps| - 1 - i]
  {
    hide IsBlock, StandsAt, Data;
    var block;
    ghost var xs, rs, restarts;
    block, xs, rs, restarts := Build(ps, interval);
    var it := new Iter(order, block, xs, rs, restarts);
    forwards, backwards := [], [];
    it.SeekToFirst();
    while it.Valid()
      invariant fresh(it) && it.Ok() && it.xs == xs && 0 <= it.index && forwards == ps[..it.index]
      decreases |xs| - it.index
    {
      forwards := forwards + [Pair(it.key, it.Value())];
      it.Next();
    }
    it.SeekToLast();
    while it.Valid()
      invariant fresh(it) && it.Ok() && it.xs == xs
      invariant (if ps == [] then backwards == [] else |backwards| == |ps| - 1 - it.index)
      invariant forall i :: 0 <= i < |backwards| ==> backwards[i] == ps[|ps| - 1 - i]
      decreases it.index
    {
      backwards := backwards + [Pair(it.key, it.Value())];
      it.Prev();
    }
  }
}
