/**
 The log file format (db/log_format.h, db/log_writer.cc, db/log_reader.cc): records
 cut into fragments that do not cross 32 KB blocks, and read back.
 */
module LogFormat {
  import opened Spec
  import opened Coding

  const BLOCK_SIZE: nat := 32768
  const HEADER_SIZE: nat := 7

  const ZERO: nat := 0
  const FULL: nat := 1
  const FIRST: nat := 2
  const MIDDLE: nat := 3
  const LAST: nat := 4
  const EOF: nat := 5
  const BAD: nat := 6

  /** A physical record. */
  datatype Frag = Frag(kind: nat, data: Bytes)

  // --- the bytes of a file -----------------------------------------------------------------

  function Header(kind: nat, data: Bytes): (h: Bytes)
    requires kind < 256 && |data| < 65536
    ensures |h| == HEADER_SIZE
  {
    EncodeFixed32(Mask(Crc([kind] + data))) + [|data| % 256, |data| / 256, kind]
  }

  predicate FragOk(f: Frag) {
    FULL <= f.kind <= LAST && |f.data| <= BLOCK_SIZE - HEADER_SIZE
  }

  function Physical(f: Frag): (b: Bytes)
    requires FragOk(f)
    ensures |b| == HEADER_SIZE + |f.data|
  {
    Header(f.kind, f.data) + f.data
  }

  /** Where a header fits after `offset` bytes: here, or at the start of the next block. */
  function Place(offset: nat): (p: nat)
    ensures offset <= p < offset + HEADER_SIZE
    ensures p % 32768 + HEADER_SIZE <= BLOCK_SIZE
  {
    var left := BLOCK_SIZE - offset % 32768;
    if left < HEADER_SIZE then assert (offset + left) % 32768 == 0; offset + left else offset
  }

  function Zeros(n: nat): (z: Bytes)
    ensures |z| == n
  {
    seq(n, i => 0)
  }

  predicate AllOk(fs: seq<Frag>) {
    forall i :: 0 <= i < |fs| ==> FragOk(fs[i])
  }

  /** The file so far, filled up to where the next header goes. */
  function Padded(b: Bytes): (p: Bytes)
    ensures |p| == Place(|b|) && b <= p
  {
    b + Zeros(Place(|b|) - |b|)
  }

  /** The file made of these fragments. */
  function File(fs: seq<Frag>): Bytes
    requires AllOk(fs)
  {
    if fs == [] then [] else Padded(File(fs[..|fs| - 1])) + Physical(fs[|fs| - 1])
  }

  lemma PlaceOf(offset: nat, blockOffset: nat)
    requires SameOffset(blockOffset, offset)
    ensures BLOCK_SIZE - blockOffset < HEADER_SIZE ==>
              Place(offset) == offset + (BLOCK_SIZE - blockOffset) && Place(offset) % 32768 == 0
    ensures BLOCK_SIZE - blockOffset >= HEADER_SIZE ==> Place(offset) == offset && Place(offset) % 32768 == blockOffset
  {
  }

  lemma AdvanceOf(offset: nat, n: nat)
    requires offset % 32768 + n <= BLOCK_SIZE
    ensures SameOffset(offset % 32768 + n, offset + n)
  {
  }

  /** Each fragment lies within one block. */
  ghost predicate Laid(fs: seq<Frag>) {
    && AllOk(fs)
    && forall i :: 0 <= i < |fs| ==> Place(|File(fs[..i])|) % 32768 + HEADER_SIZE + |fs[i].data| <= BLOCK_SIZE
  }

  // --- records -------------------------------------------------------------------------------

  function Joined(fs: seq<Frag>): Bytes {
    if fs == [] then [] else Joined(fs[..|fs| - 1]) + fs[|fs| - 1].data
  }

  /** The first fragments of a record that goes on. */
  ghost predicate Open(fs: seq<Frag>) {
    forall i :: 0 <= i < |fs| ==> fs[i].kind == if i == 0 then FIRST else MIDDLE
  }

  /** `fs` are the fragments of one record holding `data`. */
  ghost predicate IsRecord(fs: seq<Frag>, data: Bytes) {
    && fs != [] && Joined(fs) == data && Open(fs[..|fs| - 1])
    && fs[|fs| - 1].kind == if |fs| == 1 then FULL else LAST
  }

  function Flat(cs: seq<seq<Frag>>): seq<Frag> {
    if cs == [] then [] else Flat(cs[..|cs| - 1]) + cs[|cs| - 1]
  }

  ghost predicate AreRecords(cs: seq<seq<Frag>>, records: seq<Bytes>) {
    |cs| == |records| && forall i :: 0 <= i < |cs| ==> IsRecord(cs[i], records[i])
  }

  lemma FileSnoc(fs: seq<Frag>, f: Frag)
    requires AllOk(fs) && FragOk(f)
    ensures AllOk(fs + [f])
    ensures File(fs + [f]) == Padded(File(fs)) + Physical(f)
  {
    assert (fs + [f])[..|fs|] == fs;
  }

  lemma {:induction false} FilePrefix(fs: seq<Frag>, i: nat)
    requires AllOk(fs) && i <= |fs|
    ensures AllOk(fs[..i]) && File(fs[..i]) <= File(fs)
    decreases |fs|
  {
    if i < |fs| {
      var front := fs[..|fs| - 1];
      FilePrefix(front, i);
      assert front[..i] == fs[..i];
    } else {
      assert fs[..i] == fs;
    }
  }

  lemma LaidSnoc(fs: seq<Frag>, f: Frag)
    requires Laid(fs) && FragOk(f) && Place(|File(fs)|) % 32768 + HEADER_SIZE + |f.data| <= BLOCK_SIZE
    ensures Laid(fs + [f])
  {
    hide File, Place;
    var fs' := fs + [f];
    forall i | 0 <= i < |fs'| ensures Place(|File(fs'[..i])|) % 32768 + HEADER_SIZE + |fs'[i].data| <= BLOCK_SIZE {
      assert fs'[..i] == if i < |fs| then fs[..i] else fs;
    }
  }

  lemma JoinedSnoc(fs: seq<Frag>, f: Frag)
    ensures Joined(fs + [f]) == Joined(fs) + f.data
  {
    assert (fs + [f])[..|fs|] == fs;
  }

  lemma FlatSnoc(cs: seq<seq<Frag>>, c: seq<Frag>)
    ensures Flat(cs + [c]) == Flat(cs) + c
  {
    assert (cs + [c])[..|cs|] == cs;
  }

  // --- the writer ------------------------------------------------------------------------------

  predicate SameOffset(blockOffset: nat, size: nat) {
    blockOffset <= 32768 && blockOffset % 32768 == size % 32768
  }

  lemma ResumeOffset(size: nat)
    ensures SameOffset(size % 32768, size)
  {
  }

  class Writer {
    var dest: Bytes              // the file
    var blockOffset: nat
    ghost var frags: seq<Frag>   // what it is made of

    ghost predicate Ok()
      reads this
    {
      Laid(frags) && dest == File(frags) && SameOffset(blockOffset, |dest|)
    }

    /** A writer on a file that ends after a complete fragment; an empty file is one. */
    constructor (file: Bytes, ghost fs: seq<Frag>)
      requires Laid(fs) && file == File(fs)
      ensures Ok() && frags == fs && dest == file
    {
      hide SameOffset;
      ResumeOffset(|file|);
      dest, blockOffset, frags := file, |file| % 32768, fs;
    }

    /** Ready for a header: the file is filled up to its place. */
    ghost predicate Ready()
      reads this
    {
      && Laid(frags) && dest == Padded(File(frags))
      && blockOffset == |dest| % 32768 && blockOffset + HEADER_SIZE <= BLOCK_SIZE
    }

    /** Fills up a block that has no room for a header. */
    method SwitchBlock()
      requires Ok()
      modifies this
      ensures Ready() && frags == old(frags)
      ensures blockOffset == if BLOCK_SIZE - old(blockOffset) < HEADER_SIZE then 0 else old(blockOffset)
    {
      PlaceOf(|dest|, blockOffset);
      hide Laid, File, Place;
      var leftover := BLOCK_SIZE - blockOffset;
      if leftover < HEADER_SIZE {
        if leftover > 0 {
          dest := dest + Zeros(leftover);
        }
        blockOffset := 0;
      }
    }

    method EmitPhysicalRecord(kind: nat, data: Bytes)
      requires Ready() && FULL <= kind <= LAST && blockOffset + HEADER_SIZE + |data| <= BLOCK_SIZE
      modifies this
      ensures Ok() && frags == old(frags) + [Frag(kind, data)] && blockOffset == old(blockOffset) + HEADER_SIZE + |data|
    {
      hide File, Place, Header, Padded;
      ghost var f := Frag(kind, data);
      FileSnoc(frags, f);
      LaidSnoc(frags, f);
      AdvanceOf(|dest|, HEADER_SIZE + |data|);
      dest := dest + Header(kind, data);
      dest := dest + data;
      blockOffset := blockOffset + HEADER_SIZE + |data|;
      frags := frags + [f];
    }

    /** Appends one record to the file. */
    method AddRecord(data: Bytes) returns (ghost c: seq<Frag>)
      requires Ok()
      modifies this
      ensures Ok() && IsRecord(c, data) && frags == old(frags) + c
    {
      hide Laid, File, Place, Padded;
      c := [];
      var left := data;
      var begin, more := true, true;
      while more
        invariant Ok() && frags == old(frags) + c
        invariant more ==> Open(c) && Joined(c) + left == data && (begin <==> c == [])
        invariant more ==> begin || left != []
        invariant !more ==> IsRecord(c, data)
        decreases more, |left|, BLOCK_SIZE - blockOffset
      {
        SwitchBlock();
        var avail := BLOCK_SIZE - blockOffset - HEADER_SIZE;
        var length := if |left| < avail then |left| else avail;
        var end := |left| == length;
        var kind := if begin && end then FULL else if begin then FIRST else if end then LAST else MIDDLE;
        JoinedSnoc(c, Frag(kind, left[..length]));
        EmitPhysicalRecord(kind, left[..length]);
        ghost var c' := c + [Frag(kind, left[..length])];
        assert c'[..|c|] == c;
        c := c';
        left := left[length..];
        begin := false;
        more := left != [];
      }
    }
  }

  // --- finding a fragment in the file ---------------------------------------------------------------

  /** How many bytes the first `i` fragments take. */
  ghost function EndOf(fs: seq<Frag>, i: nat): nat
    requires AllOk(fs) && i <= |fs|
  {
    |File(fs[..i])|
  }

  lemma FragAt(fs: seq<Frag>, i: nat)
    requires AllOk(fs) && i < |fs|
    ensures var p := Place(EndOf(fs, i)); var e := p + HEADER_SIZE + |fs[i].data|;
            EndOf(fs, i + 1) == e <= |File(fs)| && File(fs)[p..e] == Physical(fs[i])
  {
    hide Place, Physical, File, Padded, AllOk;
    AllOkTake(fs, i);
    FileSnoc(fs[..i], fs[i]);
    assert fs[..i + 1] == fs[..i] + [fs[i]];
    FilePrefix(fs, i + 1);
    SecondPart(File(fs), Padded(File(fs[..i])), Physical(fs[i]));
  }

  lemma AllOkTake(fs: seq<Frag>, i: nat)
    requires AllOk(fs) && i < |fs|
    ensures AllOk(fs[..i]) && FragOk(fs[i])
  {
  }

  lemma SecondPart(whole: Bytes, a: Bytes, b: Bytes)
    requires a + b <= whole
    ensures |a| + |b| <= |whole| && whole[|a|..|a| + |b|] == b
  {
  }

  lemma FileEnd(fs: seq<Frag>)
    requires AllOk(fs)
    ensures EndOf(fs, |fs|) == |File(fs)|
  {
    assert fs[..|fs|] == fs;
  }

  function LengthAt(b: Bytes): nat
    requires |b| >= HEADER_SIZE
  {
    var low: int, high: int := b[4], b[5];
    low + 256 * high
  }

  /** The header of a fragment says what it should, whatever follows. */
  lemma HeaderRead(f: Frag, b: Bytes)
    requires FragOk(f) && Physical(f) <= b
    ensures |b| >= HEADER_SIZE + |f.data| && LengthAt(b) == |f.data| && b[6] == f.kind
    ensures Unmask(DecodeFixed32(b)) == Crc(b[6..HEADER_SIZE + |f.data|])
    ensures b[HEADER_SIZE..HEADER_SIZE + |f.data|] == f.data
  {
    var h := Header(f.kind, f.data);
    assert h <= b && |b| >= HEADER_SIZE + |f.data|;
    var code := EncodeFixed32(Mask(Crc([f.kind] + f.data)));
    assert h[..4] == code && b[..4] == code && DecodeFixed32(b) == DecodeFixed32(code);
    assert h[4] == |f.data| % 256 && h[5] == |f.data| / 256 && h[6] == f.kind;
    UnmaskMask(Crc([f.kind] + f.data));
    assert b[6..HEADER_SIZE + |f.data|] == [f.kind] + f.data;
  }

  // --- the reader -------------------------------------------------------------------------------------

  /** After reading up to `pos`, with `n` bytes of it in the buffer: they are the rest of one block. */
  predicate InOneBlock(pos: nat, n: nat, eof: bool, size: nat)
    requires n <= pos
  {
    && (if eof then pos == size else pos % 32768 == 0)
    && (n > 0 ==> n <= 32768 - (pos - n) % 32768)
  }

  lemma NothingReadYet(size: nat)
    ensures InOneBlock(0, 0, false, size)
  {
  }

  /**
   Behind the fragments, what is left of the file begins with a header that announces more
   than there is, or is too short for a header, and ends inside its block.
   */
  ghost predicate EndsTorn(file: Bytes, fs: seq<Frag>)
    requires AllOk(fs)
  {
    var p := Place(|File(fs)|);
    && Padded(File(fs)) <= file && |file| < p - p % 32768 + BLOCK_SIZE
    && (|file| - p < HEADER_SIZE || HEADER_SIZE + LengthAt(file[p..]) > |file| - p)
  }

  /** The file is the start of one made of `fs`, or all of it with a torn end. */
  ghost predicate Reads(file: Bytes, fs: seq<Frag>) {
    Laid(fs) && (file <= File(fs) || EndsTorn(file, fs))
  }

  class Reader {
    const file: Bytes
    var pos: nat          // how much of the file was read
    var buffer: Bytes     // what is left of the block read last
    var eof: bool
    var reports: nat      // corruptions reported

    constructor (contents: Bytes)
      ensures Ok() && file == contents && reports == 0 && At() == 0 && !eof
    {
      hide InOneBlock;
      NothingReadYet(|contents|);
      file, pos, buffer, eof, reports := contents, 0, [], false, 0;
    }

    ghost function At(): int
      reads this
    {
      pos - |buffer|
    }

    ghost predicate Ok()
      reads this
    {
      |buffer| <= pos <= |file| && buffer == file[pos - |buffer|..pos] && InOneBlock(pos, |buffer|, eof, |file|)
    }

    /** Fragment `i` is not all there. */
    ghost predicate Incomplete(fs: seq<Frag>, i: nat)
      requires AllOk(fs)
    {
      i >= |fs| || EndOf(fs, i + 1) > |file|
    }

    /** The reader has passed `i` of the fragments the file is made of. */
    ghost predicate Tracks(fs: seq<Frag>, i: nat)
      reads this
    {
      && Reads(file, fs) && i <= |fs| && EndOf(fs, i) <= |file|
      && (At() == EndOf(fs, i) || At() == Place(EndOf(fs, i)) || (eof && buffer == [] && Incomplete(fs, i)))
    }

    /** Reads the next block of the file. */
    method Refill()
      requires Ok() && |buffer| < HEADER_SIZE && !eof
      modifies this
      ensures Ok() && reports == old(reports) && At() == old(pos) && pos >= old(pos)
      ensures eof || pos > old(pos)
      ensures old(At()) <= At()
    {
      var n := if |file| - pos < BLOCK_SIZE then |file| - pos else BLOCK_SIZE;
      buffer := file[pos..pos + n];
      pos := pos + n;
      if |buffer| < BLOCK_SIZE {
        eof := true;
      }
    }

    /** Skips trailers and reads blocks until a header is in the buffer, or the file is at its end. */
    method FindHeader(ghost fs: seq<Frag>, ghost i: nat) returns (found: bool)
      requires Ok()
      modifies this
      ensures Ok() && reports == old(reports) && old(At()) <= At()
      ensures if found then |buffer| >= HEADER_SIZE else buffer == []
      ensures old(Tracks(fs, i)) ==> Tracks(fs, i) && (!found ==> Incomplete(fs, i))
    {
      hide Reads, File, EndOf;
      ghost var tracks := Tracks(fs, i);
      while |buffer| < HEADER_SIZE
        invariant Ok() && reports == old(reports) && old(At()) <= At()
        invariant tracks ==> Tracks(fs, i)
        decreases |file| - pos, !eof
      {
        if !eof {
          if tracks {
            ReadsOk(file, fs);
            BlockEnd(EndOf(fs, i), At(), pos);
          }
          Refill();
        } else {
          if tracks {
            ReadsOk(file, fs);
            TooShort(file, fs, i, At());
          }
          buffer := [];
          return false;
        }
      }
      return true;
    }

    /** Reads the next physical record; EOF also when the file ends inside it. */
    method ReadPhysicalRecord(ghost fs: seq<Frag>, ghost i: nat) returns (kind: nat, data: Bytes)
      requires Ok()
      modifies this
      ensures Ok()
      ensures kind != EOF ==> At() > old(At())
      ensures old(Tracks(fs, i)) ==> reports == old(reports)
      ensures old(Tracks(fs, i)) ==>
                if kind == EOF then Tracks(fs, i) && Incomplete(fs, i)
                else i < |fs| && Frag(kind, data) == fs[i] && Tracks(fs, i + 1)
    {
      hide Reads, File, EndOf, Place, LengthAt, DecodeFixed32, Unmask, InOneBlock, Crc;
      ghost var tracks := Tracks(fs, i);
      var found := FindHeader(fs, i);
      if !found {
        return EOF, [];
      }
      if tracks {
        ReadsOk(file, fs);
        Peek(file, fs, i, At(), pos, eof, buffer);
      }
      var length := LengthAt(buffer);
      kind := buffer[6];
      Drop(pos, |buffer|, |buffer|, eof, |file|);
      if HEADER_SIZE + length > |buffer| {
        buffer := [];
        if !eof {
          reports := reports + 1;
          return BAD, [];
        }
        return EOF, [];
      }
      if kind == ZERO && length == 0 {
        buffer := [];
        return BAD, [];
      }
      if Crc(buffer[6..HEADER_SIZE + length]) != Unmask(DecodeFixed32(buffer)) {
        buffer := [];
        reports := reports + 1;
        return BAD, [];
      }
      data := buffer[HEADER_SIZE..HEADER_SIZE + length];
      Drop(pos, |buffer|, HEADER_SIZE + length, eof, |file|);
      buffer := buffer[HEADER_SIZE + length..];
    }

    /** The next logical record, put together from its fragments; None at the end of the file. */
    method ReadRecord(ghost cs: seq<seq<Frag>>, ghost records: seq<Bytes>, ghost k: nat) returns (record: Option<Bytes>)
      requires Ok()
      modifies this
      ensures Ok() && (record.Some? ==> At() > old(At()))
      ensures old(AtRecord(cs, records, k)) ==> reports == old(reports)
      ensures old(AtRecord(cs, records, k)) ==>
                if record.Some? then k < |cs| && record.value == records[k] && AtRecord(cs, records, k + 1)
                else k == |cs| || Missing(cs, k)
    {
      hide Tracks, Laid, IsRecord, EndOf, File, Joined;
      ghost var tracks, j: nat := AtRecord(cs, records, k), 0;
      var scratch, inFragmentedRecord := [], false;
      assert tracks ==> Passed(cs, k, 0) == |Flat(cs[..k])|;
      while true
        invariant Ok() && old(At()) <= At()
        invariant tracks ==> reports == old(reports) && AreRecords(cs, records) && k <= |cs|
        invariant tracks ==> Tracks(Flat(cs), Passed(cs, k, j))
        invariant tracks ==> (inFragmentedRecord <==> j > 0)
        invariant tracks && j > 0 ==> k < |cs| && j < |cs[k]| && scratch == Joined(cs[k][..j])
        decreases |file| - At()
      {
        var kind, fragment := ReadPhysicalRecord(Flat(cs), Passed(cs, k, j));
        if tracks {
          if kind == EOF {
            TracksOk(Flat(cs), Passed(cs, k, j));
            NoMore(cs, records, k, j);
          } else {
            NextFrag(cs, records, k, j, Frag(kind, fragment));
            j := j + 1;
          }
        }
        if kind == FULL {
          if inFragmentedRecord && scratch != [] {
            reports := reports + 1;
          }
          return Some(fragment);
        } else if kind == FIRST {
          if inFragmentedRecord && scratch != [] {
            reports := reports + 1;
          }
          scratch, inFragmentedRecord := fragment, true;
        } else if kind == MIDDLE {
          if !inFragmentedRecord {
            reports := reports + 1;
          } else {
            scratch := scratch + fragment;
          }
        } else if kind == LAST {
          if !inFragmentedRecord {
            reports := reports + 1;
          } else {
            return Some(scratch + fragment);
          }
        } else if kind == EOF {
          return None;
        } else if kind == BAD {
          if inFragmentedRecord {
            reports := reports + 1;
            scratch, inFragmentedRecord := [], false;
          }
        } else {
          reports := reports + 1;
          scratch, inFragmentedRecord := [], false;
        }
      }
    }

    /** The reader stands before record `k` of the records its file was written from. */
    ghost predicate AtRecord(cs: seq<seq<Frag>>, records: seq<Bytes>, k: nat)
      reads this
    {
      AreRecords(cs, records) && k <= |cs| && Tracks(Flat(cs), |Flat(cs[..k])|)
    }

    /** Record `k` is not all there. */
    ghost predicate Missing(cs: seq<seq<Frag>>, k: nat) {
      k < |cs| && AllOk(Flat(cs)) && |Flat(cs[..k + 1])| <= |Flat(cs)| && EndOf(Flat(cs), |Flat(cs[..k + 1])|) > |file|
    }

    ghost function Passed(cs: seq<seq<Frag>>, k: nat, j: nat): nat
    {
      if k <= |cs| then |Flat(cs[..k])| + j else 0
    }

    lemma TracksOk(fs: seq<Frag>, i: nat)
      requires Tracks(fs, i)
      ensures AllOk(fs)
    {
    }

    lemma NoMore(cs: seq<seq<Frag>>, records: seq<Bytes>, k: nat, j: nat)
      requires AreRecords(cs, records) && k <= |cs| && AllOk(Flat(cs)) && Incomplete(Flat(cs), Passed(cs, k, j))
      requires j > 0 ==> k < |cs| && j < |cs[k]|
      ensures k == |cs| || Missing(cs, k)
    {
      hide EndOf, Flat, AllOk;
      if k < |cs| {
        assert IsRecord(cs[k], records[k]);
        FlatAt(cs, k, j);
        FilePrefixes(Flat(cs), Passed(cs, k, j) + 1, |Flat(cs[..k + 1])|);
      }
    }
  }

  lemma LaidOk(fs: seq<Frag>)
    requires Laid(fs)
    ensures AllOk(fs)
  {
  }

  lemma ReadsOk(file: Bytes, fs: seq<Frag>)
    requires Reads(file, fs)
    ensures AllOk(fs)
  {
  }

  /** Taking bytes off the front keeps the buffer inside its block. */
  lemma Drop(pos: nat, n: nat, used: nat, eof: bool, size: nat)
    requires used <= n <= pos && InOneBlock(pos, n, eof, size)
    ensures InOneBlock(pos, n - used, eof, size)
  {
  }

  /** The rest of a block too short for a header is skipped. */
  lemma BlockEnd(end: nat, at: nat, pos: nat)
    requires (at == end || at == Place(end)) && at <= pos < at + HEADER_SIZE && pos % 32768 == 0
    ensures pos == Place(end)
  {
  }

  lemma AtPlace(end: nat, at: nat, n: nat)
    requires (at == end || at == Place(end)) && HEADER_SIZE <= n <= BLOCK_SIZE - at % 32768
    ensures at == Place(end)
  {
  }

  /** Less than a header is left of the file: the fragment is not there. */
  lemma TooShort(file: Bytes, fs: seq<Frag>, i: nat, at: nat)
    requires AllOk(fs) && i <= |fs| && |file| < at + HEADER_SIZE
    requires at == EndOf(fs, i) || at == Place(EndOf(fs, i)) || i >= |fs| || EndOf(fs, i + 1) > |file|
    ensures i >= |fs| || EndOf(fs, i + 1) > |file|
  {
    if i < |fs| {
      FragAt(fs, i);
    }
  }

  /** A fragment that ends after `pos` ends after the whole file: fragments do not cross blocks. */
  lemma CutShort(p: nat, e: nat, pos: nat)
    requires p < pos < e && p % 32768 + (e - p) <= BLOCK_SIZE
    ensures pos % 32768 != 0
  {
  }

  /** What the reader finds when at least a header is in the buffer. */
  lemma Peek(file: Bytes, fs: seq<Frag>, i: nat, at: nat, pos: nat, eof: bool, buffer: Bytes)
    requires Reads(file, fs) && AllOk(fs) && i <= |fs|
    requires at == EndOf(fs, i) || at == Place(EndOf(fs, i))
    requires at + HEADER_SIZE <= pos <= |file| && buffer == file[at..pos] && InOneBlock(pos, |buffer|, eof, |file|)
    ensures i == |fs| ==> eof && HEADER_SIZE + LengthAt(buffer) > |buffer|
    ensures i < |fs| ==>
              && LengthAt(buffer) == |fs[i].data| && EndOf(fs, i + 1) == at + HEADER_SIZE + |fs[i].data|
              && (HEADER_SIZE + |fs[i].data| > |buffer| ==> eof)
              && (HEADER_SIZE + |fs[i].data| <= |buffer| ==>
                    && buffer[6] == fs[i].kind
                    && Unmask(DecodeFixed32(buffer)) == Crc(buffer[6..HEADER_SIZE + |fs[i].data|])
                    && buffer[HEADER_SIZE..HEADER_SIZE + |fs[i].data|] == fs[i].data)
  {
    hide File, Place, LengthAt, DecodeFixed32, Unmask, Crc, EndsTorn, Laid, AllOk, FragOk;
    AtPlace(EndOf(fs, i), at, |buffer|);
    if i < |fs| {
      var whole := WholeFile(file, fs);
      FitsBlock(fs, i);
      PeekFrag(whole, file, fs, i, at, pos, eof, buffer);
    } else {
      FileEnd(fs);
      PlaceAfter(EndOf(fs, i));
      PeekTorn(file, fs, at, pos, eof, buffer);
    }
  }

  lemma FitsBlock(fs: seq<Frag>, i: nat)
    requires Laid(fs) && AllOk(fs) && i < |fs|
    ensures Place(EndOf(fs, i)) % 32768 + HEADER_SIZE + |fs[i].data| <= BLOCK_SIZE
  {
  }

  lemma WholeFile(file: Bytes, fs: seq<Frag>) returns (whole: Bytes)
    requires Reads(file, fs) && AllOk(fs)
    ensures File(fs) <= whole && file <= whole
  {
    hide File;
    whole := if file <= File(fs) then File(fs) else file;
  }

  /** The torn end is in the buffer as a whole. */
  lemma PeekTorn(file: Bytes, fs: seq<Frag>, at: nat, pos: nat, eof: bool, buffer: Bytes)
    requires AllOk(fs) && EndsTorn(file, fs) && at == Place(|File(fs)|)
    requires at + HEADER_SIZE <= pos <= |file| && buffer == file[at..pos] && InOneBlock(pos, |buffer|, eof, |file|)
    ensures eof && HEADER_SIZE + LengthAt(buffer) > |buffer|
  {
    hide File, Place, Padded, LengthAt;
    assert eof;
    assert buffer == file[at..];
  }

  lemma PeekFrag(whole: Bytes, file: Bytes, fs: seq<Frag>, i: nat, at: nat, pos: nat, eof: bool, buffer: Bytes)
    requires AllOk(fs) && i < |fs| && File(fs) <= whole && file <= whole && at == Place(EndOf(fs, i))
    requires at % 32768 + HEADER_SIZE + |fs[i].data| <= BLOCK_SIZE
    requires at + HEADER_SIZE <= pos <= |file| && buffer == file[at..pos] && InOneBlock(pos, |buffer|, eof, |file|)
    ensures LengthAt(buffer) == |fs[i].data| && EndOf(fs, i + 1) == at + HEADER_SIZE + |fs[i].data|
    ensures HEADER_SIZE + |fs[i].data| > |buffer| ==> eof
    ensures HEADER_SIZE + |fs[i].data| <= |buffer| ==>
              && buffer[6] == fs[i].kind && Unmask(DecodeFixed32(buffer)) == Crc(buffer[6..HEADER_SIZE + |fs[i].data|])
              && buffer[HEADER_SIZE..HEADER_SIZE + |fs[i].data|] == fs[i].data
  {
    hide File, Place, Physical, LengthAt, DecodeFixed32, Unmask, Crc;
    FragAt(fs, i);
    var f, e := fs[i], at + HEADER_SIZE + |fs[i].data|;
    assert whole[at..e] == File(fs)[at..e];
    PeekHeader(whole, file, f, at, pos, buffer);
    if e <= pos {
      assert buffer[..e - at] == Physical(f);
      HeaderRead(f, buffer);
    } else {
      CutShort(at, e, pos);
    }
  }

  lemma PlaceAfter(offset: nat)
    ensures Place(offset) >= offset
  {
  }

  lemma PeekHeader(whole: Bytes, file: Bytes, f: Frag, at: nat, pos: nat, buffer: Bytes)
    requires FragOk(f) && file <= whole && at + HEADER_SIZE <= pos <= |file| && buffer == file[at..pos]
    requires at + HEADER_SIZE + |f.data| <= |whole| && whole[at..at + HEADER_SIZE + |f.data|] == Physical(f)
    ensures LengthAt(buffer) == |f.data|
  {
    var b := Physical(f);
    HeaderRead(f, b);
    assert buffer[4] == whole[at + 4] == b[4] && buffer[5] == whole[at + 5] == b[5];
  }

  lemma {:induction false} FlatPrefix(cs: seq<seq<Frag>>, k: nat)
    requires k <= |cs|
    ensures Flat(cs[..k]) <= Flat(cs)
    decreases |cs|
  {
    if k < |cs| {
      FlatPrefix(cs[..|cs| - 1], k);
      assert cs[..|cs| - 1][..k] == cs[..k];
    } else {
      assert cs[..k] == cs;
    }
  }

  lemma FlatAt(cs: seq<seq<Frag>>, k: nat, j: nat)
    requires k < |cs| && j < |cs[k]|
    ensures |Flat(cs[..k + 1])| == |Flat(cs[..k])| + |cs[k]| <= |Flat(cs)|
    ensures Flat(cs)[|Flat(cs[..k])| + j] == cs[k][j]
  {
    FlatSnoc(cs[..k], cs[k]);
    assert cs[..k + 1] == cs[..k] + [cs[k]];
    FlatPrefix(cs, k + 1);
  }

  lemma FilePrefixes(fs: seq<Frag>, i: nat, j: nat)
    requires AllOk(fs) && i <= j <= |fs|
    ensures EndOf(fs, i) <= EndOf(fs, j)
  {
    assert AllOk(fs[..j]);
    FilePrefix(fs[..j], i);
    assert fs[..j][..i] == fs[..i];
  }

  /** The kinds of a record's fragments, and what they add up to. */
  lemma NextFrag(cs: seq<seq<Frag>>, records: seq<Bytes>, k: nat, j: nat, f: Frag)
    requires AreRecords(cs, records) && k <= |cs| && (j > 0 ==> k < |cs| && j < |cs[k]|)
    requires |Flat(cs[..k])| + j < |Flat(cs)| && f == Flat(cs)[|Flat(cs[..k])| + j]
    ensures k < |cs| && j < |cs[k]| && f == cs[k][j] && |Flat(cs[..k + 1])| == |Flat(cs[..k])| + |cs[k]|
    ensures f.kind
            == if j == 0 then (if |cs[k]| == 1 then FULL else FIRST) else if j + 1 == |cs[k]| then LAST else MIDDLE
    ensures Joined(cs[k][..j + 1]) == Joined(cs[k][..j]) + f.data
    ensures j == 0 ==> Joined(cs[k][..0]) == []
    ensures j + 1 == |cs[k]| ==> Joined(cs[k][..j + 1]) == records[k]
  {
    assert cs[..|cs|] == cs;
    if k < |cs| {
      var c := cs[k];
      assert IsRecord(c, records[k]);
      FlatAt(cs, k, j);
      JoinedSnoc(c[..j], c[j]);
      assert c[..j] + [c[j]] == c[..j + 1];
      assert j + 1 < |c| ==> c[..|c| - 1][j] == c[j];
      assert c[..|c|] == c;
    }
  }

  // --- whole files ----------------------------------------------------------------------------------------

  /** How many bytes of the file the first `k` records take. */
  ghost function RecordEnd(cs: seq<seq<Frag>>, k: nat): nat
    requires AllOk(Flat(cs)) && k <= |cs|
  {
    FlatPrefix(cs, k);
    EndOf(Flat(cs), |Flat(cs[..k])|)
  }

  /** `file` is the first part of what the writer made of these records, or all of it with a torn end. */
  ghost predicate IsStart(file: Bytes, cs: seq<seq<Frag>>, written: seq<Bytes>) {
    AreRecords(cs, written) && Reads(file, Flat(cs))
  }

  /**
   Reading a file back.  If it is the first part of a file written by AddRecord calls,
   cut anywhere, or has a torn end behind them, the result is exactly the records that are
   all there, and no corruption is reported.
   */
  method ReadAll(file: Bytes, ghost cs: seq<seq<Frag>>, ghost written: seq<Bytes>)
      returns (records: seq<Bytes>, reports: nat)
    ensures IsStart(file, cs, written) ==>
              && reports == 0 && records <= written && RecordEnd(cs, |records|) <= |file|
              && (|records| < |written| ==> RecordEnd(cs, |records| + 1) > |file|)
  {
    ghost var ours := IsStart(file, cs, written);
    hide IsStart, File, EndOf, Flat, IsRecord, AreRecords, RecordEnd, AllOk, InOneBlock, Reader.AtRecord;
    hide Reader.Missing;
    var reader := new Reader(file);
    records := [];
    if ours {
      AtStart(reader, cs, written);
    }
    while true
      invariant reader.Ok() && reader.file == file && fresh(reader)
      invariant ours ==> reader.reports == 0 && records <= written && reader.AtRecord(cs, written, |records|)
      decreases |file| - reader.At()
    {
      if ours {
        SoFar(reader, cs, written, |records|);
      }
      var record := reader.ReadRecord(cs, written, |records|);
      if record.None? {
        if ours && |records| < |cs| {
          NotThere(reader, cs, |records|);
        }
        return records, reader.reports;
      }
      records := records + [record.value];
    }
  }

  lemma AtStart(reader: Reader, cs: seq<seq<Frag>>, written: seq<Bytes>)
    requires IsStart(reader.file, cs, written) && reader.At() == 0
    ensures reader.AtRecord(cs, written, 0)
  {
    assert cs[..0] == [] && Flat(cs)[..0] == [];
  }

  lemma SoFar(reader: Reader, cs: seq<seq<Frag>>, written: seq<Bytes>, k: nat)
    requires reader.AtRecord(cs, written, k)
    ensures AllOk(Flat(cs)) && k <= |cs| == |written| && RecordEnd(cs, k) <= |reader.file|
  {
  }

  lemma NotThere(reader: Reader, cs: seq<seq<Frag>>, k: nat)
    requires reader.Missing(cs, k)
    ensures AllOk(Flat(cs)) && k < |cs| && RecordEnd(cs, k + 1) > |reader.file|
  {
  }

  /** A log as its writer keeps it: the file, and the records added to it. */
  ghost predicate Wrote(w: Writer, cs: seq<seq<Frag>>, records: seq<Bytes>)
    reads w
  {
    w.Ok() && w.frags == Flat(cs) && AreRecords(cs, records)
  }

  /** AddRecord on a log extends its list of records by one. */
  method Log(w: Writer, record: Bytes, ghost cs: seq<seq<Frag>>, ghost records: seq<Bytes>)
      returns (ghost cs': seq<seq<Frag>>)
    requires Wrote(w, cs, records)
    modifies w
    ensures Wrote(w, cs', records + [record]) && cs <= cs' && |cs'| == |cs| + 1
  {
    hide Flat, Laid, File, IsRecord, SameOffset;
    ghost var c := w.AddRecord(record);
    cs' := cs + [c];
    FlatSnoc(cs, c);
  }

  /** How long the file was after `k` records. */
  ghost predicate SizeAfter(cs: seq<seq<Frag>>, k: nat, size: nat) {
    k <= |cs| && AllOk(Flat(cs[..k])) && size == |File(Flat(cs[..k]))|
  }

  /** Also tells how long the file was after each record. */
  method WriteAll(records: seq<Bytes>) returns (file: Bytes, ends: seq<nat>, ghost cs: seq<seq<Frag>>)
    ensures AreRecords(cs, records) && Laid(Flat(cs)) && file == File(Flat(cs))
    ensures |ends| == |records| && forall j :: 0 <= j < |ends| ==> SizeAfter(cs, j + 1, ends[j])
  {
    hide Laid, IsRecord, SameOffset, File, Flat, AllOk;
    cs, ends := [], [];
    NothingLaid();
    var w := new Writer([], []);
    var i := 0;
    while i < |records|
      invariant 0 <= i <= |records| && fresh(w) && Wrote(w, cs, records[..i])
      invariant |ends| == i == |cs| && forall j :: 0 <= j < i ==> SizeAfter(cs, j + 1, ends[j])
    {
      ghost var before := cs;
      cs := Log(w, records[i], cs, records[..i]);
      assert records[..i + 1] == records[..i] + [records[i]];
      forall j | 0 <= j < i ensures SizeAfter(cs, j + 1, ends[j]) {
        assert cs[..j + 1] == before[..j + 1] && SizeAfter(before, j + 1, ends[j]);
      }
      assert cs[..i + 1] == cs;
      LaidOk(w.frags);
      ends := ends + [|w.dest|];
      i := i + 1;
    }
    assert records[..i] == records;
    return w.dest, ends, cs;
  }

  lemma NothingLaid()
    ensures Laid([]) && Flat([]) == [] && File([]) == []
  {
  }

  /**
   Writing records, losing the file from byte `cut` on, and reading what is left: exactly
   the records that were complete at that length are read, and no error is reported.  So
   what had been synced before the cut is read back.
   */
  method RoundTrip(records: seq<Bytes>, cut: nat)
      returns (read: seq<Bytes>, reports: nat, ends: seq<nat>, ghost cs: seq<seq<Frag>>)
    ensures AreRecords(cs, records) && Laid(Flat(cs)) && |ends| == |records|
    ensures forall i :: 0 <= i < |records| ==> SizeAfter(cs, i + 1, ends[i])
    ensures reports == 0 && read <= records
    ensures forall i :: 0 <= i < |records| ==> (i < |read| <==> ends[i] <= cut)
  {
    hide Flat, File, IsRecord, RecordEnd, EndOf, AllOk, Place, FragOk;
    var file;
    file, ends, cs := WriteAll(records);
    var left := if cut < |file| then file[..cut] else file;
    read, reports := ReadAll(left, cs, records);
    LaidOk(Flat(cs));
    forall i | 0 <= i < |records| ensures i < |read| <==> ends[i] <= cut {
      EndIs(cs, i + 1, ends[i]);
      EndsRise(cs, i + 1, |cs|);
      if i < |read| {
        EndsRise(cs, i + 1, |read|);
      } else {
        EndsRise(cs, |read| + 1, i + 1);
      }
    }
  }

  /**
   After `records` an append failed: it left the header of a fragment and the first `n`
   bytes of its data, and writing went on.  As long as what followed is shorter than what
   is missing, none of it is read, synced or not, and no corruption is reported.
   */
  method ReadBehindTear(records: seq<Bytes>, kind: nat, data: Bytes, n: nat, rest: Bytes)
      returns (read: seq<Bytes>, reports: nat, ghost cs: seq<seq<Frag>>)
    requires FULL <= kind <= LAST && |data| < 65536 && n + |rest| < |data|
    ensures AreRecords(cs, records) && Laid(Flat(cs))
    ensures Place(|File(Flat(cs))|) % 32768 + HEADER_SIZE + |data| <= BLOCK_SIZE ==> read == records && reports == 0
  {
    hide Flat, File, IsRecord, RecordEnd, EndOf, AllOk, Place, FragOk, Header, LengthAt, EndsTorn, Laid, Padded;
    var file, ends;
    file, ends, cs := WriteAll(records);
    LaidOk(Flat(cs));
    var torn := Padded(file) + (Header(kind, data) + data[..n] + rest);
    ghost var fits := Place(|File(Flat(cs))|) % 32768 + HEADER_SIZE + |data| <= BLOCK_SIZE;
    if fits {
      TornEnd(torn, Flat(cs), kind, data, n, rest);
    }
    read, reports := ReadAll(torn, cs, records);
    if fits {
      NothingCutOff(cs, torn, |read|);
    }
  }

  lemma TornEnd(file: Bytes, fs: seq<Frag>, kind: nat, data: Bytes, n: nat, rest: Bytes)
    requires Laid(fs) && AllOk(fs) && FULL <= kind <= LAST && |data| < 65536 && n + |rest| < |data|
    requires file == Padded(File(fs)) + (Header(kind, data) + data[..n] + rest)
    requires Place(|File(fs)|) % 32768 + HEADER_SIZE + |data| <= BLOCK_SIZE
    ensures EndsTorn(file, fs)
  {
    hide File, Place, Padded;
    var p := Place(|File(fs)|);
    assert file[p..] == Header(kind, data) + data[..n] + rest;
    assert file[p..][4] == |data| % 256 && file[p..][5] == |data| / 256;
  }

  lemma NothingCutOff(cs: seq<seq<Frag>>, file: Bytes, k: nat)
    requires AllOk(Flat(cs)) && File(Flat(cs)) <= file && k <= |cs|
    requires k < |cs| ==> RecordEnd(cs, k + 1) > |file|
    ensures k == |cs|
  {
    hide File, Flat, AllOk;
    if k < |cs| {
      FlatPrefix(cs, k + 1);
      FilePrefixes(Flat(cs), |Flat(cs[..k + 1])|, |Flat(cs)|);
      FileEnd(Flat(cs));
    }
  }

  lemma EndIs(cs: seq<seq<Frag>>, k: nat, size: nat)
    requires AllOk(Flat(cs)) && SizeAfter(cs, k, size)
    ensures RecordEnd(cs, k) == size
  {
    hide File, Flat, AllOk;
    FlatPrefix(cs, k);
    assert Flat(cs)[..|Flat(cs[..k])|] == Flat(cs[..k]);
  }

  /** Later records end later, the last at the end of the file. */
  lemma EndsRise(cs: seq<seq<Frag>>, j: nat, k: nat)
    requires AllOk(Flat(cs)) && j <= k <= |cs|
    ensures RecordEnd(cs, j) <= RecordEnd(cs, k) && RecordEnd(cs, |cs|) == |File(Flat(cs))|
  {
    hide File, Flat, AllOk;
    FlatPrefix(cs, j);
    FlatPrefix(cs, k);
    FlatPrefix(cs, |cs|);
    assert cs[..|cs|] == cs && Flat(cs)[..|Flat(cs)|] == Flat(cs);
    assert |Flat(cs[..j])| <= |Flat(cs[..k])| by {
      FlatPrefix(cs[..k], j);
      assert cs[..k][..j] == cs[..j];
    }
    FilePrefixes(Flat(cs), |Flat(cs[..j])|, |Flat(cs[..k])|);
  }
}
