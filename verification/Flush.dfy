/**
 Flushing a memtable into a version, also while a compaction runs
 (DBImpl::CompactMemTable called from inside DBImpl::DoCompactionWork), and the
 tables a compaction writes.
 */
module Flush {
  import opened Keys
  import opened Spec
  import opened Versions
  import opened Inputs
  import opened Selection
  import opened CompactionLoop
  import opened Install

  predicate Meets(f: File, g: File) {
    f.smallest.user <= g.largest.user && g.smallest.user <= f.largest.user
  }

  /** A place the table reaches without passing or meeting a file it overlaps. */
  ghost predicate PlaceOk(V: set<Placed>, P: Placed)
    requires FilesOk(V) && FileOk(P.file)
  {
    && P.level <= MAX_MEM_COMPACT_LEVEL
    && (P.level > 0 ==> forall q :: q in V && q.level <= P.level ==> !Meets(q.file, P.file))
  }

  // --- the level that is picked --------------------------------------------------------------

  function UserRange(f: File): Range {
    Range(Some(f.smallest.user), Some(f.largest.user))
  }

  ghost predicate LevelMeets(V: set<Placed>, l: nat, r: Range) {
    exists q :: q in V && q.level == l && Overlaps(q.file, r)
  }

  ghost predicate Distinct(fs: seq<File>) {
    forall i, j :: 0 <= i < j < |fs| ==> fs[i] != fs[j]
  }

  /** The files of level `l` that overlap `r`, each once. */
  ghost predicate ListsOverlaps(fs: seq<File>, V: set<Placed>, l: nat, r: Range) {
    Distinct(fs) && forall f :: f in fs <==> Placed(l, f) in V && Overlaps(f, r)
  }

  /** Together they are no larger than `limit`. */
  ghost predicate Light(V: set<Placed>, l: nat, r: Range, limit: nat) {
    exists fs :: ListsOverlaps(fs, V, l, r) && TotalFileSize(fs) <= limit
  }

  ghost predicate Descends(V: set<Placed>, r: Range, maxFileSize: nat, l: nat) {
    !LevelMeets(V, l + 1, r) && Light(V, l + 2, r, MaxGrandParentOverlapBytes(maxFileSize))
  }

  /** PickLevelForMemTableOutput puts the table there. */
  ghost predicate Picks(V: set<Placed>, P: Placed, maxFileSize: nat) {
    && P.level <= MAX_MEM_COMPACT_LEVEL
    && var r := UserRange(P.file);
       if LevelMeets(V, 0, r) then P.level == 0
       else (forall l :: 0 <= l < P.level ==> Descends(V, r, maxFileSize, l))
            && (P.level < MAX_MEM_COMPACT_LEVEL ==> !Descends(V, r, maxFileSize, P.level))
  }

  /** What PickLevelForMemTableOutput returns for the listed levels is that place, and no other. */
  lemma PickedExact(levels: seq<seq<File>>, V: set<Placed>, f: File, level: nat, maxFileSize: nat)
    requires Listing(levels, V) && LevelsOk(levels)
    ensures PicksLevel(levels, UserRange(f), maxFileSize, level) <==> Picks(V, Placed(level, f), maxFileSize)
  {
    var r := UserRange(f);
    forall l | 0 <= l < NUM_LEVELS ensures SomeMeets(levels[l], r) <==> LevelMeets(V, l, r) {
      MeetsListed(levels, V, l, r);
    }
    forall l | 0 <= l < MAX_MEM_COMPACT_LEVEL
      ensures MayDescend(levels, r, maxFileSize, l) <==> Descends(V, r, maxFileSize, l)
    {
      LightExact(levels, V, l + 2, r, MaxGrandParentOverlapBytes(maxFileSize));
    }
    hide MayDescend, Descends, SomeMeets, LevelMeets, Listing, LevelsOk;
  }

  lemma MeetsListed(levels: seq<seq<File>>, V: set<Placed>, l: nat, r: Range)
    requires Listing(levels, V) && l < NUM_LEVELS
    ensures SomeMeets(levels[l], r) <==> LevelMeets(V, l, r)
  {
    if f :| f in levels[l] && Overlaps(f, r) {
      assert Placed(l, f) in V;
    }
  }

  lemma LightExact(levels: seq<seq<File>>, V: set<Placed>, l: nat, r: Range, limit: nat)
    requires Listing(levels, V) && l < NUM_LEVELS
    ensures TotalFileSize(Overlapping(levels[l], r)) <= limit <==> Light(V, l, r, limit)
  {
    var all := Overlapping(levels[l], r);
    FilterDistinct(levels[l], r);
    assert ListsOverlaps(all, V, l, r);
    if fs :| ListsOverlaps(fs, V, l, r) && TotalFileSize(fs) <= limit {
      SmallerTotal(all, fs);
    }
  }

  lemma {:induction false} FilterDistinct(files: seq<File>, r: Range)
    requires Distinct(files)
    ensures Distinct(Filter(files, r))
  {
    if files != [] {
      var front, f := files[..|files| - 1], files[|files| - 1];
      FilterDistinct(front, r);
      assert f !in front;
    }
  }

  lemma {:induction false} TotalParts(a: seq<File>, b: seq<File>)
    ensures TotalFileSize(a + b) == TotalFileSize(a) + TotalFileSize(b)
  {
    if a == [] {
      assert a + b == b;
    } else {
      TotalParts(a[1..], b);
      assert (a + b)[1..] == a[1..] + b;
    }
  }

  /** Fewer files, each once, are not larger. */
  lemma {:induction false} SmallerTotal(a: seq<File>, b: seq<File>)
    requires Distinct(a) && forall f :: f in a ==> f in b
    ensures TotalFileSize(a) <= TotalFileSize(b)
  {
    if a != [] {
      assert a[0] in a;
      var i :| 0 <= i < |b| && b[i] == a[0];
      var rest := b[..i] + b[i + 1..];
      forall f | f in a[1..] ensures f in rest {
        assert f in a && f != a[0];
        var j :| 0 <= j < |b| && b[j] == f;
        assert rest[if j < i then j else j - 1] == f;
      }
      SmallerTotal(a[1..], rest);
      TotalParts(b[..i], b[i + 1..]);
      TotalParts(b[..i], b[i..]);
      assert b == b[..i] + b[i..] && b[i..][1..] == b[i + 1..];
    }
  }

  /** The table reaches the place picked for it. */
  lemma PickedPlaceOk(V: set<Placed>, P: Placed, maxFileSize: nat)
    requires FilesOk(V) && FileOk(P.file) && Picks(V, P, maxFileSize)
    ensures PlaceOk(V, P)
  {
    forall q | P.level > 0 && q in V && q.level <= P.level ensures !Meets(q.file, P.file) {
      assert q.level > 0 ==> Descends(V, UserRange(P.file), maxFileSize, q.level - 1);
      assert !LevelMeets(V, q.level, UserRange(P.file));
      assert !Overlaps(q.file, UserRange(P.file));
    }
  }

  /** A flushed table: only operations later than everything in the version, under a number not used before. */
  ghost predicate FlushOk(V: set<Placed>, P: Placed)
    requires FilesOk(V)
  {
    && FileOk(P.file) && PlaceOk(V, P)
    && Newer(Has(P.file), Content(V))
    && forall q :: q in V ==> q.file.number < P.file.number
  }

  lemma FlushKeepsTree(V: set<Placed>, P: Placed)
    requires TreeOk(V) && FlushOk(V, P)
    ensures TreeOk(V + {P})
  {
    forall q | q in V ensures PairOk(P, q) && PairOk(q, P) {
      forall x, y | x in Has(P.file) && y in Has(q.file) && x.key.user == y.key.user
        ensures Later(x, y) && Meets(q.file, P.file)
      {
        InContent(V, q, y);
        InRange(P.file, x);
        InRange(q.file, y);
      }
    }
  }

  /** The inputs of a job cover the user keys they span. */
  ghost predicate JobNoGaps(job: Job)
    requires FilesOk(job.inputs)
  {
    forall a, b, x :: a in job.inputs && b in job.inputs && a.file.smallest.user <= x <= b.file.largest.user
      ==> SomeInputSpans(job, x)
  }

  ghost predicate SomeInputSpans(job: Job, x: UserKey)
    requires FilesOk(job.inputs)
  {
    exists f :: f in job.inputs && Spans(f.file, x)
  }

  /** The inputs PickCompaction settles on make a job without gaps. */
  lemma PickedJobNoGaps(V: set<Placed>, c: Compaction, floor: nat)
    requires AllOk(c.inputs0) && AllOk(c.inputs1) && NoGaps(c.inputs0 + c.inputs1) && FilesOk(JobOf(V, c, floor).inputs)
    ensures JobNoGaps(JobOf(V, c, floor))
  {
    var job, all := JobOf(V, c, floor), c.inputs0 + c.inputs1;
    forall a, b, x | a in job.inputs && b in job.inputs && a.file.smallest.user <= x <= b.file.largest.user
      ensures SomeInputSpans(job, x)
    {
      assert a.file in all && b.file in all;
      var r := HullExists(all);
      assert Within(a.file, r) && Within(b.file, r);
      assert SomeSpans(all, x);
      var f :| f in all && Spans(f, x);
      var p := if f in c.inputs0 then Placed(c.level, f) else Placed(c.level + 1, f);
      assert p in job.inputs && Spans(p.file, x);
    }
  }

  /**
   A table flushed in mid-compaction to the output level or deeper stays clear of
   everything the compaction reads, hence of everything it will write.
   */
  lemma FlushMissesJob(V: set<Placed>, job: Job, P: Placed)
    requires TreeOk(V) && FlushOk(V, P) && Fits(V, job) && FilesOk(job.inputs) && JobNoGaps(job)
    requires P.level >= job.level + 1
    ensures Aside(P.file, Content(job.inputs)) && Clear(job, P)
    ensures forall e, d :: e in P.file.entries && d in Content(job.inputs) ==> e.key.user != d.key.user
  {
    forall e, d | e in P.file.entries && d in Content(job.inputs) ensures e.key.user != d.key.user {
      var f :| f in job.inputs && d in f.file.entries;
      InRange(P.file, e);
      InRange(f.file, d);
      assert !Meets(f.file, P.file);
    }
    if d0 :| d0 in Content(job.inputs) {
      var low := d0.key.user > P.file.largest.user;
      forall d | d in Content(job.inputs)
        ensures if low then Before(P.file.largest, d.key) else Before(d.key, P.file.smallest)
      {
        SameSide(V, job, P, d0, d);
      }
    }
  }

  lemma SameSide(V: set<Placed>, job: Job, P: Placed, d0: Entry, d: Entry)
    requires TreeOk(V) && FlushOk(V, P) && Fits(V, job) && FilesOk(job.inputs) && JobNoGaps(job)
    requires P.level >= job.level + 1 && d0 in Content(job.inputs) && d in Content(job.inputs)
    ensures if d0.key.user > P.file.largest.user then d.key.user > P.file.largest.user
            else d.key.user < P.file.smallest.user
  {
    var f0 :| f0 in job.inputs && d0 in f0.file.entries;
    var f :| f in job.inputs && d in f.file.entries;
    InRange(f0.file, d0);
    InRange(f.file, d);
    assert !Meets(f0.file, P.file) && !Meets(f.file, P.file);
    NoInputSpans(V, job, P, f0, f);
    NoInputSpans(V, job, P, f, f0);
  }

  /** If two inputs lay on different sides of the table, an input would span the table's first key. */
  lemma NoInputSpans(V: set<Placed>, job: Job, P: Placed, a: Placed, b: Placed)
    requires TreeOk(V) && FlushOk(V, P) && Fits(V, job) && FilesOk(job.inputs) && JobNoGaps(job)
    requires P.level >= job.level + 1 && a in job.inputs && b in job.inputs
    ensures !(a.file.smallest.user <= P.file.smallest.user <= b.file.largest.user)
  {
    var x := P.file.smallest.user;
    forall h | h in job.inputs ensures !Spans(h.file, x) {
      assert !Meets(h.file, P.file);
    }
    assert !SomeInputSpans(job, x);
  }

  /** A table at the job's output level lies on one side of everything the job reads. */
  ghost predicate Clear(job: Job, P: Placed)
    requires FileOk(P.file)
  {
    P.level == job.level + 1 ==> Aside(P.file, Content(job.inputs))
  }

  /** A job still fits after a flush that stays clear of it. */
  lemma FlushKeepsFits(V: set<Placed>, job: Job, P: Placed)
    requires TreeOk(V) && FlushOk(V, P) && Fits(V, job) && Clear(job, P)
    ensures FilesOk(V + {P}) && Fits(V + {P}, job)
  {
    forall f | f in job.inputs ensures Newer(Has(P.file), Has(f.file)) {
      forall x, y | x in Has(P.file) && y in Has(f.file) && x.key.user == y.key.user ensures Later(x, y) {
        InContent(V, f, y);
      }
    }
    assert P !in V;
  }

  // --- the tables the loop wrote -----------------------------------------------------

  /** The levels below the output level, as IsBaseLevelForKey walks them. */
  ghost function Deeper(levels: seq<seq<File>>, level: nat): seq<seq<File>>
    requires |levels| == NUM_LEVELS && level + 1 < NUM_LEVELS
  {
    levels[level + 2..]
  }

  lemma DeeperSorted(levels: seq<seq<File>>, level: nat)
    requires LevelsOk(levels) && level + 1 < NUM_LEVELS
    ensures forall l :: 0 <= l < |Deeper(levels, level)| ==>
              Deeper(levels, level)[l] == levels[level + 2 + l] && DisjointSorted(Deeper(levels, level)[l])
  {
  }

  lemma CoversListed(levels: seq<seq<File>>, V: set<Placed>, l: nat, u: UserKey)
    requires Listing(levels, V) && FilesOk(V) && 1 <= l < NUM_LEVELS && DisjointSorted(levels[l])
    ensures Covers(levels[l], u) <==> exists q :: q in V && q.level == l && Spans(q.file, u)
  {
    if Covers(levels[l], u) {
      var f: File :| f in levels[l] && f.smallest.user <= u <= f.largest.user;
      var q := Placed(l, f);
      assert q in V && q.level == l && Spans(q.file, u);
    }
    if q :| q in V && q.level == l && Spans(q.file, u) {
      assert q.file in levels[l];
    }
  }

  lemma DeeperDecides(levels: seq<seq<File>>, V: set<Placed>, level: nat, u: UserKey)
    requires Listing(levels, V) && FilesOk(V) && LevelsOk(levels) && level + 1 < NUM_LEVELS
    requires forall l :: 0 <= l < |Deeper(levels, level)| ==> DisjointSorted(Deeper(levels, level)[l])
    ensures BaseFor(Deeper(levels, level), u) <==> !CoveredBelow(V, level, u)
  {
    DeeperSorted(levels, level);
    var deeper := Deeper(levels, level);
    if CoveredBelow(V, level, u) {
      var q :| q in V && q.level >= level + 2 && Spans(q.file, u);
      CoversListed(levels, V, q.level, u);
      assert Covers(deeper[q.level - level - 2], u);
    }
    if l :| 0 <= l < |deeper| && Covers(deeper[l], u) {
      CoversListed(levels, V, level + 2 + l, u);
    }
  }

  /** The loop records the first and the last key it added as the range of the table. */
  ghost predicate RecordsRange(f: File) {
    f.entries != [] ==> f.smallest == f.entries[0].key && f.largest == f.entries[|f.entries| - 1].key
  }

  lemma OutputFileOk(f: File)
    requires f.entries != [] && Sorted(f.entries) && RecordsRange(f)
    requires forall e :: e in f.entries ==> e.key.seqno <= MAX_SEQUENCE
    ensures FileOk(f)
  {
    var n := |f.entries| - 1;
    assert f.entries[n] in f.entries;
    assert n > 0 ==> Before(f.entries[0].key, f.entries[n].key);
  }

  /** What the merge loop left behind: tables of input entries, holding all that were not dropped. */
  ghost predicate LoopDone(levels: seq<seq<File>>, job: Job, input: seq<Entry>, outputs: seq<seq<Entry>>,
                           files: seq<File>)
    requires |levels| == NUM_LEVELS && job.level + 1 < NUM_LEVELS
    requires forall l :: 0 <= l < |Deeper(levels, job.level)| ==> DisjointSorted(Deeper(levels, job.level)[l])
  {
    && Elements(input) == Content(job.inputs)
    && TablesOk(outputs) && |files| == |outputs|
    && (forall e :: InTables(outputs, e) <==>
          e in input && !Dropped(Elements(input), job.floor, Deeper(levels, job.level), e))
    && (forall i :: 0 <= i < |files| ==> files[i].entries == outputs[i] && RecordsRange(files[i]))
    && (forall i, j :: 0 <= i < j < |files| ==> files[i].number != files[j].number)
  }

  ghost function PlacedAt(files: seq<File>, level: nat): set<Placed> {
    set f | f in files :: Placed(level, f)
  }

  lemma LoopContent(levels: seq<seq<File>>, V: set<Placed>, job: Job, input: seq<Entry>, outputs: seq<seq<Entry>>,
                    files: seq<File>, e: Entry)
    requires Listing(levels, V) && FilesOk(V) && LevelsOk(levels) && job.base == V && job.level + 1 < NUM_LEVELS
    requires forall l :: 0 <= l < |Deeper(levels, job.level)| ==> DisjointSorted(Deeper(levels, job.level)[l])
    requires LoopDone(levels, job, input, outputs, files)
    ensures e in Content(PlacedAt(files, job.level + 1)) <==> e in Content(job.inputs) && e !in Drops(job)
  {
    DeeperDecides(levels, V, job.level, e.key.user);
    assert e in input <==> e in Elements(input);
    TableContent(job.level, outputs, files, e);
  }

  lemma LoopFileOk(job: Job, outputs: seq<seq<Entry>>, files: seq<File>, i: nat)
    requires FilesOk(job.inputs) && TablesOk(outputs) && |files| == |outputs| && i < |files|
    requires files[i].entries == outputs[i] && RecordsRange(files[i])
    requires forall e :: InTables(outputs, e) ==> e in Content(job.inputs)
    ensures FileOk(files[i])
  {
    forall e | e in files[i].entries ensures e.key.seqno <= MAX_SEQUENCE {
      assert e in outputs[i] && InTables(outputs, e);
      var f :| f in job.inputs && e in f.file.entries;
    }
    OutputFileOk(files[i]);
  }

  lemma LoopFilesFit(job: Job, outputs: seq<seq<Entry>>, files: seq<File>)
    requires FilesOk(job.inputs) && TablesOk(outputs) && |files| == |outputs|
    requires forall i :: 0 <= i < |files| ==> files[i].entries == outputs[i] && RecordsRange(files[i])
    requires forall i, j :: 0 <= i < j < |files| ==> files[i].number != files[j].number
    requires forall e :: InTables(outputs, e) ==> e in Content(job.inputs)
    ensures forall f :: f in files ==> FileOk(f)
    ensures forall f, g :: f in files && g in files && f != g ==> Apart(f, g) && f.number != g.number
  {
    forall f | f in files ensures FileOk(f) {
      var i :| 0 <= i < |files| && files[i] == f;
      LoopFileOk(job, outputs, files, i);
    }
    forall f, g | f in files && g in files && f != g ensures Apart(f, g) && f.number != g.number {
      LoopFilesApart(outputs, files, f, g);
    }
  }

  /** The outputs of the merge loop, numbered and placed, are what the job promises to install. */
  lemma LoopOutputsOk(levels: seq<seq<File>>, V: set<Placed>, job: Job, input: seq<Entry>, outputs: seq<seq<Entry>>,
                      files: seq<File>)
    requires Listing(levels, V) && FilesOk(V) && LevelsOk(levels) && job.base == V && job.level + 1 < NUM_LEVELS
    requires job.inputs <= V
    requires forall l :: 0 <= l < |Deeper(levels, job.level)| ==> DisjointSorted(Deeper(levels, job.level)[l])
    requires LoopDone(levels, job, input, outputs, files)
    ensures OutputsOk(job, PlacedAt(files, job.level + 1))
  {
    var O := PlacedAt(files, job.level + 1);
    forall e ensures e in Content(O) <==> e in Content(job.inputs) && e !in Drops(job) {
      LoopContent(levels, V, job, input, outputs, files, e);
    }
    forall e | InTables(outputs, e) ensures e in Content(job.inputs) {
      assert e in Elements(input);
    }
    LoopFilesFit(job, outputs, files);
  }

  lemma LoopFilesApart(outputs: seq<seq<Entry>>, files: seq<File>, f: File, g: File)
    requires TablesOk(outputs) && |files| == |outputs| && f in files && g in files && f != g && FileOk(f) && FileOk(g)
    requires forall i :: 0 <= i < |files| ==> files[i].entries == outputs[i]
    requires forall i, j :: 0 <= i < j < |files| ==> files[i].number != files[j].number
    ensures Apart(f, g) && f.number != g.number
  {
    var i :| 0 <= i < |files| && files[i] == f;
    var j :| 0 <= j < |files| && files[j] == g;
    TablesApart(outputs, i, j, f, g);
  }

  lemma TableContent(level: nat, outputs: seq<seq<Entry>>, files: seq<File>, e: Entry)
    requires |files| == |outputs| && forall i :: 0 <= i < |files| ==> files[i].entries == outputs[i]
    ensures e in Content(PlacedAt(files, level + 1)) <==> InTables(outputs, e)
  {
    var O := PlacedAt(files, level + 1);
    if e in Content(O) {
      var p :| p in O && e in p.file.entries;
      var i :| 0 <= i < |files| && files[i] == p.file;
      assert e in outputs[i];
    }
    if InTables(outputs, e) {
      var i :| 0 <= i < |outputs| && e in outputs[i];
      assert files[i] in files;
      InContent(O, Placed(level + 1, files[i]), e);
    }
  }

  lemma TablesApart(outputs: seq<seq<Entry>>, i: nat, j: nat, f: File, g: File)
    requires TablesOk(outputs) && i < |outputs| && j < |outputs| && i != j
    requires f.entries == outputs[i] && g.entries == outputs[j] && FileOk(f) && FileOk(g)
    ensures Apart(f, g)
  {
    var a, b := f.entries[0], f.entries[|f.entries| - 1];
    var c, d := g.entries[0], g.entries[|g.entries| - 1];
    assert a in outputs[i] && b in outputs[i] && c in outputs[j] && d in outputs[j];
  }
}
