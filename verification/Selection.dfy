/**
 Complete compaction inputs (VersionSet::SetupOtherInputs, PickCompaction,
 CompactRange) and flush placement (Version::PickLevelForMemTableOutput).
 */
module Selection {
  import opened Keys
  import opened Spec
  import opened Versions
  import opened Inputs

  // --- slices of a sorted level -------------------------------------------------

  /** `sel` is a contiguous, non-empty run of `files`. */
  ghost predicate SliceOf(files: seq<File>, sel: seq<File>) {
    exists i, j :: 0 <= i < j <= |files| && sel == files[i..j]
  }

  lemma SliceSnoc<T>(s: seq<T>, i: nat, n: nat)
    requires i <= n < |s|
    ensures s[..n][i..n] == s[i..n] && s[i..n] + [s[n]] == s[i..n + 1]
  {
  }

  lemma PrefixTake<T>(a: seq<T>, b: seq<T>)
    requires a <= b
    ensures b[..|a|] == a && forall x :: x in a ==> x in b
  {
    forall x | x in a ensures x in b {
      var i :| 0 <= i < |a| && a[i] == x;
      assert b[i] == x;
    }
  }

  ghost predicate Convex(files: seq<File>, r: Range)
  {
    forall a, c :: 0 <= a < c < |files| && Overlaps(files[a], r) && Overlaps(files[c], r) ==>
      forall b :: a < b < c ==> Overlaps(files[b], r)
  }

  /** [i, j) are the positions of the files that overlap `r`. */
  ghost predicate OverlapAt(files: seq<File>, r: Range, i: nat, j: nat)
  {
    i <= j <= |files| && forall m :: 0 <= m < |files| ==> (i <= m < j <==> Overlaps(files[m], r))
  }

  lemma {:induction false} ConvexPositions(files: seq<File>, r: Range, n: nat) returns (i: nat, j: nat)
    requires Convex(files, r) && n <= |files|
    ensures OverlapAt(files[..n], r, i, j)
  {
    if n == 0 {
      return 0, 0;
    }
    var m := n - 1;
    i, j := ConvexPositions(files, r, m);
    assert forall x :: 0 <= x < m ==> files[..m][x] == files[x] == files[..n][x];
    if Overlaps(files[m], r) {
      if i == j {
        i, j := m, n;
      } else {
        assert Overlaps(files[..m][i], r);
        assert forall x :: i < x < m ==> Overlaps(files[x], r);
        j := n;
      }
    }
  }

  lemma OverlappingLast(files: seq<File>, r: Range)
    requires files != []
    ensures var n := |files| - 1;
            Overlapping(files, r) == Overlapping(files[..n], r) + if Overlaps(files[n], r) then [files[n]] else []
  {
  }

  lemma WithoutLast(files: seq<File>, r: Range, i: nat, j: nat, n: nat)
    requires OverlapAt(files, r, i, j) && |files| == n + 1
    ensures OverlapAt(files[..n], r, if i < n then i else n, if j < n then j else n)
    ensures Overlaps(files[n], r) <==> i <= n < j
  {
    hide Overlaps;
    assert forall x :: 0 <= x < n ==> files[..n][x] == files[x];
  }

  lemma SliceWithLast(files: seq<File>, i: nat, j: nat, n: nat)
    requires |files| == n + 1 && i <= j <= n + 1
    ensures files[i..j] == files[..n][if i < n then i else n..if j < n then j else n]
                           + if i <= n < j then [files[n]] else []
  {
  }

  lemma {:induction false} OverlapAtIsSlice(files: seq<File>, r: Range, i: nat, j: nat)
    requires OverlapAt(files, r, i, j)
    ensures Overlapping(files, r) == files[i..j]
  {
    if files != [] {
      hide Overlaps, Overlapping;
      var n := |files| - 1;
      WithoutLast(files, r, i, j, n);
      OverlapAtIsSlice(files[..n], r, if i < n then i else n, if j < n then j else n);
      OverlappingLast(files, r);
      SliceWithLast(files, i, j, n);
    }
  }

  /** Files overlapping a range are contiguous in a sorted level. */
  lemma OverlappingIsSlice(files: seq<File>, r: Range) returns (i: nat, j: nat)
    requires DisjointSorted(files)
    ensures OverlapAt(files, r, i, j) && Overlapping(files, r) == files[i..j]
  {
    forall a, c | 0 <= a < c < |files| && Overlaps(files[a], r) && Overlaps(files[c], r)
      ensures forall b :: a < b < c ==> Overlaps(files[b], r)
    {
      forall b | a < b < c ensures Overlaps(files[b], r) {
        Between(files, a, b, c, r);
      }
    }
    i, j := ConvexPositions(files, r, |files|);
    assert files[..|files|] == files;
    OverlapAtIsSlice(files, r, i, j);
  }

  lemma Between(files: seq<File>, a: nat, b: nat, c: nat, r: Range)
    requires DisjointSorted(files) && a < b < c < |files|
    requires Overlaps(files[a], r) && Overlaps(files[c], r)
    ensures Overlaps(files[b], r)
  {
    assert Precedes(files[a], files[b]);
    assert Precedes(files[b], files[c]);
  }

  /** Adding boundary files to a slice lengthens the slice. */
  lemma {:induction false} ChainIsSlice(level: seq<File>, i: nat, j: nat, r: seq<File>)
    requires DisjointSorted(level) && AllOk(r) && i < j <= |level|
    requires level[i..j] <= r && BoundaryChain(level, r, j - i)
    ensures i + |r| <= |level| && r == level[i..i + |r|]
    decreases |r|
  {
    if |r| == j - i {
      assert r == level[i..j];
    } else {
      var m := |r| - 1;
      ChainPrefix(level, r, j - i);
      ChainIsSlice(level, i, j, r[..m]);
      ChainSnoc(level, i, r, m);
    }
  }

  lemma ChainSnoc(level: seq<File>, i: nat, r: seq<File>, m: nat)
    requires DisjointSorted(level) && AllOk(r) && |r| == m + 1 && m >= 1
    requires i + m <= |level| && r[..m] == level[i..i + m] && ChainStep(level, r, m)
    ensures i + m < |level| && r == level[i..i + m + 1]
  {
    LastOf(r, m);
    NextInChain(level, i, i + m, r[m]);
    SliceSnoc(level, i, i + m);
  }

  lemma LastOf<T>(s: seq<T>, m: nat)
    requires |s| == m + 1
    ensures s == s[..m] + [s[m]]
  {
  }

  lemma ChainPrefix(level: seq<File>, r: seq<File>, n: nat)
    requires AllOk(level) && AllOk(r) && n < |r| && BoundaryChain(level, r, n)
    ensures AllOk(r[..|r| - 1]) && BoundaryChain(level, r[..|r| - 1], n)
  {
    var init := r[..|r| - 1];
    forall x | n <= x < |init| ensures ChainStep(level, init, x) {
      assert ChainStep(level, r, x) && init[..x] == r[..x] && init[x] == r[x];
    }
  }

  lemma NextInChain(level: seq<File>, i: nat, n: nat, f: File)
    requires DisjointSorted(level) && i < n <= |level| && AllOk(level[i..n])
    requires exists key :: LargestKey(level[i..n], key) && LeastBoundary(level, key, f)
    ensures n < |level| && f == level[n]
  {
    var key :| LargestKey(level[i..n], key) && LeastBoundary(level, key, f);
    SliceLargest(level, i, n);
    LargestKeyUnique(level[i..n], key);
    NextIsBoundary(level, n - 1, f);
  }

  lemma SliceLargest(level: seq<File>, i: nat, j: nat)
    requires DisjointSorted(level) && i < j <= |level|
    ensures AllOk(level[i..j]) && LargestKey(level[i..j], level[j - 1].largest)
  {
    var s := level[i..j];
    LargestAscend(level);
    assert s[|s| - 1] == level[j - 1];
    forall f | f in s ensures AtOrBefore(f.largest, level[j - 1].largest) {
      var x :| 0 <= x < |s| && s[x] == f;
      assert f == level[i + x];
    }
  }

  lemma InOrder3(files: seq<File>, a: nat, b: nat, c: nat)
    requires DisjointSorted(files) && a < b < c < |files|
    ensures Before(files[a].largest, files[b].smallest) && Before(files[b].largest, files[c].smallest)
  {
    assert Precedes(files[a], files[b]) && Precedes(files[b], files[c]);
  }

  lemma NextIsBoundary(level: seq<File>, n: nat, b: File)
    requires DisjointSorted(level) && n < |level|
    requires LeastBoundary(level, level[n].largest, b)
    ensures n + 1 < |level| && b == level[n + 1]
  {
    var m :| 0 <= m < |level| && level[m] == b;
    var key := level[n].largest;
    if m <= n {
      LargestAscend(level);
    } else if m > n + 1 {
      assert level[n + 1] in level;
      InOrder3(level, n, n + 1, m);
    }
  }

  // --- what a complete selection guarantees ---------------------------------------

  /** No file left behind shares any part of a chosen file's user-key range. */
  ghost predicate Detached(files: seq<File>, sel: seq<File>)
    requires AllOk(files) && AllOk(sel)
  {
    forall f, g :: f in sel && g in files && g !in sel ==>
      f.largest.user < g.smallest.user || g.largest.user < f.smallest.user
  }

  /** Level-0 selections are detached; deeper ones are slices that end with their last user key. */
  ghost predicate Selected(level: nat, files: seq<File>, sel: seq<File>)
    requires AllOk(files) && AllOk(sel)
  {
    && sel != []
    && (forall f :: f in sel ==> f in files)
    && (level == 0 ==> Detached(files, sel))
    && (level >= 1 ==> SliceOf(files, sel) && NoBoundaryLeft(files, sel))
  }

  ghost function AllOf(files: seq<File>): iset<Entry> {
    iset e | InFiles(files, e)
  }

  ghost predicate InFiles(files: seq<File>, e: Entry) {
    exists f :: f in files && e in f.entries
  }

  /** Files left behind in the input level hold only later operations than the chosen ones. */
  lemma LeftBehindIsNewer(level: nat, files: seq<File>, sel: seq<File>, f: File, g: File)
    requires AllOk(files) && AllOk(sel) && (level >= 1 ==> DisjointSorted(files))
    requires Selected(level, files, sel) && f in sel && g in files && g !in sel && FileOk(f) && FileOk(g)
    requires Unique(AllOf(files))
    ensures Newer(Has(g), Has(f))
  {
    forall x, y | x in Has(g) && y in Has(f) && x.key.user == y.key.user
      ensures Later(x, y)
    {
      InRange(g, x);
      InRange(f, y);
      if level >= 1 {
        SliceLeftBehind(files, sel, f, g, y, x);
        assert x in AllOf(files) && y in AllOf(files);
        assert !SameNumber(x, y);
      }
    }
  }

  lemma SliceLeftBehind(files: seq<File>, sel: seq<File>, f: File, g: File, y: Entry, x: Entry)
    requires DisjointSorted(files) && AllOk(sel) && SliceOf(files, sel) && NoBoundaryLeft(files, sel)
    requires f in sel && g in files && g !in sel && FileOk(f) && FileOk(g)
    requires x in g.entries && y in f.entries && x.key.user == y.key.user
    ensures Tag(x.key) > Tag(y.key)
  {
    var i, j :| 0 <= i < j <= |files| && sel == files[i..j];
    var a, b := Locate(files, i, j, f, g);
    if b < i {
      assert Precedes(files[b], files[a]);
      TagOrder(g, f, x, y);
    } else {
      AfterSlice(files, i, j, a, b, y, x);
    }
  }

  lemma Locate(files: seq<File>, i: nat, j: nat, f: File, g: File) returns (a: nat, b: nat)
    requires i < j <= |files| && f in files[i..j] && g in files && g !in files[i..j]
    ensures i <= a < j && files[a] == f && b < |files| && files[b] == g && (b < i || j <= b)
  {
    var sel := files[i..j];
    var x :| 0 <= x < |sel| && sel[x] == f;
    b :| 0 <= b < |files| && files[b] == g;
    assert forall z :: 0 <= z < |sel| ==> sel[z] == files[i + z] && sel[z] in sel;
    a := i + x;
  }

  lemma AfterSlice(files: seq<File>, i: nat, j: nat, a: nat, b: nat, y: Entry, x: Entry)
    requires DisjointSorted(files) && i <= a < j <= b < |files| && AllOk(files[i..j])
    requires NoBoundaryLeft(files, files[i..j]) && FileOk(files[a]) && FileOk(files[b])
    requires y in files[a].entries && x in files[b].entries
    ensures x.key.user != y.key.user
  {
    SliceLargest(files, i, j);
    var last := files[j - 1].largest;
    assert AtOrBefore(files[a].largest, last) by { assert files[i..j][a - i] == files[a]; }
    assert files[b] in files;
    assert Precedes(files[j - 1], files[b]);
    InRange(files[a], y);
    InRange(files[b], x);
  }

  /** Two files in internal-key order that share a user key: the first holds the larger numbers. */
  lemma TagOrder(g: File, f: File, x: Entry, y: Entry)
    requires FileOk(g) && FileOk(f) && Before(g.largest, f.smallest)
    requires x in g.entries && y in f.entries && x.key.user == y.key.user
    ensures Tag(x.key) > Tag(y.key)
  {
    InRange(g, x);
    InRange(f, y);
  }

  // --- SetupOtherInputs ---------------------------------------------------------------

  function TotalFileSize(files: seq<File>): nat {
    if files == [] then 0 else files[0].size + TotalFileSize(files[1..])
  }

  /** MaxGrandParentOverlapBytes and ExpandedCompactionByteSizeLimit, as multiples of max_file_size. */
  function MaxGrandParentOverlapBytes(maxFileSize: nat): nat { 10 * maxFileSize }
  function ExpandedCompactionByteSizeLimit(maxFileSize: nat): nat { 25 * maxFileSize }

  /** The files of one compaction, `inputs_[0]` and `inputs_[1]`, and the user-key range of the first. */
  datatype Compaction = Compaction(level: nat, inputs0: seq<File>, inputs1: seq<File>, range: Range)

  /** The per-level vectors of a version in good order. */
  ghost predicate LevelsOk(levels: seq<seq<File>>) {
    && |levels| == NUM_LEVELS
    && AllOk(levels[0])
    && forall l :: 1 <= l < NUM_LEVELS ==> DisjointSorted(levels[l])
  }

  /** What SetupOtherInputs delivers. */
  ghost predicate Complete(levels: seq<seq<File>>, c: Compaction)
    requires LevelsOk(levels)
  {
    && c.level + 1 < NUM_LEVELS
    && AllOk(levels[c.level]) && AllOk(c.inputs0)
    && Selected(c.level, levels[c.level], c.inputs0)
    && Hull(c.inputs0, c.range) && c.inputs1 == Overlapping(levels[c.level + 1], c.range)
  }

  /** The user-key ranges of the files cover their hull. */
  ghost predicate NoGaps(files: seq<File>)
    requires AllOk(files)
  {
    forall r :: Hull(files, r) ==> Gapless(files, r)
  }

  /** Files that all meet a gapless range extend it to a gapless hull. */
  lemma CoverExtend(a: seq<File>, r: Range, b: seq<File>)
    requires AllOk(a) && AllOk(b) && Gapless(a, r)
    requires forall f :: f in a ==> Within(f, r)
    requires forall f :: f in b ==> Overlaps(f, r)
    ensures NoGaps(a + b)
  {
    forall h | Hull(a + b, h) ensures Gapless(a + b, h) {
      var low :| low in a + b && low.smallest.user == h.lo.value;
      var high :| high in a + b && high.largest.user == h.hi.value;
      assert Within(low, h);
      forall x: UserKey | h.lo.value <= x <= h.hi.value
        ensures SomeSpans(a + b, x)
      {
        if r.lo.value <= x <= r.hi.value {
          assert SomeSpans(a, x);
          var f :| f in a && Spans(f, x);
          assert f in a + b;
        } else if x < r.lo.value {
          assert low in b;
          assert Spans(low, x);
        } else {
          assert high in b;
          assert Spans(high, x);
        }
      }
    }
  }

  lemma {:induction false} HullExists(files: seq<File>) returns (r: Range)
    requires AllOk(files) && files != []
    ensures Hull(files, r) && Bounded(r)
  {
    var n := |files| - 1;
    var f := files[n];
    if n == 0 {
      r := Range(Some(f.smallest.user), Some(f.largest.user));
    } else {
      var q := HullExists(files[..n]);
      r := Range(Some(if f.smallest.user < q.lo.value then f.smallest.user else q.lo.value),
                 Some(if f.largest.user > q.hi.value then f.largest.user else q.hi.value));
      assert files == files[..n] + [f];
      var a :| a in files[..n] && a.smallest.user == q.lo.value;
      var b :| b in files[..n] && b.largest.user == q.hi.value;
      assert a in files && b in files && f in files;
    }
  }

  /** Gaps depend on which files are chosen, not on their order. */
  lemma NoGapsSameFiles(a: seq<File>, b: seq<File>)
    requires AllOk(a) && AllOk(b) && NoGaps(a) && forall f :: f in a <==> f in b
    ensures NoGaps(b)
  {
    forall r | Hull(b, r) ensures Gapless(b, r) {
      assert Hull(a, r);
      forall x: UserKey | r.lo.value <= x <= r.hi.value ensures SomeSpans(b, x) {
        assert SomeSpans(a, x);
      }
    }
  }

  /** Boundary files continue the last user key, so they leave no gap. */
  lemma {:induction false} ChainNoGaps(level: seq<File>, r: seq<File>, n: nat, extra: seq<File>)
    requires AllOk(level) && AllOk(r) && AllOk(extra) && n <= |r|
    requires BoundaryChain(level, r, n) && NoGaps(r[..n] + extra)
    ensures NoGaps(r + extra)
    decreases |r|
  {
    if n == |r| {
      assert r[..n] == r;
    } else {
      var m := |r| - 1;
      var init := r[..m];
      ChainPrefix(level, r, n);
      assert init[..n] == r[..n];
      ChainNoGaps(level, init, n, extra);
      assert ChainStep(level, r, m);
      BoundaryNoGap(level, init, r[m], extra);
      NoGapsSameFiles(init + extra + [r[m]], r + extra);
    }
  }

  lemma BoundaryNoGap(level: seq<File>, files: seq<File>, f: File, extra: seq<File>)
    requires AllOk(level) && AllOk(files) && AllOk(extra) && RangeOk(f)
    requires exists key :: LargestKey(files, key) && LeastBoundary(level, key, f)
    requires NoGaps(files + extra)
    ensures NoGaps(files + extra + [f])
  {
    var key :| LargestKey(files, key) && LeastBoundary(level, key, f);
    var g :| g in files && g.largest == key;
    var all := files + extra;
    assert g in all;
    var h := HullExists(all);
    assert Within(g, h);
    CoverExtend(all, h, [f]);
  }

  // --- completing a selection with its boundary files ---------------------------------

  /** A selection before boundary files are added. */
  ghost predicate Candidate(level: nat, files: seq<File>, sel: seq<File>)
    requires AllOk(files) && AllOk(sel)
  {
    && sel != []
    && (forall f :: f in sel ==> f in files)
    && (level == 0 ==> Detached(files, sel))
    && (level >= 1 ==> SliceOf(files, sel))
  }

  lemma BoundaryCompletes(level: nat, files: seq<File>, sel: seq<File>, r: seq<File>)
    requires AllOk(files) && AllOk(sel) && AllOk(r) && (level >= 1 ==> DisjointSorted(files))
    requires Candidate(level, files, sel) && sel <= r
    requires BoundaryChain(files, r, |sel|) && NoBoundaryLeft(files, r)
    ensures Selected(level, files, r)
  {
    if level == 0 {
      DetachedHasNoBoundary(files, sel, r);
    } else {
      var i, j :| 0 <= i < j <= |files| && sel == files[i..j];
      ChainIsSlice(files, i, j, r);
      assert SliceOf(files, r);
    }
  }

  lemma DetachedHasNoBoundary(files: seq<File>, sel: seq<File>, r: seq<File>)
    requires AllOk(files) && AllOk(sel) && AllOk(r) && sel != [] && Detached(files, sel)
    requires sel <= r && BoundaryChain(files, r, |sel|)
    ensures r == sel
  {
    if |r| > |sel| {
      NotInChain(files, sel, r);
    }
  }

  lemma NotInChain(files: seq<File>, sel: seq<File>, r: seq<File>)
    requires AllOk(files) && AllOk(sel) && AllOk(r) && Detached(files, sel) && sel <= r && |r| > |sel|
    ensures !ChainStep(files, r, |sel|)
  {
    PrefixTake(sel, r);
    forall key | LargestKey(sel, key) ensures !LeastBoundary(files, key, r[|sel|]) {
      if r[|sel|] in files {
        NotBoundary(files, sel, key, r[|sel|]);
      }
    }
  }

  lemma NotBoundary(files: seq<File>, sel: seq<File>, key: InternalKey, f: File)
    requires AllOk(files) && AllOk(sel) && Detached(files, sel) && LargestKey(sel, key) && f in files
    ensures !IsBoundary(f, key)
  {
    var g :| g in sel && g.largest == key;
  }

  lemma ClosedIsDetached(files: seq<File>, r: Range)
    requires AllOk(files) && Closed(files, r)
    ensures AllOk(Overlapping(files, r)) && Detached(files, Overlapping(files, r))
  {
    OverlappingOk(files, r);
  }

  /** The files that overlap a range as a candidate selection of their level. */
  lemma OverlappingIsCandidate(level: nat, files: seq<File>, r: Range)
    requires AllOk(files) && (level >= 1 ==> DisjointSorted(files)) && (level == 0 ==> Closed(files, r))
    requires Overlapping(files, r) != []
    ensures AllOk(Overlapping(files, r)) && Candidate(level, files, Overlapping(files, r))
  {
    if level == 0 {
      ClosedIsDetached(files, r);
    } else {
      var i, j := OverlappingIsSlice(files, r);
    }
  }

  /** A wider range that meets no more files meets the same files. */
  lemma {:induction false} SameCountSameFiles(files: seq<File>, r: Range, r': Range)
    requires Wider(r', r)
    ensures |Overlapping(files, r)| <= |Overlapping(files, r')|
    ensures |Overlapping(files, r)| == |Overlapping(files, r')| ==> Overlapping(files, r) == Overlapping(files, r')
  {
    if files != [] {
      SameCountSameFiles(files[..|files| - 1], r, r');
    }
  }

  lemma SubsetHull(a: seq<File>, b: seq<File>, r: Range, r': Range)
    requires AllOk(a) && AllOk(b) && Hull(a, r) && Hull(b, r') && forall f :: f in a ==> f in b
    ensures Wider(r', r)
  {
  }

  /** Choose the other-level inputs of a completed selection. */
  method OtherLevel(levels: seq<seq<File>>, level: nat, inputs0: seq<File>) returns (range: Range, inputs1: seq<File>)
    requires LevelsOk(levels) && level + 1 < NUM_LEVELS && AllOk(inputs0) && inputs0 != []
    ensures Hull(inputs0, range) && inputs1 == Overlapping(levels[level + 1], range) && AllOk(inputs1)
    ensures NoGaps(inputs0) ==> NoGaps(inputs0 + inputs1)
  {
    range := GetRange(inputs0);
    ghost var final;
    inputs1, final := GetOverlappingInputs(levels[level + 1], false, range, []);
    OverlappingOk(levels[level + 1], range);
    if NoGaps(inputs0) {
      CoverExtend(inputs0, range, inputs1);
    }
  }

  /** `r` is `sel` and the chain of boundary files that continues it to its end. */
  ghost predicate WithItsBoundary(files: seq<File>, sel: seq<File>, r: seq<File>) {
    AllOk(files) && AllOk(r) && sel <= r && BoundaryChain(files, r, |sel|) && NoBoundaryLeft(files, r)
  }

  /** The range a level is searched by: on level 0, the least one that no file straddles. */
  ghost predicate SearchRange(level: nat, files: seq<File>, range: Range, final: Range)
    requires AllOk(files)
  {
    if level > 0 then final == range
    else Closed(files, final) && Wider(final, range) && forall r :: Wider(r, range) && Closed(files, r) ==>
        Wider(r, final)
  }

  /** `wide` is everything in the level that meets the hull of `all`, with its boundary files. */
  ghost predicate IsWiderChoice(level: nat, files: seq<File>, all: seq<File>, wide: seq<File>)
    requires AllOk(files) && AllOk(all)
  {
    exists range, final ::
      && Hull(all, range) && SearchRange(level, files, range, final)
      && WithItsBoundary(files, Overlapping(files, final), wide)
  }

  lemma WiderChoice(level: nat, files: seq<File>, all: seq<File>, range: Range, final: Range, wide: seq<File>)
    requires AllOk(files) && AllOk(all) && Hull(all, range) && SearchRange(level, files, range, final)
    requires WithItsBoundary(files, Overlapping(files, final), wide)
    ensures IsWiderChoice(level, files, all, wide)
  {
  }

  /** The wider input-level selection that SetupOtherInputs tries. */
  method Expanded(levels: seq<seq<File>>, level: nat, inputs0: seq<File>, inputs1: seq<File>)
      returns (expanded0: seq<File>)
    requires LevelsOk(levels) && level + 1 < NUM_LEVELS && AllOk(inputs0) && AllOk(inputs1) && AllOk(levels[level])
    requires Selected(level, levels[level], inputs0)
    ensures AllOk(expanded0) && Selected(level, levels[level], expanded0)
    ensures forall f :: f in inputs0 ==> f in expanded0
    ensures NoGaps(inputs0 + inputs1) ==> NoGaps(expanded0 + inputs1)
    ensures IsWiderChoice(level, levels[level], inputs0 + inputs1, expanded0)
  {
    var files := levels[level];
    var all := GetRange(inputs0 + inputs1);
    var found, final := GetOverlappingInputs(files, level == 0, all, inputs0 + inputs1);
    HullOverlapped(inputs0 + inputs1, all, final);
    assert forall f :: f in inputs0 ==> f in inputs0 + inputs1;
    assert forall f :: f in inputs0 ==> f in found;
    assert inputs0[0] in found;
    OverlappingIsCandidate(level, files, final);
    expanded0 := AddBoundaryInputs(files, found);
    WiderChoice(level, files, inputs0 + inputs1, all, final, expanded0);
    BoundaryCompletes(level, files, found, expanded0);
    PrefixTake(found, expanded0);
    if NoGaps(inputs0 + inputs1) {
      ExpandedNoGaps(level, files, inputs0, inputs1, all, final);
      ChainNoGaps(files, expanded0, |found|, inputs1);
    }
  }

  lemma {:induction false} OverlappingOk(files: seq<File>, r: Range)
    requires AllOk(files)
    ensures AllOk(Overlapping(files, r))
  {
    if files != [] {
      OverlappingOk(files[..|files| - 1], r);
    }
  }

  lemma HullOverlapped(files: seq<File>, hull: Range, r: Range)
    requires AllOk(files) && Hull(files, hull) && Wider(r, hull)
    ensures forall f :: f in files ==> Overlaps(f, r) && Within(f, r)
  {
    forall f | f in files ensures Overlaps(f, r) && Within(f, r) {
      assert Within(f, hull);
    }
  }

  lemma ExpandedNoGaps(level: nat, files: seq<File>, inputs0: seq<File>, inputs1: seq<File>, all: Range, final: Range)
    requires AllOk(files) && AllOk(inputs0) && AllOk(inputs1) && AllOk(Overlapping(files, final))
    requires Hull(inputs0 + inputs1, all) && Bounded(all) && NoGaps(inputs0 + inputs1) && Wider(final, all)
    requires level >= 1 ==> final == all
    requires level == 0 ==> Closed(files, final)
    requires level == 0 && Gapless(files + (inputs0 + inputs1), all) ==>
               Gapless(Overlapping(files, final) + (inputs0 + inputs1), final)
    requires forall f :: f in inputs0 ==> f in Overlapping(files, final)
    ensures NoGaps(Overlapping(files, final) + inputs1)
  {
    var a, found := inputs0 + inputs1, Overlapping(files, final);
    assert Gapless(a, all);
    HullOverlapped(a, all, final);
    if level == 0 {
      MoreFilesCover(a, files, all);
      CoverExtend(found + a, final, []);
      NoGapsSameFiles(found + a + [], found + inputs1);
    } else {
      CoverExtend(a, all, found);
      NoGapsSameFiles(a + found, found + inputs1);
    }
  }

  lemma MoreFilesCover(a: seq<File>, b: seq<File>, r: Range)
    requires AllOk(a) && AllOk(b) && Gapless(a, r)
    ensures Gapless(b + a, r)
  {
    forall x: UserKey | r.lo.value <= x <= r.hi.value ensures SomeSpans(b + a, x) {
      assert SomeSpans(a, x);
      var f :| f in a && Spans(f, x);
      assert f in b + a;
    }
  }

  /** A complete selection together with what it was asked to contain. */
  ghost predicate CompleteFor(levels: seq<seq<File>>, level: nat, chosen: seq<File>, c: Compaction)
    requires LevelsOk(levels) && AllOk(chosen)
  {
    && c.level == level && Complete(levels, c) && AllOk(c.inputs1)
    && (forall f :: f in chosen ==> f in c.inputs0)
    && (NoGaps(chosen) ==> NoGaps(c.inputs0 + c.inputs1))
  }

  /** Complete a candidate selection of the input level. */
  method WithBoundary(level: nat, files: seq<File>, chosen: seq<File>) returns (inputs0: seq<File>)
    requires AllOk(files) && AllOk(chosen) && (level >= 1 ==> DisjointSorted(files)) && Candidate(level, files, chosen)
    ensures AllOk(inputs0) && Selected(level, files, inputs0) && WithItsBoundary(files, chosen, inputs0)
    ensures forall f :: f in chosen ==> f in inputs0
    ensures NoGaps(chosen) ==> NoGaps(inputs0)
  {
    inputs0 := AddBoundaryInputs(files, chosen);
    BoundaryCompletes(level, files, chosen, inputs0);
    PrefixTake(chosen, inputs0);
    if NoGaps(chosen) {
      assert chosen + [] == chosen && inputs0 + [] == inputs0;
      ChainNoGaps(files, inputs0, |chosen|, []);
    }
  }

  /** The first half of SetupOtherInputs: boundary files, then the overlapping files of the next level. */
  method FirstInputs(levels: seq<seq<File>>, level: nat, chosen: seq<File>) returns (c: Compaction)
    requires LevelsOk(levels) && level + 1 < NUM_LEVELS && AllOk(levels[level]) && AllOk(chosen)
    requires Candidate(level, levels[level], chosen)
    ensures CompleteFor(levels, level, chosen, c) && WithItsBoundary(levels[level], chosen, c.inputs0)
  {
    var inputs0 := WithBoundary(level, levels[level], chosen);
    var range, inputs1 := OtherLevel(levels, level, inputs0);
    c := Compaction(level, inputs0, inputs1, range);
    CompleteOf(levels, c);
  }

  lemma CompleteOf(levels: seq<seq<File>>, c: Compaction)
    requires LevelsOk(levels) && c.level + 1 < NUM_LEVELS && AllOk(levels[c.level]) && AllOk(c.inputs0)
    requires Selected(c.level, levels[c.level], c.inputs0)
    requires Hull(c.inputs0, c.range) && c.inputs1 == Overlapping(levels[c.level + 1], c.range)
    ensures Complete(levels, c)
  {
  }

  /** `c` is complete and reads at least what `first` reads, with the same next-level files. */
  ghost predicate Extends(levels: seq<seq<File>>, first: Compaction, c: Compaction)
    requires LevelsOk(levels) && AllOk(first.inputs0) && AllOk(first.inputs1)
  {
    && c.level == first.level && Complete(levels, c) && c.inputs1 == first.inputs1
    && (forall f :: f in first.inputs0 ==> f in c.inputs0)
    && (NoGaps(first.inputs0 + first.inputs1) ==> NoGaps(c.inputs0 + c.inputs1))
  }

  /** Equal size of the two next-level selections means the same files. */
  lemma SameNextLevel(next: seq<File>, first: Compaction, expanded0: seq<File>, r: Range, expanded1: seq<File>)
    requires AllOk(first.inputs0) && AllOk(expanded0) && Hull(first.inputs0, first.range) && Hull(expanded0, r)
    requires forall f :: f in first.inputs0 ==> f in expanded0
    requires first.inputs1 == Overlapping(next, first.range) && expanded1 == Overlapping(next, r)
    requires |expanded1| == |first.inputs1|
    ensures expanded1 == first.inputs1
  {
    SubsetHull(first.inputs0, expanded0, first.range, r);
    SameCountSameFiles(next, first.range, r);
  }

  /** Keep the wider selection only if the next level contributes no more files. */
  method IfNoMoreFiles(levels: seq<seq<File>>, first: Compaction, expanded0: seq<File>)
      returns (c: Compaction, range: Range)
    requires LevelsOk(levels) && Complete(levels, first) && AllOk(first.inputs1)
    requires AllOk(expanded0) && Selected(first.level, levels[first.level], expanded0)
    requires forall f :: f in first.inputs0 ==> f in expanded0
    requires NoGaps(first.inputs0 + first.inputs1) ==> NoGaps(expanded0 + first.inputs1)
    ensures Extends(levels, first, c)
    ensures Hull(expanded0, range)
    ensures c == if |Overlapping(levels[first.level + 1], range)| == |first.inputs1|
                 then Compaction(first.level, expanded0, first.inputs1, range) else first
  {
    hide LevelsOk, Complete, Extends, Selected, NoGaps, Hull, Overlapping, AllOk;
    CompleteParts(levels, first);
    var expanded1;
    range, expanded1 := OtherLevel(levels, first.level, expanded0);
    if |expanded1| != |first.inputs1| {
      ExtendsItself(levels, first);
      return first, range;
    }
    SameNextLevel(levels[first.level + 1], first, expanded0, range, expanded1);
    c := Compaction(first.level, expanded0, expanded1, range);
    CompleteOf(levels, c);
    ExtendsFirst(levels, first, c);
  }

  lemma CompleteParts(levels: seq<seq<File>>, c: Compaction)
    requires LevelsOk(levels) && Complete(levels, c)
    ensures |levels| == NUM_LEVELS && c.level + 1 < NUM_LEVELS && AllOk(levels[c.level]) && AllOk(c.inputs0)
    ensures c.inputs0 != []
    ensures Hull(c.inputs0, c.range) && c.inputs1 == Overlapping(levels[c.level + 1], c.range)
  {
  }

  lemma ExtendsFirst(levels: seq<seq<File>>, first: Compaction, c: Compaction)
    requires LevelsOk(levels) && AllOk(first.inputs0) && AllOk(first.inputs1)
    requires c.level == first.level && Complete(levels, c) && c.inputs1 == first.inputs1
    requires forall f :: f in first.inputs0 ==> f in c.inputs0
    requires AllOk(c.inputs0) && (NoGaps(first.inputs0 + first.inputs1) ==> NoGaps(c.inputs0 + c.inputs1))
    ensures Extends(levels, first, c)
  {
  }

  /**
   The wider selection replaces the first one if it has more files, is not too large and
   costs no more of the next level.
   */
  ghost predicate Widened(next: seq<File>, first: Compaction, wide: seq<File>, maxFileSize: nat, c: Compaction)
    requires AllOk(wide)
  {
    exists range :: Hull(wide, range) &&
      c == if && |wide| > |first.inputs0|
              && TotalFileSize(first.inputs1) + TotalFileSize(wide) < ExpandedCompactionByteSizeLimit(maxFileSize)
              && |Overlapping(next, range)| == |first.inputs1|
           then Compaction(first.level, wide, first.inputs1, range) else first
  }

  method Expansion(levels: seq<seq<File>>, first: Compaction) returns (expanded0: seq<File>)
    requires LevelsOk(levels) && Complete(levels, first) && AllOk(first.inputs1)
    ensures AllOk(expanded0) && Selected(first.level, levels[first.level], expanded0) && expanded0 != []
    ensures forall f :: f in first.inputs0 ==> f in expanded0
    ensures NoGaps(first.inputs0 + first.inputs1) ==> NoGaps(expanded0 + first.inputs1)
    ensures IsWiderChoice(first.level, levels[first.level], first.inputs0 + first.inputs1, expanded0)
  {
    expanded0 := Expanded(levels, first.level, first.inputs0, first.inputs1);
  }

  /** The second half: try to widen the input-level selection. */
  method TryExpand(levels: seq<seq<File>>, first: Compaction, maxFileSize: nat)
      returns (c: Compaction, ghost wide: seq<File>)
    requires LevelsOk(levels) && Complete(levels, first) && AllOk(first.inputs1)
    ensures Extends(levels, first, c)
    ensures IsWiderChoice(first.level, levels[first.level], first.inputs0 + first.inputs1, wide) && AllOk(wide)
    ensures Widened(levels[first.level + 1], first, wide, maxFileSize, c)
  {
    hide LevelsOk, Complete, Extends, Selected, NoGaps, IsWiderChoice;
    var expanded0 := Expansion(levels, first);
    wide := expanded0;
    var range;
    if |expanded0| > |first.inputs0|
       && TotalFileSize(first.inputs1) + TotalFileSize(expanded0) < ExpandedCompactionByteSizeLimit(maxFileSize) {
      c, range := IfNoMoreFiles(levels, first, expanded0);
    } else {
      c := first;
      range := GetRange(expanded0);
      ExtendsItself(levels, first);
    }
  }

  lemma ExtendsItself(levels: seq<seq<File>>, first: Compaction)
    requires LevelsOk(levels) && Complete(levels, first) && AllOk(first.inputs1)
    ensures Extends(levels, first, first)
  {
  }

  /**
   What SetupOtherInputs settles on: `first`, the chosen files with their boundary
   files and what these meet in the next level; or the wider choice, where allowed.
   */
  ghost predicate SettlesOn(levels: seq<seq<File>>, level: nat, chosen: seq<File>, maxFileSize: nat, first: Compaction,
                            wide: seq<File>, c: Compaction)
    requires LevelsOk(levels) && AllOk(chosen) && AllOk(wide)
  {
    && CompleteFor(levels, level, chosen, first) && WithItsBoundary(levels[level], chosen, first.inputs0)
    && if first.inputs1 == [] then c == first else
         && IsWiderChoice(level, levels[level], first.inputs0 + first.inputs1, wide)
         && Widened(levels[level + 1], first, wide, maxFileSize, c)
  }

  ghost predicate GrandparentsOf(levels: seq<seq<File>>, c: Compaction, grandparents: seq<File>)
    requires LevelsOk(levels) && AllOk(c.inputs0) && AllOk(c.inputs1)
  {
    if c.level + 2 >= NUM_LEVELS then grandparents == []
    else exists all :: Hull(c.inputs0 + c.inputs1, all) && grandparents == Overlapping(levels[c.level + 2], all)
  }

  /** The grandparents, for bounding outputs, and where the next compaction of the level starts. */
  method Surroundings(levels: seq<seq<File>>, c: Compaction) returns (grandparents: seq<File>, pointer: InternalKey)
    requires LevelsOk(levels) && AllOk(c.inputs0) && AllOk(c.inputs1) && c.inputs0 != []
    ensures GrandparentsOf(levels, c, grandparents) && LargestKey(c.inputs0, pointer)
  {
    var all := GetRange(c.inputs0 + c.inputs1);
    grandparents := [];
    if c.level + 2 < NUM_LEVELS {
      ghost var final;
      grandparents, final := GetOverlappingInputs(levels[c.level + 2], false, all, []);
    }
    pointer := FindLargestKey(c.inputs0);
  }

  /**
   SetupOtherInputs: boundary files for the input level, every overlapping file of
   the next level, and a wider input-level selection when it costs nothing more.
   As in the code, the next level gets no boundary files of its own.
   */
  method SetupOtherInputs(levels: seq<seq<File>>, level: nat, chosen: seq<File>, maxFileSize: nat)
      returns (c: Compaction, grandparents: seq<File>, pointer: InternalKey, ghost first: Compaction,
               ghost wide: seq<File>)
    requires LevelsOk(levels) && level + 1 < NUM_LEVELS && AllOk(levels[level]) && AllOk(chosen)
    requires Candidate(level, levels[level], chosen)
    ensures CompleteFor(levels, level, chosen, c)
    ensures AllOk(wide) && SettlesOn(levels, level, chosen, maxFileSize, first, wide, c)
    ensures GrandparentsOf(levels, c, grandparents) && LargestKey(c.inputs0, pointer)
  {
    hide LevelsOk, Extends, Selected, NoGaps, IsWiderChoice, WithItsBoundary, Widened, Candidate;
    c := FirstInputs(levels, level, chosen);
    first, wide := c, [];
    if c.inputs1 != [] {
      c, wide := TryExpand(levels, c, maxFileSize);
      ExtendsComplete(levels, level, chosen, first, c);
    }
    CompleteParts(levels, c);
    grandparents, pointer := Surroundings(levels, c);
  }

  lemma ExtendsComplete(levels: seq<seq<File>>, level: nat, chosen: seq<File>, first: Compaction, c: Compaction)
    requires LevelsOk(levels) && AllOk(chosen) && CompleteFor(levels, level, chosen, first) && Extends(levels, first, c)
    ensures CompleteFor(levels, level, chosen, c)
  {
  }

  lemma OneFileNoGaps(f: File)
    requires RangeOk(f)
    ensures NoGaps([f])
  {
    forall r | Hull([f], r) ensures Gapless([f], r) {
      forall x: UserKey | r.lo.value <= x <= r.hi.value ensures SomeSpans([f], x) {
        assert f in [f] && Spans(f, x);
      }
    }
  }

  /** Why a compaction is due: a level over its size limit (and where it stopped last), or a file charged with seeks. */
  datatype Reason = SizeOf(level: nat, compactPointer: Option<InternalKey>) | SeekOf(level: nat, file: File)

  /**
   The file a compaction starts from: the one charged, or the first that ends after the
   last compaction's pointer, wrapping around.
   */
  ghost predicate Picked(files: seq<File>, why: Reason, f: File) {
    match why
    case SeekOf(_, file) => f == file
    case SizeOf(_, pointer) =>
      if pointer.Some? && NoneAfter(files, pointer.value) then files != [] && f == files[0]
      else exists i :: 0 <= i < |files| && f == files[i] && FirstAfter(files, pointer, i)
  }

  ghost predicate FirstAfter(files: seq<File>, pointer: Option<InternalKey>, i: nat)
    requires i < |files|
  {
    if pointer.None? then i == 0 else Before(pointer.value, files[i].largest) && NoneAfter(files[..i], pointer.value)
  }

  ghost predicate NoneAfter(files: seq<File>, pointer: InternalKey) {
    forall j :: 0 <= j < |files| ==> !Before(pointer, files[j].largest)
  }

  lemma PickedAt(files: seq<File>, why: Reason, i: nat, f: File)
    requires why.SizeOf? && files != [] && i <= |files| && f == if i < |files| then files[i] else files[0]
    requires if why.compactPointer.None? then i == 0 else NoneAfter(files[..i], why.compactPointer.value)
    requires i < |files| && why.compactPointer.Some? ==> Before(why.compactPointer.value, files[i].largest)
    ensures Picked(files, why, f) && f in files
  {
    hide Before;
    if i < |files| {
      assert FirstAfter(files, why.compactPointer, i);
    } else {
      assert files[..i] == files;
    }
  }

  method PickFile(files: seq<File>, why: Reason) returns (f: File)
    requires files != [] && (why.SeekOf? ==> why.file in files)
    ensures Picked(files, why, f) && f in files
  {
    match why {
      case SizeOf(level, pointer) =>
        var i := 0;
        while i < |files| && pointer.Some? && !Before(pointer.value, files[i].largest)
          invariant 0 <= i <= |files|
          invariant if pointer.None? then i == 0 else NoneAfter(files[..i], pointer.value)
        {
          assert files[..i + 1] == files[..i] + [files[i]];
          i := i + 1;
        }
        f := if i < |files| then files[i] else files[0];
        PickedAt(files, why, i, f);
      case SeekOf(level, file) =>
        f := file;
    }
  }

  /** PickCompaction: the inputs it settles on never leave a gap in the user-key range they span. */
  method PickCompaction(levels: seq<seq<File>>, why: Reason, maxFileSize: nat)
      returns (c: Compaction, grandparents: seq<File>, pointer: InternalKey, ghost picked: File)
    requires LevelsOk(levels) && why.level + 1 < NUM_LEVELS && levels[why.level] != [] && AllOk(levels[why.level])
    requires why.SeekOf? ==> why.file in levels[why.level]
    ensures c.level == why.level && Complete(levels, c) && AllOk(c.inputs1)
    ensures NoGaps(c.inputs0 + c.inputs1)
    ensures Picked(levels[why.level], why, picked) && picked in c.inputs0
    ensures GrandparentsOf(levels, c, grandparents) && LargestKey(c.inputs0, pointer)
  {
    hide Picked, GrandparentsOf, LargestKey, SettlesOn;
    var files := levels[why.level];
    var f := PickFile(files, why);
    picked := f;
    var chosen := ExpandPick(files, why.level, f);
    ghost var first, wide;
    c, grandparents, pointer, first, wide := SetupOtherInputs(levels, why.level, chosen, maxFileSize);
  }

  /** On level 0, a picked file brings along every file it overlaps, directly or not. */
  method ExpandPick(files: seq<File>, level: nat, picked: File) returns (chosen: seq<File>)
    requires AllOk(files) && (level >= 1 ==> DisjointSorted(files)) && picked in files
    ensures AllOk(chosen) && Candidate(level, files, chosen) && NoGaps(chosen) && picked in chosen
    ensures level >= 1 ==> chosen == [picked]
    ensures level == 0 ==> exists range, final ::
              Hull([picked], range) && SearchRange(0, files, range, final) && chosen == Overlapping(files, final)
  {
    chosen := [picked];
    OneFileNoGaps(picked);
    if level == 0 {
      var range := GetRange(chosen);
      var final;
      MoreFilesCover(chosen, files, range);
      chosen, final := GetOverlappingInputs(files, true, range, chosen);
      HullOverlapped([picked], range, final);
      assert picked in chosen;
      OverlappingIsCandidate(0, files, final);
      CoverExtend(chosen + [picked], final, []);
      NoGapsSameFiles(chosen + [picked] + [], chosen);
    } else {
      var n :| 0 <= n < |files| && files[n] == picked;
      assert chosen == files[n..n + 1];
      assert Candidate(level, files, chosen);
    }
  }

  /** A selection cut short where its size reaches the limit. */
  ghost predicate CutAt(all: seq<File>, limit: nat, part: seq<File>) {
    && part <= all && part != [] && TotalFileSize(part[..|part| - 1]) < limit
    && (part == all || TotalFileSize(part) >= limit)
  }

  lemma {:induction false} TotalSnoc(files: seq<File>, f: File)
    ensures TotalFileSize(files + [f]) == TotalFileSize(files) + f.size
  {
    if files == [] {
      assert [f] == files + [f];
    } else {
      assert (files + [f])[1..] == files[1..] + [f];
      TotalSnoc(files[1..], f);
    }
  }

  /** Manual compactions of deeper levels take no more than about one file's worth. */
  method Cut(all: seq<File>, limit: nat) returns (part: seq<File>)
    requires all != [] && limit > 0
    ensures CutAt(all, limit, part)
  {
    var total, i := 0, 0;
    while i < |all|
      invariant 0 <= i <= |all| && total == TotalFileSize(all[..i]) < limit
    {
      assert all[..i + 1] == all[..i] + [all[i]];
      TotalSnoc(all[..i], all[i]);
      total := total + all[i].size;
      if total >= limit {
        part := all[..i + 1];
        assert part[..i] == all[..i];
        return;
      }
      i := i + 1;
    }
    part := all;
    assert all[..|all|] == all;
    assert all == all[..|all| - 1] + [all[|all| - 1]];
    TotalSnoc(all[..|all| - 1], all[|all| - 1]);
  }

  /** CompactRange (manual): a complete selection, but its files may leave gaps. */
  method CompactRange(levels: seq<seq<File>>, level: nat, range: Range, maxFileSize: nat)
      returns (c: Option<Compaction>)
    requires LevelsOk(levels) && level + 1 < NUM_LEVELS && AllOk(levels[level]) && maxFileSize > 0
    ensures c.None? <==> forall f :: f in levels[level] ==> !Overlaps(f, range)
    ensures c.Some? ==> c.value.level == level && Complete(levels, c.value)
    ensures c.Some? && level == 0 ==> forall f :: f in levels[0] && Overlaps(f, range) ==> f in c.value.inputs0
    ensures c.Some? && level > 0 ==>
              exists part :: CutAt(Overlapping(levels[level], range), maxFileSize, part) && forall f :: f in part ==>
                  f in c.value.inputs0
  {
    hide SettlesOn, GrandparentsOf, LargestKey, NoGaps;
    var files := levels[level];
    var inputs, final := GetOverlappingInputs(files, level == 0, range, []);
    SearchMeets(level, files, range, final);
    if inputs == [] {
      assert forall f :: f in files ==> !Overlaps(f, final);
      return None;
    }
    assert inputs[0] in files && Overlaps(inputs[0], final);
    OverlappingIsCandidate(level, files, final);
    ghost var all := inputs;
    if level > 0 {
      inputs := Cut(inputs, maxFileSize);
      PrefixIsCandidate(level, files, all, |inputs|);
    }
    var d, grandparents, pointer;
    ghost var first, wide;
    d, grandparents, pointer, first, wide := SetupOtherInputs(levels, level, inputs, maxFileSize);
    c := Some(d);
  }

  /** A range and the one it was widened to meet nothing together, or both something. */
  lemma SearchMeets(level: nat, files: seq<File>, range: Range, final: Range)
    requires AllOk(files) && SearchRange(level, files, range, final)
    ensures forall f :: f in files && Overlaps(f, range) ==> Overlaps(f, final)
    ensures (forall f :: f in files ==> !Overlaps(f, range)) ==> forall f :: f in files ==> !Overlaps(f, final)
  {
    if forall f :: f in files ==> !Overlaps(f, range) {
      assert Closed(files, range);
      assert Wider(range, final);
    }
  }

  lemma PrefixIsCandidate(level: nat, files: seq<File>, sel: seq<File>, cut: nat)
    requires AllOk(files) && AllOk(sel) && level >= 1 && Candidate(level, files, sel) && 1 <= cut <= |sel|
    ensures AllOk(sel[..cut]) && Candidate(level, files, sel[..cut])
  {
    var i, j :| 0 <= i < j <= |files| && sel == files[i..j];
    assert sel[..cut] == files[i..i + cut];
  }

  /** IsTrivialMove, given the grandparents' total size. */
  predicate IsTrivialMove(c: Compaction, grandparentBytes: nat, maxFileSize: nat) {
    |c.inputs0| == 1 && |c.inputs1| == 0 && grandparentBytes <= MaxGrandParentOverlapBytes(maxFileSize)
  }

  // --- PickLevelForMemTableOutput -------------------------------------------------------

  /** SomeFileOverlapsRange: a scan on level 0, one binary search on the sorted levels. */
  method SomeFileOverlapsRange(disjoint: bool, files: seq<File>, range: Range) returns (r: bool)
    requires AllOk(files) && (disjoint ==> DisjointSorted(files))
    ensures r <==> exists f :: f in files && Overlaps(f, range)
  {
    if !disjoint {
      for i := 0 to |files|
        invariant forall f :: f in files[..i] ==> !Overlaps(f, range)
      {
        assert files[..i + 1] == files[..i] + [files[i]];
        if Overlaps(files[i], range) {
          return true;
        }
      }
      assert files[..|files|] == files;
      return false;
    }
    var index := 0;
    if range.lo.Some? {
      index := FindFile(files, InternalKey(range.lo.value, MAX_SEQUENCE, Value));
    }
    if index >= |files| {
      forall f | f in files ensures !Overlaps(f, range) {
        var j :| 0 <= j < |files| && files[j] == f;
        EndsBefore(f, range.lo.value);
      }
      return false;
    }
    r := !(range.hi.Some? && range.hi.value < files[index].smallest.user);
    FirstDecides(files, range, index);
  }

  /** A file ending before the earliest key for `u` has no entry for `u`: sequence numbers are bounded. */
  lemma EndsBefore(f: File, u: UserKey)
    requires RangeOk(f)
    ensures Before(f.largest, InternalKey(u, MAX_SEQUENCE, Value)) <==> f.largest.user < u
  {
  }

  lemma FirstDecides(files: seq<File>, range: Range, index: nat)
    requires DisjointSorted(files) && index < |files|
    requires range.lo.None? ==> index == 0
    requires range.lo.Some? ==> FirstNotBefore(files, InternalKey(range.lo.value, MAX_SEQUENCE, Value), index)
    ensures (exists f :: f in files && Overlaps(f, range))
            <==> !(range.hi.Some? && range.hi.value < files[index].smallest.user)
  {
    var g := files[index];
    assert g in files;
    if range.lo.Some? { EndsBefore(g, range.lo.value); }
    forall f | f in files && Overlaps(f, range)
      ensures range.hi.Some? ==> g.smallest.user <= range.hi.value
    {
      var j :| 0 <= j < |files| && files[j] == f;
      if range.lo.Some? { EndsBefore(f, range.lo.value); }
      if j > index {
        assert Precedes(g, f);
      }
    }
  }

  const MAX_MEM_COMPACT_LEVEL := 2

  ghost predicate SomeMeets(files: seq<File>, range: Range) {
    exists f :: f in files && Overlaps(f, range)
  }

  /**
   A table over `range` may move from level `l` to the next: it meets nothing there, and
   not too much one level on.
   */
  ghost predicate MayDescend(levels: seq<seq<File>>, range: Range, maxFileSize: nat, l: nat)
    requires LevelsOk(levels) && l + 1 < NUM_LEVELS
  {
    && !SomeMeets(levels[l + 1], range)
    && (l + 2 < NUM_LEVELS ==>
          TotalFileSize(Overlapping(levels[l + 2], range)) <= MaxGrandParentOverlapBytes(maxFileSize))
  }

  /** The level for a table over `range`: as deep as it may go. */
  ghost predicate PicksLevel(levels: seq<seq<File>>, range: Range, maxFileSize: nat, level: nat)
    requires LevelsOk(levels)
  {
    && level <= MAX_MEM_COMPACT_LEVEL
    && if SomeMeets(levels[0], range) then level == 0
       else (forall l :: 0 <= l < level ==> MayDescend(levels, range, maxFileSize, l))
            && (level < MAX_MEM_COMPACT_LEVEL ==> !MayDescend(levels, range, maxFileSize, level))
  }

  /**
   PickLevelForMemTableOutput: a flushed table leaves level 0 only for a level it
   can reach without passing or meeting any overlapping file, and goes as deep as it may.
   */
  method PickLevelForMemTableOutput(levels: seq<seq<File>>, lo: UserKey, hi: UserKey, maxFileSize: nat)
      returns (level: nat)
    requires LevelsOk(levels)
    ensures PicksLevel(levels, Range(Some(lo), Some(hi)), maxFileSize, level)
    ensures level > 0 ==> forall l, f :: 0 <= l <= level && f in levels[l] ==> !Overlaps(f, Range(Some(lo), Some(hi)))
  {
    var range := Range(Some(lo), Some(hi));
    level := 0;
    var overlap := SomeFileOverlapsRange(false, levels[0], range);
    if !overlap {
      while level < MAX_MEM_COMPACT_LEVEL
        invariant 0 <= level <= MAX_MEM_COMPACT_LEVEL
        invariant forall l, f :: 0 <= l <= level && f in levels[l] ==> !Overlaps(f, range)
        invariant forall l :: 0 <= l < level ==> MayDescend(levels, range, maxFileSize, l)
      {
        overlap := SomeFileOverlapsRange(true, levels[level + 1], range);
        if overlap {
          break;
        }
        if level + 2 < NUM_LEVELS {
          var overlaps, final := GetOverlappingInputs(levels[level + 2], false, range, []);
          if TotalFileSize(overlaps) > MaxGrandParentOverlapBytes(maxFileSize) {
            break;
          }
        }
        level := level + 1;
      }
    }
  }
}
