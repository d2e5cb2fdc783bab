/**
 Choosing the inputs of a compaction and the level of a flushed memtable
 (VersionSet::PickCompaction, CompactRange, SetupOtherInputs, AddBoundaryInputs,
 Version::GetOverlappingInputs, SomeFileOverlapsRange, PickLevelForMemTableOutput).
 */
module Inputs {
  import opened Keys
  import opened Spec
  import opened Versions

  // --- ranges of user keys; None is an open end ------------------------------

  datatype Range = Range(lo: Option<UserKey>, hi: Option<UserKey>)

  predicate Overlaps(f: File, r: Range) {
    && !(r.lo.Some? && f.largest.user < r.lo.value)
    && !(r.hi.Some? && f.smallest.user > r.hi.value)
  }

  predicate Within(f: File, r: Range) {
    && (r.lo.Some? ==> r.lo.value <= f.smallest.user)
    && (r.hi.Some? ==> f.largest.user <= r.hi.value)
  }

  predicate Wider(r: Range, inner: Range) {
    && (r.lo.Some? ==> inner.lo.Some? && r.lo.value <= inner.lo.value)
    && (r.hi.Some? ==> inner.hi.Some? && inner.hi.value <= r.hi.value)
  }

  /** No file straddles the border of `r`. */
  ghost predicate Closed(files: seq<File>, r: Range)
    requires AllOk(files)
  {
    forall f :: f in files && Overlaps(f, r) ==> Within(f, r)
  }

  /** The files overlapping `r`, in order. */
  function Overlapping(files: seq<File>, r: Range): (fs: seq<File>)
    ensures forall f :: f in fs <==> f in files && Overlaps(f, r)
  {
    Filter(files, r)
  }

  function Filter(files: seq<File>, r: Range): (fs: seq<File>)
    ensures forall f :: f in fs <==> f in files && Overlaps(f, r)
  {
    if files == [] then []
    else
      var rest := Filter(files[..|files| - 1], r);
      var f := files[|files| - 1];
      assert files == files[..|files| - 1] + [f];
      if Overlaps(f, r) then rest + [f] else rest
  }

  /** How many file ends stick out of `r`: what a restart of the level-0 search uses up. */
  ghost function Sticking(files: seq<File>, r: Range): nat
  {
    if files == [] then 0
    else
      var f := files[0];
      assert forall g :: g in files[1..] ==> g in files;
      (if r.lo.Some? && f.smallest.user < r.lo.value then 1 else 0)
      + (if r.hi.Some? && f.largest.user > r.hi.value then 1 else 0)
      + Sticking(files[1..], r)
  }

  lemma {:induction false} StickingShrinks(files: seq<File>, r: Range, r': Range, i: int)
    requires Wider(r', r) && (r'.lo.Some? <==> r.lo.Some?) && (r'.hi.Some? <==> r.hi.Some?)
    requires 0 <= i < |files| ==>
      || (r.lo.Some? && files[i].smallest.user < r.lo.value && files[i].smallest.user >= r'.lo.value)
      || (r.hi.Some? && files[i].largest.user > r.hi.value && files[i].largest.user <= r'.hi.value)
    ensures Sticking(files, r') <= Sticking(files, r)
    ensures 0 <= i < |files| ==> Sticking(files, r') < Sticking(files, r)
  {
    if files != [] {
      assert forall g :: g in files[1..] ==> g in files;
      StickingShrinks(files[1..], r, r', i - 1);
    }
  }

  /** What a level-0 search does to its range when it meets an overlapping file: one end at a time. */
  function Widen(f: File, r: Range): Range {
    if r.lo.Some? && f.smallest.user < r.lo.value then r.(lo := Some(f.smallest.user))
    else if r.hi.Some? && f.largest.user > r.hi.value then r.(hi := Some(f.largest.user))
    else r
  }

  ghost predicate Bounded(r: Range) {
    r.lo.Some? && r.hi.Some? && r.lo.value <= r.hi.value
  }

  /** `r` is covered without gaps. */
  ghost predicate Gapless(files: seq<File>, r: Range)
  {
    Bounded(r) && CoveredBy(files, r.lo.value, r.hi.value)
  }

  /** The range reached so far: wider than asked for, never wider than needed, and still without gaps. */
  ghost predicate Reached(files: seq<File>, extra: seq<File>, range: Range, r: Range)
    requires AllOk(files) && AllOk(extra)
  {
    && Wider(r, range) && (r.lo.Some? <==> range.lo.Some?) && (r.hi.Some? <==> range.hi.Some?)
    && (forall c :: Wider(c, range) && Closed(files, c) ==> Wider(c, r))
    && (Gapless(files + extra, range) ==> Gapless(files + extra, r))
  }

  lemma WidenReaches(files: seq<File>, extra: seq<File>, range: Range, r: Range, i: nat)
    requires AllOk(files) && AllOk(extra) && Reached(files, extra, range, r) && i < |files| && Overlaps(files[i], r)
    ensures Reached(files, extra, range, Widen(files[i], r))
    ensures Widen(files[i], r) == r ==> Within(files[i], r)
    ensures Widen(files[i], r) != r ==> Sticking(files, Widen(files[i], r)) < Sticking(files, r)
  {
    var f := files[i];
    var r' := Widen(f, r);
    assert f in files;
    if r' != r {
      StickingShrinks(files, r, r', i);
    }
    forall c | Wider(c, range) && Closed(files, c) ensures Wider(c, r') {
      assert Wider(c, r) && Overlaps(f, c);
    }
    if Gapless(files + extra, range) {
      CoverGrows(files + extra, r.lo.value, r.hi.value, f, r'.lo.value, r'.hi.value);
    }
  }

  /**
   GetOverlappingInputs.  On level 0 the search restarts whenever a chosen file
   widens the range; it ends with the least range that no file straddles.
   */
  method GetOverlappingInputs(files: seq<File>, levelZero: bool, range: Range, ghost extra: seq<File>)
      returns (inputs: seq<File>, final: Range)
    requires AllOk(files) && AllOk(extra)
    ensures inputs == Overlapping(files, final)
    ensures !levelZero ==> final == range
    ensures levelZero ==> Closed(files, final) && Wider(final, range)
    ensures levelZero ==> forall r :: Wider(r, range) && Closed(files, r) ==> Wider(r, final)
    ensures levelZero && Gapless(files + extra, range) ==> Gapless(inputs + extra, final)
  {
    inputs, final := [], range;
    var i := 0;
    while i < |files|
      invariant 0 <= i <= |files|
      invariant inputs == Overlapping(files[..i], final)
      invariant !levelZero ==> final == range
      invariant levelZero ==> Reached(files, extra, range, final) && forall f :: f in inputs ==> Within(f, final)
      decreases Sticking(files, final), |files| - i
    {
      var f := files[i];
      assert files[..i + 1][..i] == files[..i];
      i := i + 1;
      if Overlaps(f, final) {
        inputs := inputs + [f];
        if levelZero {
          WidenReaches(files, extra, range, final, i - 1);
          var wider := Widen(f, final);
          if wider != final {
            final, inputs, i := wider, [], 0;
          }
        }
      }
    }
    assert files[..i] == files;
    if levelZero && Gapless(files + extra, range) {
      CoverByOverlapping(files, extra, final);
    }
  }

  // --- covering a range without gaps -----------------------------------------

  predicate Spans(f: File, x: UserKey) {
    f.smallest.user <= x <= f.largest.user
  }

  /** Every position from `lo` to `hi` lies in the user-key range of one of the files. */
  ghost predicate CoveredBy(files: seq<File>, lo: UserKey, hi: UserKey)
  {
    forall x: UserKey :: lo <= x <= hi ==> SomeSpans(files, x)
  }

  ghost predicate SomeSpans(files: seq<File>, x: UserKey)
  {
    exists f :: f in files && Spans(f, x)
  }

  /** A file that meets a covered range extends it. */
  lemma CoverGrows(files: seq<File>, lo: UserKey, hi: UserKey, f: File, lo': UserKey, hi': UserKey)
    requires f in files && CoveredBy(files, lo, hi) && lo <= hi
    requires f.smallest.user <= hi && lo <= f.largest.user
    requires lo' >= lo || lo' >= f.smallest.user
    requires hi' <= hi || hi' <= f.largest.user
    ensures CoveredBy(files, lo', hi')
  {
    forall x: UserKey | lo' <= x <= hi'
      ensures SomeSpans(files, x)
    {
      if !(lo <= x <= hi) {
        assert Spans(f, x);
      }
    }
  }

  lemma CoverByOverlapping(files: seq<File>, extra: seq<File>, r: Range)
    requires AllOk(files) && AllOk(extra)
    requires Gapless(files + extra, r)
    ensures Gapless(Overlapping(files, r) + extra, r)
  {
    var some := Overlapping(files, r) + extra;
    forall x: UserKey | r.lo.value <= x <= r.hi.value
      ensures SomeSpans(some, x)
    {
      assert SomeSpans(files + extra, x);
      var g :| g in files + extra && Spans(g, x);
      assert g in files ==> g in Overlapping(files, r);
      assert g in some;
    }
  }

  // --- GetRange, FindLargestKey ------------------------------------------------

  /** `r` is the user-key hull of `files`. */
  ghost predicate Hull(files: seq<File>, r: Range)
    requires AllOk(files)
  {
    && r.lo.Some? && r.hi.Some?
    && (forall f :: f in files ==> Within(f, r))
    && (exists f :: f in files && f.smallest.user == r.lo.value)
    && (exists f :: f in files && f.largest.user == r.hi.value)
  }

  ghost predicate LargestKey(files: seq<File>, key: InternalKey)
    requires AllOk(files)
  {
    && (forall f :: f in files ==> AtOrBefore(f.largest, key))
    && (exists f :: f in files && f.largest == key)
  }

  /** GetRange, reduced to the user keys that its callers use. */
  method GetRange(files: seq<File>) returns (r: Range)
    requires AllOk(files) && files != []
    ensures Hull(files, r) && Bounded(r)
  {
    var smallest, largest := files[0].smallest, files[0].largest;
    for i := 1 to |files|
      invariant forall f :: f in files[..i] ==> AtOrBefore(smallest, f.smallest) && AtOrBefore(f.largest, largest)
      invariant exists f :: f in files && f.smallest == smallest
      invariant exists f :: f in files && f.largest == largest
    {
      var f := files[i];
      assert files[..i + 1] == files[..i] + [f];
      if Before(f.smallest, smallest) { smallest := f.smallest; }
      if Before(largest, f.largest) { largest := f.largest; }
    }
    assert files[..|files|] == files;
    r := Range(Some(smallest.user), Some(largest.user));
  }

  method FindLargestKey(files: seq<File>) returns (largest: InternalKey)
    requires AllOk(files) && files != []
    ensures LargestKey(files, largest)
  {
    largest := files[0].largest;
    for i := 1 to |files|
      invariant forall f :: f in files[..i] ==> AtOrBefore(f.largest, largest)
      invariant exists f :: f in files && f.largest == largest
    {
      var f := files[i];
      assert files[..i + 1] == files[..i] + [f];
      if Before(largest, f.largest) { largest := f.largest; }
    }
    assert files[..|files|] == files;
  }

  // --- AddBoundaryInputs ---------------------------------------------------------

  /** `f` starts after `key`, with older operations on the same user key. */
  predicate IsBoundary(f: File, key: InternalKey) {
    Before(key, f.smallest) && f.smallest.user == key.user
  }

  ghost predicate LeastBoundary(level: seq<File>, key: InternalKey, f: File)
    requires AllOk(level)
  {
    && f in level && IsBoundary(f, key)
    && forall g :: g in level && IsBoundary(g, key) ==> AtOrBefore(f.smallest, g.smallest)
  }

  method FindSmallestBoundaryFile(level: seq<File>, key: InternalKey) returns (r: Option<File>)
    requires AllOk(level)
    ensures r.Some? ==> LeastBoundary(level, key, r.value)
    ensures r.None? ==> forall f :: f in level ==> !IsBoundary(f, key)
  {
    r := None;
    for i := 0 to |level|
      invariant r.Some? ==> r.value in level && IsBoundary(r.value, key)
      invariant r.Some? ==> forall g :: g in level[..i] && IsBoundary(g, key) ==>
                  AtOrBefore(r.value.smallest, g.smallest)
      invariant r.None? ==> forall f :: f in level[..i] ==> !IsBoundary(f, key)
    {
      var f := level[i];
      assert level[..i + 1] == level[..i] + [f];
      if IsBoundary(f, key) {
        if r.None? || Before(f.smallest, r.value.smallest) {
          r := Some(f);
        }
      }
    }
    assert level[..|level|] == level;
  }

  /** Files that start after `key`: every boundary file added uses one up. */
  ghost function CountAfter(level: seq<File>, key: InternalKey): nat
  {
    if level == [] then 0
    else
      assert forall g :: g in level[1..] ==> g in level;
      (if Before(key, level[0].smallest) then 1 else 0) + CountAfter(level[1..], key)
  }

  lemma {:induction false} CountAfterShrinks(level: seq<File>, key: InternalKey, f: File)
    requires AllOk(level) && RangeOk(f) && Before(key, f.smallest)
    ensures CountAfter(level, f.largest) <= CountAfter(level, key)
    ensures f in level ==> CountAfter(level, f.largest) < CountAfter(level, key)
  {
    if level != [] {
      CountAfterShrinks(level[1..], key, f);
    }
  }

  /** The files AddBoundaryInputs appends: each the least boundary file of what is already there. */
  ghost predicate BoundaryChain(level: seq<File>, files: seq<File>, n: nat)
    requires AllOk(level) && AllOk(files)
  {
    forall m :: n <= m < |files| ==> ChainStep(level, files, m)
  }

  ghost predicate ChainStep(level: seq<File>, files: seq<File>, m: nat)
    requires AllOk(level) && AllOk(files) && m < |files|
  {
    exists key :: LargestKey(files[..m], key) && LeastBoundary(level, key, files[m])
  }

  /** Nothing in `level` continues the user key in which `files` end. */
  ghost predicate NoBoundaryLeft(level: seq<File>, files: seq<File>)
    requires AllOk(level) && AllOk(files)
  {
    forall key, f :: LargestKey(files, key) && f in level ==> !IsBoundary(f, key)
  }

  method AddBoundaryInputs(level: seq<File>, files: seq<File>) returns (r: seq<File>)
    requires AllOk(level) && AllOk(files)
    ensures AllOk(r) && files <= r
    ensures BoundaryChain(level, r, |files|)
    ensures NoBoundaryLeft(level, r)
  {
    r := files;
    if files == [] {
      return;
    }
    var largest := FindLargestKey(files);
    var searching := true;
    while searching
      invariant AllOk(r) && files <= r && LargestKey(r, largest)
      invariant BoundaryChain(level, r, |files|)
      invariant !searching ==> forall f :: f in level ==> !IsBoundary(f, largest)
      decreases searching, CountAfter(level, largest)
    {
      var b := FindSmallestBoundaryFile(level, largest);
      if b.Some? {
        CountAfterShrinks(level, largest, b.value);
        ChainGrows(level, r, |files|, largest, b.value);
        r := r + [b.value];
        largest := b.value.largest;
      } else {
        searching := false;
      }
    }
    LargestKeyUnique(r, largest);
  }

  lemma LargestKeyUnique(files: seq<File>, key: InternalKey)
    requires AllOk(files) && LargestKey(files, key)
    ensures forall k :: LargestKey(files, k) ==> k == key
  {
    forall k | LargestKey(files, k) ensures k == key {
      assert AtOrBefore(k, key) && AtOrBefore(key, k);
    }
  }

  lemma ChainGrows(level: seq<File>, files: seq<File>, n: nat, key: InternalKey, f: File)
    requires AllOk(level) && AllOk(files) && n <= |files|
    requires BoundaryChain(level, files, n) && LargestKey(files, key) && LeastBoundary(level, key, f)
    ensures AllOk(files + [f]) && BoundaryChain(level, files + [f], n) && LargestKey(files + [f], f.largest)
  {
    var r := files + [f];
    assert f in level;
    forall m | n <= m < |r|
      ensures ChainStep(level, r, m)
    {
      if m < |files| {
        assert ChainStep(level, files, m);
        assert r[..m] == files[..m];
      } else {
        assert r[..m] == files;
      }
    }
    assert f in r;
  }
}
