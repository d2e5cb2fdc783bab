/**
 Table files, versions and the search of a version for one key
 (db/version_set.cc, db/version_set.h).

 A version assigns files to seven levels.  Its abstract value is a set of
 placed files; `Listing` ties it to the per-level vectors kept by the code.
 */
module Versions {
  import opened Keys
  import opened Spec

  const NUM_LEVELS := 7

  /** FileMetaData together with the table it names: entries in iteration order. */
  datatype File = File(number: nat, size: nat, smallest: InternalKey, largest: InternalKey, entries: seq<Entry>)

  /** A key range that is not inverted. */
  ghost predicate RangeOk(f: File) {
    AtOrBefore(f.smallest, f.largest) && f.largest.seqno <= MAX_SEQUENCE
  }

  /** The recorded range is that of the table, as BuildTable and the compaction loop record it. */
  ghost predicate FileOk(f: File) {
    && RangeOk(f)
    && f.entries != []
    && Sorted(f.entries)
    && f.smallest == f.entries[0].key && f.largest == f.entries[|f.entries| - 1].key
    && forall e :: e in f.entries ==> e.key.seqno <= MAX_SEQUENCE
  }

  lemma InRange(f: File, e: Entry)
    requires FileOk(f) && e in f.entries
    ensures !Before(e.key, f.smallest) && !Before(f.largest, e.key)
    ensures f.smallest.user <= e.key.user <= f.largest.user
  {
    var i :| 0 <= i < |f.entries| && f.entries[i] == e;
    assert i > 0 ==> Before(f.entries[0].key, f.entries[i].key);
    assert i < |f.entries| - 1 ==> Before(f.entries[i].key, f.entries[|f.entries| - 1].key);
  }

  datatype Placed = Placed(level: nat, file: File)

  ghost function Elements(es: seq<Entry>): iset<Entry> {
    iset e | e in es
  }

  ghost function Has(f: File): iset<Entry> {
    Elements(f.entries)
  }

  /** The key ranges of two files are disjoint in the internal order. */
  ghost predicate Apart(f: File, g: File) {
    Before(f.largest, g.smallest) || Before(g.largest, f.smallest)
  }

  /** All operations a version holds. */
  ghost function Content(V: set<Placed>): iset<Entry> {
    iset e | Holds(V, e)
  }

  ghost predicate Holds(V: set<Placed>, e: Entry) {
    exists p :: p in V && e in p.file.entries
  }

  /** How two files of a version may relate. */
  ghost predicate PairOk(p: Placed, q: Placed) {
    && (p.level == q.level && p.level >= 1 ==> Apart(p.file, q.file))
    && (p.level == 0 && q.level == 0 && p.file.number > q.file.number ==> Newer(Has(p.file), Has(q.file)))
    && (p.level < q.level ==> Newer(Has(p.file), Has(q.file)))
    && p.file.number != q.file.number
  }

  /** The tree invariant: levels >= 1 are disjoint, and recency follows the search order. */
  ghost predicate TreeOk(V: set<Placed>) {
    && (forall p :: p in V ==> p.level < NUM_LEVELS && FileOk(p.file))
    && (forall p, q {:trigger PairOk(p, q)} :: p in V && q in V && p != q ==> PairOk(p, q))
  }

  // --- vectors -------------------------------------------------------------

  ghost predicate AllOk(files: seq<File>) {
    forall i :: 0 <= i < |files| ==> RangeOk(files[i])
  }

  /** The whole range of `f` comes before that of `g`. */
  predicate Precedes(f: File, g: File) {
    Before(f.largest, g.smallest)
  }

  /** A level >= 1 as the Builder lays it out: ascending and disjoint. */
  ghost predicate DisjointSorted(files: seq<File>) {
    && AllOk(files)
    && forall i, j {:trigger Precedes(files[i], files[j])} :: 0 <= i < j < |files| ==> Precedes(files[i], files[j])
  }

  /** The order of BySmallestKey. */
  ghost predicate BySmallest(files: seq<File>) {
    && AllOk(files)
    && forall i, j :: 0 <= i < j < |files| ==> AtOrBefore(files[i].smallest, files[j].smallest)
  }

  /** `levels` are the per-level vectors of version `V`, each in BySmallestKey order. */
  ghost predicate Listing(levels: seq<seq<File>>, V: set<Placed>) {
    && |levels| == NUM_LEVELS
    && (forall l :: 0 <= l < NUM_LEVELS ==> BySmallest(levels[l]))
    && (forall l, i, j :: 0 <= l < NUM_LEVELS && 0 <= i < j < |levels[l]| ==> levels[l][i] != levels[l][j])
    && (forall l, i :: 0 <= l < NUM_LEVELS && 0 <= i < |levels[l]| ==> Placed(l, levels[l][i]) in V)
    && (forall p :: p in V ==> p.level < NUM_LEVELS && p.file in levels[p.level])
  }

  /** The order by smallest key turns the tree invariant into sorted disjoint vectors. */
  lemma ListedDisjoint(levels: seq<seq<File>>, V: set<Placed>, l: nat)
    requires Listing(levels, V) && TreeOk(V) && 1 <= l < NUM_LEVELS
    ensures DisjointSorted(levels[l])
  {
    var files := levels[l];
    forall i, j | 0 <= i < j < |files|
      ensures Precedes(files[i], files[j])
    {
      var p, q := Placed(l, files[i]), Placed(l, files[j]);
      assert p in V && q in V && p != q;
      assert PairOk(p, q);
    }
  }

  // --- FindFile --------------------------------------------------------------

  /** `i` is the first file whose largest key is at or after `key`. */
  ghost predicate FirstNotBefore(files: seq<File>, key: InternalKey, i: nat) {
    && i <= |files|
    && (forall j :: 0 <= j < i ==> Before(files[j].largest, key))
    && (forall j :: i <= j < |files| ==> !Before(files[j].largest, key))
  }

  /** Binary search over the file vector of one level. */
  method FindFile(files: seq<File>, key: InternalKey) returns (right: nat)
    requires DisjointSorted(files)
    ensures FirstNotBefore(files, key, right)
  {
    var left := 0;
    right := |files|;
    while left < right
      invariant 0 <= left <= right <= |files|
      invariant forall j :: 0 <= j < left ==> Before(files[j].largest, key)
      invariant forall j :: right <= j < |files| ==> !Before(files[j].largest, key)
    {
      var mid := (left + right) / 2;
      LargestAscend(files);
      if Before(files[mid].largest, key) {
        left := mid + 1;
      } else {
        right := mid;
      }
    }
  }

  lemma LargestAscend(files: seq<File>)
    requires DisjointSorted(files)
    ensures forall i, j :: 0 <= i < j < |files| ==> Before(files[i].largest, files[j].largest)
  {
    forall i, j | 0 <= i < j < |files| ensures Before(files[i].largest, files[j].largest) {
      assert Precedes(files[i], files[j]);
    }
  }

  // --- one table or memtable -------------------------------------------------

  /** Where Seek(key) stops in a sorted run. */
  ghost predicate SeekStops(es: seq<Entry>, key: InternalKey, i: nat) {
    && i <= |es|
    && (forall j :: 0 <= j < i ==> Before(es[j].key, key))
    && (i < |es| ==> !Before(es[i].key, key))
  }

  /** SaverState, and MemTable::Get's three outcomes. */
  datatype Found = Missing | Tombstone | Present(value: string)

  /** `r` reports the newest entry for `k` visible at `s`, if there is one. */
  ghost predicate Outcome(S: iset<Entry>, k: UserKey, s: nat, r: Found) {
    match r
    case Missing => forall e :: e in S ==> !Visible(e, k, s)
    case Tombstone => exists e :: Newest(S, k, s, e) && e.key.kind.Deletion?
    case Present(v) => exists e :: Newest(S, k, s, e) && e.key.kind.Value? && e.value == v
  }

  function Report(e: Entry): Found {
    if e.key.kind.Value? then Present(e.value) else Tombstone
  }

  lemma FoundEntry(S: iset<Entry>, k: UserKey, s: nat, r: Found) returns (e: Entry)
    requires Outcome(S, k, s, r) && !r.Missing?
    ensures Newest(S, k, s, e) && r == Report(e)
  {
    if r.Tombstone? {
      e :| Newest(S, k, s, e) && e.key.kind.Deletion?;
    } else {
      e :| Newest(S, k, s, e) && e.key.kind.Value? && e.value == r.value;
    }
  }

  lemma ReportsEntry(S: iset<Entry>, k: UserKey, s: nat, e: Entry)
    requires Newest(S, k, s, e)
    ensures Outcome(S, k, s, Report(e))
  {
  }

  /** Iterator::Seek on a sorted run; callers rely on where it stops, not on how it gets there. */
  method Seek(es: seq<Entry>, key: InternalKey) returns (i: nat)
    requires Sorted(es)
    ensures SeekStops(es, key, i)
  {
    i := 0;
    while i < |es| && Before(es[i].key, key)
      invariant i <= |es|
      invariant forall j :: 0 <= j < i ==> Before(es[j].key, key)
    {
      i := i + 1;
    }
  }

  /** Table::InternalGet + SaveValue, and MemTable::Get: seek, then look only at the user key. */
  method RunGet(es: seq<Entry>, k: UserKey, s: nat) returns (r: Found)
    requires Sorted(es)
    ensures Outcome(Elements(es), k, s, r)
  {
    var i := Seek(es, SeekKey(k, s));
    SeekIsNewest(es, k, s, i);
    if i == |es| || es[i].key.user != k {
      return Missing;
    }
    r := Report(es[i]);
  }

  /** Why looking at one position is enough: the newest visible entry sorts first. */
  lemma SeekIsNewest(es: seq<Entry>, k: UserKey, s: nat, i: nat)
    requires Sorted(es) && SeekStops(es, SeekKey(k, s), i)
    ensures i < |es| && es[i].key.user == k ==> Newest(Elements(es), k, s, es[i])
    ensures !(i < |es| && es[i].key.user == k) ==> forall e :: e in es ==> !Visible(e, k, s)
  {
    forall j | 0 <= j < |es| && Visible(es[j], k, s)
      ensures i <= j && es[i].key.user == k && es[j].key.seqno <= es[i].key.seqno
    {
      assert !Before(es[j].key, SeekKey(k, s));
      assert i < j ==> Before(es[i].key, es[j].key);
    }
  }

  // --- Version::Get ------------------------------------------------------------

  /** GetStats: the first file read when a second one had to be opened. */
  datatype SeekCharge = NoCharge | Charge(level: nat, file: File)

  /** NewestFirst: does `f` come before `g` in the search of level 0? */
  predicate NewestFirst(f: File, g: File) { f.number > g.number }

  ghost predicate Descending(fs: seq<File>) {
    forall i, j :: 0 <= i < j < |fs| ==> NewestFirst(fs[i], fs[j])
  }

  /** Insert one file into a newest-first sequence. */
  function InsertByNumber(f: File, fs: seq<File>): (r: seq<File>)
    requires Descending(fs) && forall g :: g in fs ==> g.number != f.number
    ensures forall g :: g in r <==> g == f || g in fs
    ensures Descending(r)
  {
    if fs == [] then [f]
    else if NewestFirst(f, fs[0]) then [f] + fs
    else
      assert fs[0] in fs;
      var rest := InsertByNumber(f, fs[1..]);
      assert forall g :: g in fs <==> g == fs[0] || g in fs[1..];
      assert forall i :: 0 <= i < |rest| ==> rest[i] in rest;
      [fs[0]] + rest
  }

  /** The level-0 files whose user-key range holds `k`, newest first. */
  method OverlappingNewestFirst(files: seq<File>, k: UserKey) returns (tmp: seq<File>)
    requires AllOk(files)
    requires forall i, j :: 0 <= i < j < |files| ==> files[i].number != files[j].number
    ensures Descending(tmp)
    ensures forall f :: f in tmp <==> f in files && f.smallest.user <= k <= f.largest.user
  {
    tmp := [];
    for i := 0 to |files|
      invariant Descending(tmp)
      invariant forall f :: f in tmp <==> f in files[..i] && f.smallest.user <= k <= f.largest.user
    {
      var f := files[i];
      assert files[..i + 1] == files[..i] + [f];
      if f.smallest.user <= k <= f.largest.user {
        tmp := InsertByNumber(f, tmp);
      }
    }
    assert files[..|files|] == files;
  }

  /** The part of the search order already ruled out. */
  ghost predicate NoneSeen(V: set<Placed>, k: UserKey, s: nat, level: nat) {
    forall p, e :: p in V && p.level < level && e in p.file.entries ==> !Visible(e, k, s)
  }

  /** A newest visible entry of `p` is newest in the whole version once everything before `p` is ruled out. */
  lemma HitIsNewest(V: set<Placed>, k: UserKey, s: nat, p: Placed, e: Entry)
    requires TreeOk(V) && p in V && Newest(Has(p.file), k, s, e)
    requires NoneSeen(V, k, s, p.level)
    requires forall q, x :: q in V && q.level == p.level && q != p && x in q.file.entries && Visible(x, k, s)
               ==> x.key.seqno <= e.key.seqno
    ensures Newest(Content(V), k, s, e)
  {
    forall x | x in Content(V) && Visible(x, k, s)
      ensures x.key.seqno <= e.key.seqno
    {
      var q :| q in V && x in q.file.entries;
      if q != p && q.level > p.level {
        assert PairOk(p, q);
        assert Later(e, x);
      } else if q == p {
        assert x in Has(p.file);
      }
    }
  }

  /** One level >= 1: only the file found by binary search can hold a visible entry. */
  lemma OnlyOneFile(levels: seq<seq<File>>, V: set<Placed>, l: nat, k: UserKey, s: nat, i: nat, p: Placed, x: Entry)
    requires Listing(levels, V) && TreeOk(V) && 1 <= l < NUM_LEVELS
    requires FirstNotBefore(levels[l], SeekKey(k, s), i)
    requires p in V && p.level == l && x in p.file.entries && Visible(x, k, s)
    ensures i < |levels[l]| && levels[l][i].smallest.user <= k
    ensures p.file != levels[l][i] ==> Before(levels[l][i].largest, x.key)
    ensures exists y :: y in levels[l][i].entries && Visible(y, k, s)
  {
    ListedDisjoint(levels, V, l);
    var files := levels[l];
    var j :| 0 <= j < |files| && files[j] == p.file;
    InRange(p.file, x);
    assert !Before(x.key, SeekKey(k, s));
    assert j >= i;
    if j > i {
      assert Precedes(files[i], files[j]);
      // Adjacent files share the user key: this one ends in it, at a sequence number no larger than s.
      var y := files[i].entries[|files[i].entries| - 1];
      assert y in files[i].entries && Visible(y, k, s);
    }
  }

  /** The state of the search as Match has left it. */
  datatype Search = Search(charge: SeekCharge, last: SeekCharge)

  /** The bookkeeping of State::Match before a file is read: charge the first file on the second read. */
  function Charged(st: Search, level: nat, f: File): Search {
    Search(if st.charge.NoCharge? && st.last.Charge? then st.last else st.charge, Charge(level, f))
  }

  /** Who pays for a read: the first file, if more than one was read. */
  ghost function ChargeFor(read: seq<Placed>): SeekCharge {
    if |read| >= 2 then Charge(read[0].level, read[0].file) else NoCharge
  }

  ghost function SearchOf(read: seq<Placed>): Search {
    Search(ChargeFor(read), if read == [] then NoCharge else Charge(read[|read| - 1].level, read[|read| - 1].file))
  }

  lemma ReadOneMore(read: seq<Placed>, p: Placed)
    ensures SearchOf(read + [p]) == Charged(SearchOf(read), p.level, p.file)
  {
    assert |read| >= 2 ==> (read + [p])[0] == read[0];
  }

  /** `p` is consulted before `q`: level by level, newest first in level 0, one file in a deeper level. */
  ghost predicate Consulted(p: Placed, q: Placed) {
    p.level < q.level || (p.level == q.level == 0 && p.file.number > q.file.number)
  }

  /** The files a read consults: those that may hold `k`, in order, up to level `bound`. */
  ghost predicate ReadOrder(V: set<Placed>, k: UserKey, read: seq<Placed>, bound: nat) {
    && (forall i :: 0 <= i < |read| ==> read[i] in V && read[i].level < bound)
    && (forall i :: 0 <= i < |read| ==> read[i].file.smallest.user <= k <= read[i].file.largest.user)
    && (forall i, j :: 0 <= i < j < |read| ==> Consulted(read[i], read[j]))
  }

  /** All files read but the last hold nothing visible; the last holds the answer, if there is one. */
  ghost predicate StopsAtHit(read: seq<Placed>, k: UserKey, s: nat, r: Found) {
    && (forall i, e :: 0 <= i < |read| && (i < |read| - 1 || r.Missing?) && e in read[i].file.entries ==>
          !Visible(e, k, s))
    && (!r.Missing? ==> read != [] && Outcome(Has(read[|read| - 1].file), k, s, r))
  }

  /** The level-0 files `tmp` were read in order, up to the first with an entry for the key. */
  ghost predicate ReadZero(tmp: seq<File>, k: UserKey, s: nat, read: seq<Placed>, r: Found) {
    && |read| <= |tmp| && (forall j :: 0 <= j < |read| ==> read[j] == Placed(0, tmp[j]))
    && (forall j, e :: 0 <= j < |read| && (j < |read| - 1 || r.Missing?) && e in tmp[j].entries ==> !Visible(e, k, s))
    && (r.Missing? ==> |read| == |tmp|)
    && (!r.Missing? ==> read != [] && Outcome(Has(tmp[|read| - 1]), k, s, r))
  }

  method LevelZeroGet(tmp: seq<File>, k: UserKey, s: nat) returns (r: Found, st: Search, ghost read: seq<Placed>)
    requires forall f :: f in tmp ==> Sorted(f.entries)
    ensures ReadZero(tmp, k, s, read, r) && st == SearchOf(read)
  {
    st, read := Search(NoCharge, NoCharge), [];
    var i := 0;
    while i < |tmp|
      invariant i <= |tmp| && |read| == i
      invariant st == SearchOf(read) && forall j :: 0 <= j < i ==> read[j] == Placed(0, tmp[j])
      invariant forall j, e :: 0 <= j < i && e in tmp[j].entries ==> !Visible(e, k, s)
    {
      ReadOneMore(read, Placed(0, tmp[i]));
      st := Charged(st, 0, tmp[i]);
      read := read + [Placed(0, tmp[i])];
      r := RunGet(tmp[i].entries, k, s);
      if !r.Missing? {
        return;
      }
      i := i + 1;
    }
    r := Missing;
  }

  /**
   Version::Get: newest-first through level 0, then one binary-searched file per
   deeper level, stopping at the first file with an entry for the key.  `read` lists
   the files consulted; the first is charged when there was a second.
   */
  method VersionGet(levels: seq<seq<File>>, ghost V: set<Placed>, k: UserKey, s: nat)
      returns (r: Found, charge: SeekCharge, ghost read: seq<Placed>)
    requires Listing(levels, V) && TreeOk(V)
    ensures Outcome(Content(V), k, s, r)
    ensures ReadOrder(V, k, read, NUM_LEVELS) && StopsAtHit(read, k, s, r) && charge == ChargeFor(read)
  {
    LevelZeroNumbers(levels, V);
    var tmp := OverlappingNewestFirst(levels[0], k);
    LevelZeroSorted(levels, V, tmp);
    var st;
    r, st, read := LevelZeroGet(tmp, k, s);
    LevelZeroOrder(levels, V, tmp, k, read);
    if r.Missing? {
      LevelZeroMiss(levels, V, tmp, k, s);
      r, st, read := DeeperGet(levels, V, k, s, st, read);
    } else {
      LevelZeroHit(levels, V, tmp, |read| - 1, k, s, r);
      LevelZeroDone(V, tmp, k, s, read, r);
    }
    charge := st.charge;
  }

  lemma LevelZeroDone(V: set<Placed>, tmp: seq<File>, k: UserKey, s: nat, read: seq<Placed>, r: Found)
    requires ReadZero(tmp, k, s, read, r) && !r.Missing? && ReadOrder(V, k, read, 1)
    ensures ReadOrder(V, k, read, NUM_LEVELS) && StopsAtHit(read, k, s, r)
  {
  }

  lemma LevelZeroSorted(levels: seq<seq<File>>, V: set<Placed>, tmp: seq<File>)
    requires Listing(levels, V) && TreeOk(V) && forall f :: f in tmp ==> f in levels[0]
    ensures forall f :: f in tmp ==> Sorted(f.entries)
  {
    forall f | f in tmp ensures Sorted(f.entries) {
      var i :| 0 <= i < |levels[0]| && levels[0][i] == f;
      assert Placed(0, levels[0][i]) in V;
    }
  }

  lemma LevelZeroOrder(levels: seq<seq<File>>, V: set<Placed>, tmp: seq<File>, k: UserKey, read: seq<Placed>)
    requires Listing(levels, V) && Descending(tmp) && |read| <= |tmp|
    requires forall j :: 0 <= j < |read| ==> read[j] == Placed(0, tmp[j])
    requires forall f :: f in tmp <==> f in levels[0] && f.smallest.user <= k <= f.largest.user
    ensures ReadOrder(V, k, read, 1)
  {
    forall i | 0 <= i < |read| ensures read[i] in V && read[i].file.smallest.user <= k <= read[i].file.largest.user {
      assert tmp[i] in tmp && tmp[i] in levels[0];
    }
    forall i, j | 0 <= i < j < |read| ensures Consulted(read[i], read[j]) {
      assert NewestFirst(tmp[i], tmp[j]);
    }
  }

  lemma LevelZeroNumbers(levels: seq<seq<File>>, V: set<Placed>)
    requires Listing(levels, V) && TreeOk(V)
    ensures forall i, j :: 0 <= i < j < |levels[0]| ==> levels[0][i].number != levels[0][j].number
  {
    forall i, j | 0 <= i < j < |levels[0]|
      ensures levels[0][i].number != levels[0][j].number
    {
      assert PairOk(Placed(0, levels[0][i]), Placed(0, levels[0][j]));
    }
  }

  lemma LevelZeroMiss(levels: seq<seq<File>>, V: set<Placed>, tmp: seq<File>, k: UserKey, s: nat)
    requires Listing(levels, V) && TreeOk(V)
    requires forall f :: f in tmp <==> f in levels[0] && f.smallest.user <= k <= f.largest.user
    requires forall j, e :: 0 <= j < |tmp| && e in tmp[j].entries ==> !Visible(e, k, s)
    ensures NoneSeen(V, k, s, 1)
  {
    forall p, e | p in V && p.level < 1 && e in p.file.entries
      ensures !Visible(e, k, s)
    {
      InRange(p.file, e);
      assert p.file in levels[0];
    }
  }

  lemma LevelZeroHit(levels: seq<seq<File>>, V: set<Placed>, tmp: seq<File>, i: nat, k: UserKey, s: nat, r: Found)
    requires Listing(levels, V) && TreeOk(V) && Descending(tmp) && i < |tmp|
    requires forall f :: f in tmp <==> f in levels[0] && f.smallest.user <= k <= f.largest.user
    requires forall j, x :: 0 <= j < i && x in tmp[j].entries ==> !Visible(x, k, s)
    requires Outcome(Has(tmp[i]), k, s, r) && !r.Missing?
    ensures Outcome(Content(V), k, s, r)
  {
    var e := FoundEntry(Has(tmp[i]), k, s, r);
    var p := Placed(0, tmp[i]);
    assert tmp[i] in levels[0];
    forall q, x | q in V && q.level == p.level && q != p && x in q.file.entries && Visible(x, k, s)
      ensures x.key.seqno <= e.key.seqno
    {
      InRange(q.file, x);
      assert q.file in levels[0];
      assert q.file in tmp;
      var j :| 0 <= j < |tmp| && tmp[j] == q.file;
      assert i < j;
      assert NewestFirst(tmp[i], tmp[j]);
      assert PairOk(p, q);
      assert Later(e, x);
    }
    HitIsNewest(V, k, s, p, e);
    ReportsEntry(Content(V), k, s, e);
  }

  /** The loop over levels 1..6 of ForEachOverlapping. */
  method DeeperGet(levels: seq<seq<File>>, ghost V: set<Placed>, k: UserKey, s: nat, st0: Search,
                   ghost read0: seq<Placed>)
      returns (r: Found, st: Search, ghost read: seq<Placed>)
    requires Listing(levels, V) && TreeOk(V) && NoneSeen(V, k, s, 1)
    requires st0 == SearchOf(read0) && ReadOrder(V, k, read0, 1)
    ensures Outcome(Content(V), k, s, r)
    ensures st == SearchOf(read) && ReadOrder(V, k, read, NUM_LEVELS) && StopsAtHit(read, k, s, r)
  {
    st, read := st0, read0;
    var level := 1;
    while level < NUM_LEVELS
      invariant 1 <= level <= NUM_LEVELS
      invariant NoneSeen(V, k, s, level)
      invariant st == SearchOf(read) && ReadOrder(V, k, read, level)
    {
      ListedDisjoint(levels, V, level);
      var files := levels[level];
      var index := FindFile(files, SeekKey(k, s));
      if index < |files| && files[index].smallest.user <= k {
        ghost var p := Placed(level, files[index]);
        ReadOneMore(read, p);
        ReadDeeper(V, k, read, level, p);
        st := Charged(st, level, files[index]);
        r := RunGet(files[index].entries, k, s);
        read := read + [p];
        if !r.Missing? {
          DeeperHit(levels, V, level, k, s, index, r);
          HitStops(V, k, s, read, level, r);
          return;
        }
      }
      DeeperMiss(levels, V, level, k, s, index);
      level := level + 1;
    }
    r := Missing;
    forall e | e in Content(V) ensures !Visible(e, k, s) {
      var p :| p in V && e in p.file.entries;
    }
    MissStops(V, k, s, read);
  }

  /** A charged file can be pushed down: it is in the version, above the last level. */
  lemma ChargedIsMovable(V: set<Placed>, k: UserKey, read: seq<Placed>)
    requires ReadOrder(V, k, read, NUM_LEVELS) && ChargeFor(read).Charge?
    ensures ChargeFor(read).level < NUM_LEVELS - 1 && Placed(ChargeFor(read).level, ChargeFor(read).file) in V
  {
    assert Consulted(read[0], read[1]);
  }

  lemma ReadDeeper(V: set<Placed>, k: UserKey, read: seq<Placed>, level: nat, p: Placed)
    requires ReadOrder(V, k, read, level) && p in V && p.level == level
    requires p.file.smallest.user <= k <= p.file.largest.user
    ensures ReadOrder(V, k, read + [p], level + 1)
  {
  }

  lemma HitStops(V: set<Placed>, k: UserKey, s: nat, read: seq<Placed>, level: nat, r: Found)
    requires read != [] && ReadOrder(V, k, read[..|read| - 1], level) && NoneSeen(V, k, s, level)
    requires !r.Missing? && Outcome(Has(read[|read| - 1].file), k, s, r)
    ensures StopsAtHit(read, k, s, r)
  {
    forall i, e | 0 <= i < |read| - 1 && e in read[i].file.entries ensures !Visible(e, k, s) {
      assert read[..|read| - 1][i] == read[i];
    }
  }

  lemma MissStops(V: set<Placed>, k: UserKey, s: nat, read: seq<Placed>)
    requires ReadOrder(V, k, read, NUM_LEVELS) && NoneSeen(V, k, s, NUM_LEVELS)
    ensures StopsAtHit(read, k, s, Missing)
  {
  }

  lemma DeeperHit(levels: seq<seq<File>>, V: set<Placed>, l: nat, k: UserKey, s: nat, i: nat, r: Found)
    requires Listing(levels, V) && TreeOk(V) && 1 <= l < NUM_LEVELS && NoneSeen(V, k, s, l)
    requires FirstNotBefore(levels[l], SeekKey(k, s), i) && i < |levels[l]|
    requires Outcome(Has(levels[l][i]), k, s, r) && !r.Missing?
    ensures Outcome(Content(V), k, s, r)
  {
    var e := FoundEntry(Has(levels[l][i]), k, s, r);
    var p := Placed(l, levels[l][i]);
    forall q, x | q in V && q.level == l && q != p && x in q.file.entries && Visible(x, k, s)
      ensures x.key.seqno <= e.key.seqno
    {
      OnlyOneFile(levels, V, l, k, s, i, q, x);
      InRange(p.file, e);
    }
    HitIsNewest(V, k, s, p, e);
    ReportsEntry(Content(V), k, s, e);
  }

  lemma DeeperMiss(levels: seq<seq<File>>, V: set<Placed>, l: nat, k: UserKey, s: nat, i: nat)
    requires Listing(levels, V) && TreeOk(V) && 1 <= l < NUM_LEVELS && NoneSeen(V, k, s, l)
    requires FirstNotBefore(levels[l], SeekKey(k, s), i)
    requires i < |levels[l]| && levels[l][i].smallest.user <= k ==>
               forall e :: e in levels[l][i].entries ==> !Visible(e, k, s)
    ensures NoneSeen(V, k, s, l + 1)
  {
    forall p, x | p in V && p.level < l + 1 && x in p.file.entries
      ensures !Visible(x, k, s)
    {
      if p.level == l && Visible(x, k, s) {
        OnlyOneFile(levels, V, l, k, s, i, p, x);
      }
    }
  }
}
