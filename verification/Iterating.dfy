/**
 Iterators in a running database (DBImpl::NewInternalIterator, Version::AddIterators,
 DBImpl::NewIterator): the sorted runs an iterator is put together from, and what it
 shows in every run of the engine.
 */
module Iterating {
  import opened Keys
  import opened Spec
  import opened Cursors
  import opened Versions
  import opened Install
  import opened Engine
  import opened EngineProof
  import opened EngineMain
  import opened DbIter
  import M = Merger

  // --- one run per table, or per level ----------------------------------------------------

  /** What a concatenating iterator walks. */
  function Concat(files: seq<File>): seq<Entry> {
    if files == [] then [] else Concat(files[..|files| - 1]) + files[|files| - 1].entries
  }

  ghost predicate SoundFiles(files: seq<File>) {
    forall i :: 0 <= i < |files| ==> FileOk(files[i])
  }

  lemma {:induction false} ConcatHolds(files: seq<File>, e: Entry)
    ensures e in Concat(files) <==> exists f :: f in files && e in f.entries
  {
    if files != [] {
      var front, last := files[..|files| - 1], files[|files| - 1];
      ConcatHolds(front, e);
      assert files == front + [last];
    }
  }

  /** A sorted level makes one sorted run. */
  lemma {:induction false} ConcatSorted(files: seq<File>)
    requires DisjointSorted(files) && SoundFiles(files)
    ensures Sorted(Concat(files))
  {
    if files != [] {
      var front, last := files[..|files| - 1], files[|files| - 1];
      ConcatSorted(front);
      forall x, y | x in Concat(front) && y in last.entries ensures Before(x.key, y.key) {
        ConcatHolds(front, x);
        var i :| 0 <= i < |front| && x in front[i].entries;
        assert Precedes(files[i], last);
        InRange(files[i], x);
        InRange(last, y);
      }
      SortedParts(Concat(front), last.entries);
    }
  }

  lemma SortedParts(a: seq<Entry>, b: seq<Entry>)
    requires Sorted(a) && Sorted(b) && forall x, y :: x in a && y in b ==> Before(x.key, y.key)
    ensures Sorted(a + b)
  {
    forall i, j | 0 <= i < j < |a + b| ensures Before((a + b)[i].key, (a + b)[j].key) {
      if i < |a| <= j {
        assert a[i] in a && b[j - |a|] in b;
      } else if j < |a| {
        assert Before(a[i].key, a[j].key);
      } else {
        assert Before(b[i - |a|].key, b[j - |a|].key);
      }
    }
  }

  // --- which tables a run comes from ----------------------------------------------------------

  /** Each run is sorted and holds what its own tables hold; together these are `done`. */
  ghost predicate Owned(runs: seq<seq<Entry>>, owners: seq<set<Placed>>, done: set<Placed>) {
    && |runs| == |owners|
    && (forall i :: 0 <= i < |runs| ==> Sorted(runs[i]) && Elements(runs[i]) == Content(owners[i]) && owners[i] <= done)
    && (forall i, j :: 0 <= i < j < |owners| ==> owners[i] !! owners[j])
    && (forall p :: p in done ==> SomeOwner(owners, p))
  }

  ghost predicate SomeOwner(owners: seq<set<Placed>>, p: Placed) {
    exists i :: 0 <= i < |owners| && p in owners[i]
  }

  lemma OneMore(runs: seq<seq<Entry>>, owners: seq<set<Placed>>, done: set<Placed>, es: seq<Entry>, more: set<Placed>)
    requires Owned(runs, owners, done) && Sorted(es) && Elements(es) == Content(more) && more !! done
    ensures Owned(runs + [es], owners + [more], done + more)
  {
    hide Content;
    var owners' := owners + [more];
    forall p | p in done + more ensures SomeOwner(owners', p) {
      if p in more {
        assert p in owners'[|owners|];
      } else {
        var i :| 0 <= i < |owners| && p in owners[i];
        assert p in owners'[i];
      }
    }
  }

  ghost function LevelSet(levels: seq<seq<File>>, l: nat): set<Placed>
    requires l < |levels|
  {
    set f | f in levels[l] :: Placed(l, f)
  }

  /** Version::AddIterators: level 0 table by table, every other level as one run. */
  method AddIterators(levels: seq<seq<File>>, ghost V: set<Placed>)
      returns (runs: seq<seq<Entry>>, ghost owners: seq<set<Placed>>)
    requires Listing(levels, V) && TreeOk(V)
    ensures Owned(runs, owners, V)
  {
    hide Listing, TreeOk, Owned, Content;
    runs, owners := [], [];
    ghost var done: set<Placed> := {};
    NoneOwned();
    ListedLengths(levels, V);
    for i := 0 to |levels[0]|
      invariant Owned(runs, owners, done)
      invariant forall p :: p in done <==> p.level == 0 && p.file in levels[0][..i]
    {
      var f := levels[0][i];
      ListedTable(levels, V, i);
      OneMore(runs, owners, done, f.entries, {Placed(0, f)});
      runs, owners, done := runs + [f.entries], owners + [{Placed(0, f)}], done + {Placed(0, f)};
      assert levels[0][..i + 1] == levels[0][..i] + [f];
    }
    assert levels[0][..|levels[0]|] == levels[0];
    for l := 1 to NUM_LEVELS
      invariant Owned(runs, owners, done)
      invariant forall p :: p in done <==> p.level < l && p.file in levels[p.level]
    {
      if levels[l] != [] {
        ListedLevel(levels, V, l);
        OneMore(runs, owners, done, Concat(levels[l]), LevelSet(levels, l));
        runs, owners, done := runs + [Concat(levels[l])], owners + [LevelSet(levels, l)], done + LevelSet(levels, l);
      }
    }
    AllListed(levels, V, done);
  }

  lemma NoneOwned()
    ensures Owned([], [], {})
  {
  }

  lemma ListedLengths(levels: seq<seq<File>>, V: set<Placed>)
    requires Listing(levels, V)
    ensures |levels| == NUM_LEVELS
  {
  }

  lemma ListedTable(levels: seq<seq<File>>, V: set<Placed>, i: nat)
    requires Listing(levels, V) && TreeOk(V) && i < |levels[0]|
    ensures levels[0][i] !in levels[0][..i]
    ensures Sorted(levels[0][i].entries) && Elements(levels[0][i].entries) == Content({Placed(0, levels[0][i])})
  {
    var p := Placed(0, levels[0][i]);
    assert p in V && FileOk(p.file);
    forall e | e in p.file.entries ensures e in Content({p}) {
      InContent({p}, p, e);
    }
  }

  lemma ListedLevel(levels: seq<seq<File>>, V: set<Placed>, l: nat)
    requires Listing(levels, V) && TreeOk(V) && 1 <= l < NUM_LEVELS
    ensures Sorted(Concat(levels[l])) && Elements(Concat(levels[l])) == Content(LevelSet(levels, l))
  {
    ListedDisjoint(levels, V, l);
    forall i | 0 <= i < |levels[l]| ensures FileOk(levels[l][i]) {
      assert Placed(l, levels[l][i]) in V;
    }
    ConcatSorted(levels[l]);
    var S := LevelSet(levels, l);
    forall e ensures e in Concat(levels[l]) <==> e in Content(S) {
      ConcatHolds(levels[l], e);
      if f :| f in levels[l] && e in f.entries {
        assert Placed(l, f) in S;
        InContent(S, Placed(l, f), e);
      }
      if e in Content(S) {
        var p :| p in S && e in p.file.entries;
      }
    }
  }

  lemma AllListed(levels: seq<seq<File>>, V: set<Placed>, done: set<Placed>)
    requires Listing(levels, V) && forall p :: p in done <==> p.level < NUM_LEVELS && p.file in levels[p.level]
    ensures done == V
  {
    forall p | p in done ensures p in V {
      var i :| 0 <= i < |levels[p.level]| && levels[p.level][i] == p.file;
      assert Placed(p.level, levels[p.level][i]) in V;
    }
  }

  // --- no operation is in two runs ------------------------------------------------------------

  /** Two files of a tree share no operation. */
  lemma FilesShareNothing(V: set<Placed>, p: Placed, q: Placed, e: Entry)
    requires TreeOk(V) && p in V && q in V && p != q && e in p.file.entries
    ensures e !in q.file.entries
  {
    assert PairOk(p, q) && PairOk(q, p) && !Later(e, e);
    InRange(p.file, e);
    if e in q.file.entries {
      InRange(q.file, e);
    }
  }

  ghost predicate NothingShared(a: seq<Entry>, b: seq<Entry>) {
    forall e :: e in a ==> e !in b
  }

  ghost predicate Separate(runs: seq<seq<Entry>>) {
    forall i, j {:trigger NothingShared(runs[i], runs[j])} :: 0 <= i < j < |runs| ==> NothingShared(runs[i], runs[j])
  }

  lemma OwnedSeparate(runs: seq<seq<Entry>>, owners: seq<set<Placed>>, V: set<Placed>)
    requires Owned(runs, owners, V) && TreeOk(V)
    ensures Separate(runs)
  {
    forall i, j | 0 <= i < j < |runs| ensures NothingShared(runs[i], runs[j]) {
      forall e | e in runs[i] ensures e !in runs[j] {
        if e in runs[j] {
          assert e in Content(owners[i]) && e in Content(owners[j]);
          var p :| p in owners[i] && e in p.file.entries;
          var q :| q in owners[j] && e in q.file.entries;
          FilesShareNothing(V, p, q, e);
          assert false;
        }
      }
    }
  }

  ghost predicate InSomeRun(runs: seq<seq<Entry>>, e: Entry) {
    exists i :: 0 <= i < |runs| && e in runs[i]
  }

  lemma OwnedHolds(runs: seq<seq<Entry>>, owners: seq<set<Placed>>, V: set<Placed>, e: Entry)
    requires Owned(runs, owners, V)
    ensures InSomeRun(runs, e) <==> e in Content(V)
  {
    if i :| 0 <= i < |runs| && e in runs[i] {
      assert e in Content(owners[i]);
      var p :| p in owners[i] && e in p.file.entries;
      InContent(V, p, e);
    }
    if e in Content(V) {
      var p :| p in V && e in p.file.entries;
      var i :| 0 <= i < |owners| && p in owners[i];
      InContent(owners[i], p, e);
      assert e in Elements(runs[i]);
    }
  }

  /** A newer run in front shares nothing with the runs behind it. */
  lemma InFront(es: seq<Entry>, runs: seq<seq<Entry>>, S: iset<Entry>)
    requires Separate(runs) && Newer(Elements(es), S) && forall e :: InSomeRun(runs, e) <==> e in S
    ensures Separate([es] + runs) && forall e :: InSomeRun([es] + runs, e) <==> e in Elements(es) + S
  {
    var all := [es] + runs;
    forall i, j | 0 <= i < j < |all| ensures NothingShared(all[i], all[j]) {
      if i == 0 {
        forall e | e in es ensures e !in all[j] {
          assert e in all[j] ==> e in runs[j - 1];
          assert !Later(e, e);
        }
      } else {
        assert NothingShared(runs[i - 1], runs[j - 1]);
      }
    }
    forall e ensures InSomeRun(all, e) <==> e in Elements(es) + S {
      if e in es {
        assert e in all[0];
      }
      if i :| 0 <= i < |runs| && e in runs[i] {
        assert e in all[i + 1];
      }
    }
  }

  ghost predicate AllSorted(runs: seq<seq<Entry>>) {
    forall i :: 0 <= i < |runs| ==> Sorted(runs[i])
  }

  /** DBImpl::NewInternalIterator: the memtable, the immutable one, and the version's runs. */
  method NewInternalIterator(mem: seq<Entry>, imm: Option<seq<Entry>>, levels: seq<seq<File>>, ghost V: set<Placed>)
      returns (runs: seq<seq<Entry>>)
    requires Sorted(mem) && (imm.Some? ==> Sorted(imm.value)) && Listing(levels, V)
    requires ViewOk(Elements(mem), ImmRun(imm), V)
    ensures AllSorted(runs) && Separate(runs)
    ensures forall e :: InSomeRun(runs, e) <==> e in ViewContent(Elements(mem), ImmRun(imm), V)
  {
    hide Sorted, Listing, TreeOk, Owned, Content, Separate, InSomeRun;
    ghost var owners;
    runs, owners := AddIterators(levels, V);
    OwnedSeparate(runs, owners, V);
    OwnedSorted(runs, owners, V);
    forall e ensures InSomeRun(runs, e) <==> e in Content(V) {
      OwnedHolds(runs, owners, V, e);
    }
    ghost var S := Content(V);
    if imm.Some? {
      InFront(imm.value, runs, S);
      runs, S := [imm.value] + runs, Elements(imm.value) + S;
    }
    InFront(mem, runs, S);
    runs := [mem] + runs;
  }

  lemma OwnedSorted(runs: seq<seq<Entry>>, owners: seq<set<Placed>>, V: set<Placed>)
    requires Owned(runs, owners, V)
    ensures AllSorted(runs)
  {
  }

  // --- what the merging iterator walks ------------------------------------------------------------

  function Merge(a: seq<Entry>, b: seq<Entry>): seq<Entry> {
    if a == [] then b
    else if b == [] then a
    else if Before(a[0].key, b[0].key) then [a[0]] + Merge(a[1..], b)
    else [b[0]] + Merge(a, b[1..])
  }

  function MergeAll(runs: seq<seq<Entry>>): seq<Entry> {
    if runs == [] then [] else Merge(MergeAll(runs[..|runs| - 1]), runs[|runs| - 1])
  }

  lemma {:induction false} MergeHolds(a: seq<Entry>, b: seq<Entry>)
    ensures forall e :: e in Merge(a, b) <==> e in a || e in b
    decreases |a| + |b|
  {
    if a != [] && b != [] {
      assert a == [a[0]] + a[1..] && b == [b[0]] + b[1..];
      if Before(a[0].key, b[0].key) {
        MergeHolds(a[1..], b);
      } else {
        MergeHolds(a, b[1..]);
      }
    }
  }

  ghost predicate AllAfter(e: Entry, es: seq<Entry>) {
    forall x :: x in es ==> Before(e.key, x.key)
  }

  lemma HeadFirst(es: seq<Entry>)
    requires Sorted(es) && es != []
    ensures AllAfter(es[0], es[1..]) && Sorted(es[1..])
  {
    forall x | x in es[1..] ensures Before(es[0].key, x.key) {
      var i :| 0 <= i < |es| - 1 && es[1..][i] == x;
      assert Before(es[0].key, es[i + 1].key);
    }
    forall i, j | 0 <= i < j < |es[1..]| ensures Before(es[1..][i].key, es[1..][j].key) {
      assert Before(es[i + 1].key, es[j + 1].key);
    }
  }

  lemma AfterBoth(x: Entry, y: Entry, ys: seq<Entry>)
    requires Before(x.key, y.key) && AllAfter(y, ys)
    ensures AllAfter(x, [y] + ys)
  {
  }

  /** Numbers tell any two operations of different runs apart. */
  ghost predicate Unlike(a: seq<Entry>, b: seq<Entry>) {
    forall x, y :: x in a && y in b ==> x.key.seqno != y.key.seqno
  }

  lemma Ordered(x: Entry, y: Entry)
    requires x.key.seqno != y.key.seqno
    ensures Before(x.key, y.key) || Before(y.key, x.key)
  {
  }

  lemma {:induction false} MergeSorts(a: seq<Entry>, b: seq<Entry>)
    requires Sorted(a) && Sorted(b) && Unlike(a, b)
    ensures Sorted(Merge(a, b))
    decreases |a| + |b|
  {
    if a != [] && b != [] {
      hide Sorted, Before, AllAfter;
      HeadFirst(a);
      HeadFirst(b);
      assert a[0] in a && b[0] in b;
      assert a == [a[0]] + a[1..] && b == [b[0]] + b[1..];
      Ordered(a[0], b[0]);
      if Before(a[0].key, b[0].key) {
        MergeSorts(a[1..], b);
        AfterBoth(a[0], b[0], b[1..]);
        PutFirst(a[0], a[1..], b);
      } else {
        MergeSorts(a, b[1..]);
        AfterBoth(b[0], a[0], a[1..]);
        PutFirst(b[0], a, b[1..]);
      }
    }
  }

  lemma PutFirst(x: Entry, a: seq<Entry>, b: seq<Entry>)
    requires Sorted(Merge(a, b)) && AllAfter(x, a) && AllAfter(x, b)
    ensures Sorted([x] + Merge(a, b))
  {
    MergeHolds(a, b);
    hide Merge;
    SortedParts([x], Merge(a, b));
  }

  /** The sorted union of runs that share nothing. */
  lemma {:induction false} MergeAllOk(runs: seq<seq<Entry>>, S: iset<Entry>)
    requires AllSorted(runs) && Separate(runs) && Unique(S) && forall e :: InSomeRun(runs, e) ==> e in S
    ensures Sorted(MergeAll(runs)) && forall e :: e in MergeAll(runs) <==> InSomeRun(runs, e)
  {
    if runs != [] {
      var front, last := runs[..|runs| - 1], runs[|runs| - 1];
      FrontOf(runs, front);
      MergeAllOk(front, S);
      var m := MergeAll(front);
      forall x, y | x in m && y in last ensures x.key.seqno != y.key.seqno {
        var i :| 0 <= i < |front| && x in front[i];
        assert NothingShared(runs[i], runs[|runs| - 1]);
        assert x in runs[i] && InSomeRun(runs, x) && InSomeRun(runs, y);
        assert SameNumber(x, y) <==> x.key.seqno == y.key.seqno;
      }
      MergeSorts(m, last);
      MergeHolds(m, last);
    }
  }

  lemma FrontOf(runs: seq<seq<Entry>>, front: seq<seq<Entry>>)
    requires runs != [] && front == runs[..|runs| - 1]
    ensures AllSorted(runs) ==> AllSorted(front)
    ensures Separate(runs) ==> Separate(front)
    ensures forall e :: InSomeRun(runs, e) <==> InSomeRun(front, e) || e in runs[|runs| - 1]
  {
    if Separate(runs) {
      forall i, j | 0 <= i < j < |front| ensures NothingShared(front[i], front[j]) {
        assert NothingShared(runs[i], runs[j]);
      }
    }
    forall e ensures InSomeRun(runs, e) <==> InSomeRun(front, e) || e in runs[|runs| - 1] {
      if i :| 0 <= i < |runs| && e in runs[i] {
        assert i < |front| ==> e in front[i];
      }
      if i :| 0 <= i < |front| && e in front[i] {
        assert e in runs[i];
      }
    }
  }

  // --- the merging iterator over these runs ----------------------------------------------------------

  /** The place of an operation in the sorted union. */
  function IndexOf(es: seq<Entry>, e: Entry): (i: nat)
    requires e in es
    ensures i < |es| && es[i] == e
  {
    if es[0] == e then 0 else 1 + IndexOf(es[1..], e)
  }

  /** A run as the merging iterator's child: keys stand for their place in the order. */
  function ChildOf(es: seq<Entry>, r: seq<Entry>): (c: seq<M.Item>)
    requires forall e :: e in r ==> e in es
    ensures |c| == |r| && forall i :: 0 <= i < |r| ==> c[i] == M.Item(IndexOf(es, r[i]) as real, r[i].value)
  {
    seq(|r|, i requires 0 <= i < |r| => M.Item(IndexOf(es, r[i]) as real, r[i].value))
  }

  lemma InPlace(es: seq<Entry>, i: nat, j: nat)
    requires Sorted(es) && i <= j < |es|
    ensures !Before(es[j].key, es[i].key) && (i < j ==> es[i] != es[j])
  {
    assert i < j ==> Before(es[i].key, es[j].key);
  }

  lemma SameOrder(es: seq<Entry>, x: Entry, y: Entry)
    requires Sorted(es) && x in es && y in es && Before(x.key, y.key)
    ensures IndexOf(es, x) < IndexOf(es, y)
  {
    hide Sorted, Before;
    var i, j := IndexOf(es, x), IndexOf(es, y);
    if j <= i {
      InPlace(es, j, i);
    }
  }

  lemma WholeChild(es: seq<Entry>)
    requires Sorted(es)
    ensures forall i :: 0 <= i < |es| ==> ChildOf(es, es)[i] == M.Item(i as real, es[i].value)
  {
    hide Sorted;
    forall i | 0 <= i < |es| ensures IndexOf(es, es[i]) == i {
      var j := IndexOf(es, es[i]);
      if j < i {
        InPlace(es, j, i);
      } else {
        InPlace(es, i, j);
      }
    }
  }

  function Children(es: seq<Entry>, runs: seq<seq<Entry>>): (cs: seq<seq<M.Item>>)
    requires forall i, e :: 0 <= i < |runs| && e in runs[i] ==> e in es
    ensures |cs| == |runs| && forall i :: 0 <= i < |runs| ==> cs[i] == ChildOf(es, runs[i])
  {
    seq(|runs|, i requires 0 <= i < |runs| => ChildOf(es, runs[i]))
  }

  ghost predicate IsUnion(es: seq<Entry>, runs: seq<seq<Entry>>) {
    && AllSorted(runs) && Separate(runs) && Sorted(es)
    && (forall e :: e in es <==> InSomeRun(runs, e))
    && (forall i, e :: 0 <= i < |runs| && e in runs[i] ==> e in es)
  }

  lemma ChildAscends(es: seq<Entry>, r: seq<Entry>)
    requires Sorted(es) && Sorted(r) && forall e :: e in r ==> e in es
    ensures M.Ascending(ChildOf(es, r))
  {
    forall i, j | 0 <= i < j < |r| ensures ChildOf(es, r)[i].key < ChildOf(es, r)[j].key {
      assert Before(r[i].key, r[j].key);
      SameOrder(es, r[i], r[j]);
    }
  }

  /** The runs are children that MergingIterator accepts, and their sorted union is `es`. */
  lemma MergesTo(es: seq<Entry>, runs: seq<seq<Entry>>)
    requires IsUnion(es, runs)
    ensures M.ChildrenOk(Children(es, runs)) && M.IsMerge(Children(es, runs), ChildOf(es, es))
  {
    var cs, m := Children(es, runs), ChildOf(es, es);
    forall i | 0 <= i < |cs| ensures M.Ascending(cs[i]) {
      ChildAscends(es, runs[i]);
    }
    ChildAscends(es, es);
    forall i, j, a, b | 0 <= i < |cs| && 0 <= j < |cs| && 0 <= a < |cs[i]| && 0 <= b < |cs[j]|
      ensures cs[i][a].key == cs[j][b].key ==> i == j
    {
      InOneChild(es, runs, i, j, a, b);
    }
    WholeChild(es);
    forall x ensures x in m <==> M.InSome(cs, x) {
      InUnion(es, runs, x);
    }
    hide Children, ChildOf, IsUnion, M.Ascending, M.InSome;
  }

  lemma InOneChild(es: seq<Entry>, runs: seq<seq<Entry>>, i: nat, j: nat, a: nat, b: nat)
    requires IsUnion(es, runs) && i < |runs| && j < |runs| && a < |runs[i]| && b < |runs[j]|
    ensures Children(es, runs)[i][a].key == Children(es, runs)[j][b].key ==> i == j
  {
    var x, y := runs[i][a], runs[j][b];
    assert x in runs[i] && y in runs[j];
    assert IndexOf(es, x) == IndexOf(es, y) ==> x == y;
    if i < j {
      assert NothingShared(runs[i], runs[j]);
    } else if j < i {
      assert NothingShared(runs[j], runs[i]);
    }
  }

  lemma InUnion(es: seq<Entry>, runs: seq<seq<Entry>>, x: M.Item)
    requires IsUnion(es, runs) && forall i :: 0 <= i < |es| ==> ChildOf(es, es)[i] == M.Item(i as real, es[i].value)
    ensures x in ChildOf(es, es) <==> M.InSome(Children(es, runs), x)
  {
    hide Sorted, Separate, AllSorted;
    var cs, m := Children(es, runs), ChildOf(es, es);
    if x in m {
      var k :| 0 <= k < |m| && m[k] == x;
      assert es[k] in es;
      var i :| 0 <= i < |runs| && es[k] in runs[i];
      var a :| 0 <= a < |runs[i]| && runs[i][a] == es[k];
      assert cs[i][a] == x && x in cs[i];
    }
    if i :| 0 <= i < |cs| && x in cs[i] {
      var a :| 0 <= a < |cs[i]| && cs[i][a] == x;
      var e := runs[i][a];
      assert e in runs[i] && e in es;
      assert m[IndexOf(es, e)] == x;
    }
  }

  lemma NotEmpty<T>(s: seq<T>)
    requires s != []
    ensures exists x :: x in s
  {
    assert s[0] in s;
  }

  /** There is one sorted union. */
  lemma {:induction false} OneMerge(a: seq<M.Item>, b: seq<M.Item>)
    requires M.Ascending(a) && M.Ascending(b) && forall x :: x in a <==> x in b
    ensures a == b
  {
    if a == [] {
      if b != [] {
        NotEmpty(b);
      }
    } else {
      SameHead(a, b);
      forall x ensures x in a[1..] <==> x in b[1..] {
        RestHas(a, x);
        RestHas(b, x);
      }
      OneMerge(a[1..], b[1..]);
      assert a == [a[0]] + a[1..] && b == [b[0]] + b[1..];
    }
  }

  lemma SameHead(a: seq<M.Item>, b: seq<M.Item>)
    requires M.Ascending(a) && M.Ascending(b) && a != [] && forall x :: x in a <==> x in b
    ensures b != [] && a[0] == b[0]
  {
    assert a[0] in b;
    var j :| 0 <= j < |b| && b[j] == a[0];
    assert b[0] in a;
    var i :| 0 <= i < |a| && a[i] == b[0];
  }

  lemma RestHas(a: seq<M.Item>, x: M.Item)
    requires M.Ascending(a) && a != []
    ensures x in a[1..] <==> x in a && x != a[0]
  {
    assert a == [a[0]] + a[1..];
  }

  /**
   MergingIterator over the runs: after any calls it stands where an iterator over their
   sorted union would, on that operation.
   */
  method WalkRuns(es: seq<Entry>, runs: seq<seq<Entry>>, calls: seq<Call>) returns (it: M.MergingIterator)
    requires IsUnion(es, runs)
    ensures fresh(it) && it.Ok() && |it.merged| == |es|
    ensures it.cursor == MovedBy(M.KeysOf(ChildOf(es, es)), -1, calls)
    ensures it.current.Some? ==> 0 <= it.cursor < |es| && it.Current() == M.Item(it.cursor as real, es[it.cursor].value)
  {
    MergesTo(es, runs);
    WholeChild(es);
    it := new M.MergingIterator(Children(es, runs));
    OneMerge(it.merged, ChildOf(es, es));
    M.Drive(it, calls);
  }

  // --- in every run ----------------------------------------------------------------------------------------

  /** What the iterator shows is what the history answers. */
  lemma ShowsHistory(run: Run, r: Reader, es: seq<Entry>, k: UserKey, v: string)
    requires IsRun(run) && r in run.s.readers && Sorted(es)
    requires r.mem in run.s.core.mems
    requires var c := run.s.core; Elements(es) == ViewContent(c.mems[r.mem], ImmOf(c.mems, r.imm), r.version)
    ensures Pair(k, v) in View(es, r.snapshot) <==> Answers(run.s.core.history, k, r.snapshot, Some(v))
  {
    hide IsRun, View, Answers;
    RunInv(run);
    var c := run.s.core;
    assert ReaderOk(c, r);
    StoreUnique(c, run.s.snapshots, Elements(es));
    hide Inv;
    ViewIsRead(es, r.snapshot, k, v);
  }

  ghost predicate KeysAscend(view: seq<Pair>) {
    forall i, j :: 0 <= i < j < |view| ==> view[i].key < view[j].key
  }

  lemma {:induction false} OneView(a: seq<Pair>, b: seq<Pair>)
    requires KeysAscend(a) && KeysAscend(b) && forall k, v :: Pair(k, v) in a <==> Pair(k, v) in b
    ensures a == b
  {
    forall x ensures x in a <==> x in b {
      assert x == Pair(x.key, x.value);
    }
    if a == [] {
      if b != [] {
        NotEmpty(b);
      }
    } else {
      assert a[0] in b && b[0] in a;
      assert a[0] == b[0];
      assert a == [a[0]] + a[1..] && b == [b[0]] + b[1..];
      OneView(a[1..], b[1..]);
    }
  }

  /** While it lives, an iterator is over the same pairs, whatever is written, flushed and compacted meanwhile. */
  lemma ShowsTheSame(run: Run, past: Run, r: Reader, es: seq<Entry>, es': seq<Entry>)
    requires IsRun(past) && IsRun(run) && Continues(run, past) && r in past.s.readers && r in run.s.readers
    requires r.mem in past.s.core.mems && r.mem in run.s.core.mems && Sorted(es) && Sorted(es')
    requires var c := past.s.core; Elements(es) == ViewContent(c.mems[r.mem], ImmOf(c.mems, r.imm), r.version)
    requires var c := run.s.core; Elements(es') == ViewContent(c.mems[r.mem], ImmOf(c.mems, r.imm), r.version)
    ensures View(es, r.snapshot) == View(es', r.snapshot)
  {
    hide IsRun, View, Answers, Continues;
    var a, b := View(es, r.snapshot), View(es', r.snapshot);
    assert !past.s.phase.Down? && r.snapshot <= past.s.core.lastSequence by {
      RunInv(past);
      assert ReaderOk(past.s.core, r);
    }
    forall k, v ensures Pair(k, v) in a <==> Pair(k, v) in b {
      ShowsHistory(past, r, es, k, v);
      ShowsHistory(run, r, es', k, v);
      SnapshotStable(run, past, k, r.snapshot, Some(v));
    }
    ViewKeysAscend(es, r.snapshot);
    ViewKeysAscend(es', r.snapshot);
    OneView(a, b);
  }

  lemma ViewKeysAscend(es: seq<Entry>, s: nat)
    requires Sorted(es)
    ensures KeysAscend(View(es, s))
  {
    forall i, j | 0 <= i < j < |View(es, s)| ensures View(es, s)[i].key < View(es, s)[j].key {
      ViewAscends(es, s, i, j);
    }
  }

  /**
   An iterator, in every run: at its snapshot it shows exactly the pairs the history
   answers, in strictly ascending order, wherever the calls take it.
   */
  method IterateInRun(ghost run: Run, r: Reader, mem: seq<Entry>, imm: Option<seq<Entry>>, levels: seq<seq<File>>,
                      calls: seq<Call>)
      returns (it: Iterator)
    requires IsRun(run) && r in run.s.readers
    requires Snapshots(run.s.core, r, mem, imm) && Listing(levels, r.version)
    ensures fresh(it) && it.Ok() && it.s == r.snapshot && it.cursor == MovedBy(KeysOf(View(it.es, it.s)), -1, calls)
    ensures forall k, v :: Pair(k, v) in View(it.es, it.s) <==> Answers(run.s.core.history, k, r.snapshot, Some(v))
    ensures KeysAscend(View(it.es, it.s))
  {
    ghost var S := ReaderSees(run, r, mem, imm);
    hide IsRun, Listing, View, Answers, Snapshots, Separate, InSomeRun, AllSorted, MergeAll, ViewContent, ViewOk;
    hide Sorted, Unique;
    var runs := NewInternalIterator(mem, imm, levels, r.version);
    var es := MergeAll(runs);
    MergeAllOk(runs, S);
    assert Elements(es) == S;
    it := new Iterator(es, r.snapshot);
    Drive(it, calls);
    forall k, v ensures Pair(k, v) in View(es, it.s) <==> Answers(run.s.core.history, k, r.snapshot, Some(v)) {
      ShowsHistory(run, r, es, k, v);
    }
    ViewKeysAscend(es, it.s);
  }

  lemma ReaderSees(run: Run, r: Reader, mem: seq<Entry>, imm: Option<seq<Entry>>) returns (S: iset<Entry>)
    requires IsRun(run) && r in run.s.readers && Snapshots(run.s.core, r, mem, imm)
    ensures S == ViewContent(Elements(mem), ImmRun(imm), r.version) && Unique(S)
    ensures ViewOk(Elements(mem), ImmRun(imm), r.version) && Sorted(mem) && (imm.Some? ==> Sorted(imm.value))
    ensures r.mem in run.s.core.mems && ImmRun(imm) == ImmOf(run.s.core.mems, r.imm)
    ensures Elements(mem) == run.s.core.mems[r.mem]
  {
    hide IsRun;
    RunInv(run);
    var c := run.s.core;
    assert ReaderOk(c, r);
    S := ViewContent(Elements(mem), ImmRun(imm), r.version);
    assert ImmRun(imm) == ImmOf(c.mems, r.imm);
    StoreUnique(c, run.s.snapshots, S);
  }
}
