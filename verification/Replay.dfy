/**
 VersionSet::Builder and VersionSet::Recover (db/version_set.cc): edits applied to a
 version, one by one as they happen or all together when the manifest is read back.
 */
module Replay {
  import opened Spec
  import opened Coding
  import opened Block
  import opened VersionEdits

  // --- BySmallestKey -----------------------------------------------------------------------------

  /** By smallest key, then by number. */
  predicate FileLess(f: FileMeta, g: FileMeta) {
    Less(Internal, f.smallest, g.smallest) || (!Less(Internal, g.smallest, f.smallest) && f.number < g.number)
  }

  lemma FileLessTrans(f: FileMeta, g: FileMeta, h: FileMeta)
    requires FileLess(f, g) && FileLess(g, h)
    ensures FileLess(f, h)
  {
    LessTrans(Internal, f.smallest, g.smallest, h.smallest);
    LessTrans(Internal, h.smallest, g.smallest, f.smallest);
    LessTrans(Internal, g.smallest, h.smallest, f.smallest);
    LessTrans(Internal, g.smallest, f.smallest, h.smallest);
    LessTrans(Internal, f.smallest, h.smallest, g.smallest);
    LessTrans(Internal, h.smallest, f.smallest, g.smallest);
  }

  lemma FileLessTotal(f: FileMeta, g: FileMeta)
    ensures f.number != g.number ==> FileLess(f, g) || FileLess(g, f)
    ensures !(FileLess(f, g) && FileLess(g, f)) && !FileLess(f, f)
  {
    LessTrans(Internal, f.smallest, g.smallest, f.smallest);
    LessTrans(Internal, f.smallest, f.smallest, f.smallest);
    BytesTotal(UserPart(f.smallest), UserPart(f.smallest));
  }

  ghost predicate SortedFiles(fs: seq<FileMeta>) {
    forall i, j :: 0 <= i < j < |fs| ==> FileLess(fs[i], fs[j])
  }

  ghost function SetOf(fs: seq<FileMeta>): set<FileMeta> {
    set f | f in fs
  }

  /** A sorted list is determined by what is in it. */
  lemma {:induction false} SortedUnique(a: seq<FileMeta>, b: seq<FileMeta>)
    requires SortedFiles(a) && SortedFiles(b) && forall f :: f in a <==> f in b
    ensures a == b
  {
    hide FileLess;
    assert b != [] ==> b[0] in b && b[0] in a;
    assert a != [] ==> a[0] in a && a[0] in b;
    if a != [] {
      SameFirst(a, b);
      forall f ensures f in a[1..] <==> f in b[1..] {
        NotAgain(a, f);
        NotAgain(b, f);
      }
      SortedUnique(a[1..], b[1..]);
    }
  }

  lemma SameFirst(a: seq<FileMeta>, b: seq<FileMeta>)
    requires SortedFiles(a) && SortedFiles(b) && a != [] && b != [] && a[0] in b && b[0] in a
    ensures a[0] == b[0]
  {
    FirstLeast(a, b[0]);
    FirstLeast(b, a[0]);
    FileLessTotal(a[0], b[0]);
  }

  lemma FirstLeast(a: seq<FileMeta>, f: FileMeta)
    requires SortedFiles(a) && f in a
    ensures a != [] && (f == a[0] || FileLess(a[0], f))
  {
    var i :| 0 <= i < |a| && a[i] == f;
    assert i > 0 ==> FileLess(a[0], a[i]);
  }

  lemma NotAgain(a: seq<FileMeta>, f: FileMeta)
    requires SortedFiles(a) && a != []
    ensures f in a[1..] <==> f in a && f != a[0]
  {
    FileLessTotal(a[0], a[0]);
    assert a == [a[0]] + a[1..];
    if f in a[1..] {
      var i :| 0 <= i < |a[1..]| && a[1..][i] == f;
      assert FileLess(a[0], a[i + 1]);
    }
  }

  // --- one level of the Builder ------------------------------------------------------------------------

  /** LevelState: what the edits so far delete and add on one level. */
  datatype LevelState = LevelState(deleted: set<nat>, added: seq<FileMeta>)

  /** What an edit says about one level. */
  datatype LevelEdit = LevelEdit(deleted: set<nat>, added: seq<FileMeta>)

  ghost function Numbers(fs: set<FileMeta>): set<nat> {
    set f | f in fs :: f.number
  }

  ghost predicate DistinctNumbers(fs: set<FileMeta>) {
    forall f, g :: f in fs && g in fs && f.number == g.number ==> f == g
  }

  /** FileSet::insert. */
  method InsertFile(added: seq<FileMeta>, f: FileMeta) returns (added': seq<FileMeta>)
    requires SortedFiles(added) && forall g :: g in added ==> g.number != f.number
    ensures SortedFiles(added') && SetOf(added') == SetOf(added) + {f}
  {
    var i := 0;
    while i < |added| && FileLess(added[i], f)
      invariant 0 <= i <= |added| && forall j :: 0 <= j < i ==> FileLess(added[j], f)
    {
      i := i + 1;
    }
    InsertSorted(added, i, f);
    added' := added[..i] + [f] + added[i..];
  }

  lemma InsertSorted(a: seq<FileMeta>, i: nat, f: FileMeta)
    requires SortedFiles(a) && i <= |a| && (forall g :: g in a ==> g.number != f.number)
    requires (forall j :: 0 <= j < i ==> FileLess(a[j], f)) && (i < |a| ==> !FileLess(a[i], f))
    ensures SortedFiles(a[..i] + [f] + a[i..]) && SetOf(a[..i] + [f] + a[i..]) == SetOf(a) + {f}
  {
    hide FileLess;
    var r := a[..i] + [f] + a[i..];
    forall j | i <= j < |a| ensures FileLess(f, a[j]) {
      assert a[i] in a;
      FileLessTotal(f, a[i]);
      if i < j {
        assert FileLess(a[i], a[j]);
        FileLessTrans(f, a[i], a[j]);
      }
    }
    forall x, y | 0 <= x < y < |r| ensures FileLess(r[x], r[y]) {
      var x', y' := if x <= i then x else x - 1, if y <= i then y else y - 1;
      if x != i && y != i {
        assert r[x] == a[x'] && r[y] == a[y'] && x' < y';
      }
    }
    assert a == a[..i] + a[i..];
  }

  /** Builder::Apply on one level: first the deletions, then the additions. */
  method ApplyLevel(s: LevelState, e: LevelEdit, ghost all: set<FileMeta>) returns (s': LevelState)
    requires SortedFiles(s.added) && DistinctNumbers(all) && SetOf(s.added) + SetOf(e.added) <= all
    requires (forall i, j :: 0 <= i < j < |e.added| ==> e.added[i] != e.added[j]) && SetOf(s.added) !! SetOf(e.added)
    ensures SortedFiles(s'.added) && SetOf(s'.added) == SetOf(s.added) + SetOf(e.added)
    ensures s'.deleted == (s.deleted + e.deleted) - Numbers(SetOf(e.added))
  {
    var deleted, added := s.deleted + e.deleted, s.added;
    var i := 0;
    while i < |e.added|
      invariant 0 <= i <= |e.added| && SortedFiles(added) && SetOf(added) == SetOf(s.added) + SetOf(e.added[..i])
      invariant deleted == (s.deleted + e.deleted) - Numbers(SetOf(e.added[..i]))
    {
      var f := e.added[i];
      assert e.added[..i + 1] == e.added[..i] + [f];
      Fresh(s.added, e.added, i, all, added);
      added := InsertFile(added, f);
      deleted := deleted - {f.number};
      assert SetOf(e.added[..i + 1]) == SetOf(e.added[..i]) + {f};
      i := i + 1;
    }
    assert e.added[..i] == e.added;
    s' := LevelState(deleted, added);
  }

  lemma Fresh(old_: seq<FileMeta>, new_: seq<FileMeta>, i: nat, all: set<FileMeta>, added: seq<FileMeta>)
    requires i < |new_| && DistinctNumbers(all) && SetOf(old_) + SetOf(new_) <= all && SetOf(old_) !! SetOf(new_)
    requires forall x, y :: 0 <= x < y < |new_| ==> new_[x] != new_[y]
    requires SetOf(added) == SetOf(old_) + SetOf(new_[..i])
    ensures forall g :: g in added ==> g.number != new_[i].number
  {
    forall g | g in added ensures g.number != new_[i].number {
      assert g in SetOf(added) && new_[i] in SetOf(new_);
      if g in new_[..i] {
        var x :| 0 <= x < i && new_[..i][x] == g;
        assert new_[x] in SetOf(new_);
      }
    }
  }

  // --- SaveTo ---------------------------------------------------------------------------------------------

  ghost predicate AllLess(fs: seq<FileMeta>, gs: seq<FileMeta>, from: nat) {
    forall f, i :: f in fs && from <= i < |gs| ==> FileLess(f, gs[i])
  }

  /** The merge has taken `base[..j]` and `added[..i]`, less what is deleted. */
  ghost predicate Merged(files: seq<FileMeta>, base: seq<FileMeta>, j: nat, added: seq<FileMeta>, i: nat,
                         deleted: set<nat>) {
    && j <= |base| && i <= |added| && SortedFiles(files) && AllLess(files, base, j) && AllLess(files, added, i)
    && forall f :: f in files <==> (f in base[..j] || f in added[..i]) && f.number !in deleted
  }

  /** MaybeAddFile keeps the list sorted. */
  lemma AppendFile(files: seq<FileMeta>, f: FileMeta)
    requires SortedFiles(files) && forall g :: g in files ==> FileLess(g, f)
    ensures SortedFiles(files + [f])
  {
    forall x, y | 0 <= x < y < |files + [f]| ensures FileLess((files + [f])[x], (files + [f])[y]) {
      assert files[x] in files;
    }
  }

  lemma TakeBase(files: seq<FileMeta>, base: seq<FileMeta>, j: nat, added: seq<FileMeta>, i: nat, deleted: set<nat>)
    requires Merged(files, base, j, added, i, deleted) && j < |base| && SortedFiles(base)
    requires forall y :: i <= y < |added| ==> FileLess(base[j], added[y])
    ensures Merged(if base[j].number in deleted then files else files + [base[j]], base, j + 1, added, i, deleted)
  {
    hide FileLess;
    AppendFile(files, base[j]);
    assert base[..j + 1] == base[..j] + [base[j]];
  }

  lemma TakeAdded(files: seq<FileMeta>, base: seq<FileMeta>, j: nat, added: seq<FileMeta>, i: nat, deleted: set<nat>)
    requires Merged(files, base, j, added, i, deleted) && i < |added| && SortedFiles(added)
    requires forall x :: j <= x < |base| ==> FileLess(added[i], base[x])
    ensures Merged(if added[i].number in deleted then files else files + [added[i]], base, j, added, i + 1, deleted)
  {
    hide FileLess;
    AppendFile(files, added[i]);
    assert added[..i + 1] == added[..i] + [added[i]];
  }

  lemma LessThanRest(f: FileMeta, gs: seq<FileMeta>, i: nat)
    requires SortedFiles(gs) && i < |gs| && FileLess(f, gs[i])
    ensures forall y :: i <= y < |gs| ==> FileLess(f, gs[y])
  {
    forall y | i <= y < |gs| ensures FileLess(f, gs[y]) {
      if i < y {
        FileLessTrans(f, gs[i], gs[y]);
      }
    }
  }

  /** Builder::SaveTo on one level: the sorted merge of old and added files, without the deleted ones. */
  method SaveLevel(base: seq<FileMeta>, s: LevelState) returns (files: seq<FileMeta>)
    requires SortedFiles(base) && SortedFiles(s.added) && DistinctNumbers(SetOf(base) + SetOf(s.added))
    requires SetOf(base) !! SetOf(s.added)
    ensures SortedFiles(files) && SetOf(files) == set f | f in SetOf(base) + SetOf(s.added) && f.number !in s.deleted
  {
    hide FileLess;
    files := [];
    var j, i := 0, 0;
    while i < |s.added|
      invariant 0 <= i <= |s.added| && 0 <= j <= |base| && Merged(files, base, j, s.added, i, s.deleted)
    {
      while j < |base| && !FileLess(s.added[i], base[j])
        invariant 0 <= j <= |base| && Merged(files, base, j, s.added, i, s.deleted)
      {
        Apart(base, j, s.added, i);
        LessThanRest(base[j], s.added, i);
        TakeBase(files, base, j, s.added, i, s.deleted);
        files := if base[j].number in s.deleted then files else files + [base[j]];
        j := j + 1;
      }
      if j < |base| {
        LessThanRest(s.added[i], base, j);
      }
      TakeAdded(files, base, j, s.added, i, s.deleted);
      files := if s.added[i].number in s.deleted then files else files + [s.added[i]];
      i := i + 1;
    }
    while j < |base|
      invariant 0 <= j <= |base| && Merged(files, base, j, s.added, i, s.deleted)
    {
      TakeBase(files, base, j, s.added, i, s.deleted);
      files := if base[j].number in s.deleted then files else files + [base[j]];
      j := j + 1;
    }
    assert base[..j] == base && s.added[..i] == s.added;
  }

  lemma Apart(base: seq<FileMeta>, j: nat, added: seq<FileMeta>, i: nat)
    requires DistinctNumbers(SetOf(base) + SetOf(added)) && SetOf(base) !! SetOf(added) && j < |base| && i < |added|
    ensures FileLess(base[j], added[i]) || FileLess(added[i], base[j])
  {
    assert base[j] in SetOf(base) && added[i] in SetOf(added);
    FileLessTotal(base[j], added[i]);
  }

  // --- all edits together, or one at a time -----------------------------------------------------------------

  /** A level after one edit, as a set. */
  ghost function After(V: set<FileMeta>, e: LevelEdit): set<FileMeta> {
    set f | f in V + SetOf(e.added) && f.number !in e.deleted - Numbers(SetOf(e.added))
  }

  ghost function AfterEach(V: set<FileMeta>, es: seq<LevelEdit>): set<FileMeta> {
    if es == [] then V else After(AfterEach(V, es[..|es| - 1]), es[|es| - 1])
  }

  /** What one Builder has gathered from all edits. */
  ghost function Deleted(es: seq<LevelEdit>): set<nat> {
    if es == [] then {} else (Deleted(es[..|es| - 1]) + es[|es| - 1].deleted) - Numbers(SetOf(es[|es| - 1].added))
  }

  ghost function Added(es: seq<LevelEdit>): set<FileMeta> {
    if es == [] then {} else Added(es[..|es| - 1]) + SetOf(es[|es| - 1].added)
  }

  ghost function AfterAll(V: set<FileMeta>, es: seq<LevelEdit>): set<FileMeta> {
    set f | f in V + Added(es) && f.number !in Deleted(es)
  }

  /** No file number is used twice on the level. */
  ghost predicate AddedOnce(V: set<FileMeta>, es: seq<LevelEdit>) {
    if es == [] then DistinctNumbers(V)
    else
      var front, e := es[..|es| - 1], es[|es| - 1];
      && AddedOnce(V, front) && Numbers(V + Added(front)) !! Numbers(SetOf(e.added)) && DistinctNumbers(SetOf(e.added))
      && forall i, j :: 0 <= i < j < |e.added| ==> e.added[i] != e.added[j]
  }

  /** Replaying the manifest through one Builder gives the version that installing edit by edit gave. */
  lemma {:induction false} ReplayIsSequential(V: set<FileMeta>, es: seq<LevelEdit>)
    requires AddedOnce(V, es)
    ensures AfterAll(V, es) == AfterEach(V, es)
  {
    if es != [] {
      var front, e := es[..|es| - 1], es[|es| - 1];
      ReplayIsSequential(V, front);
      var a := SetOf(e.added);
      forall f ensures f in AfterAll(V, es) <==> f in AfterEach(V, es) {
        if f in a {
          assert f.number in Numbers(a);
        } else if f in V + Added(front) {
          assert f.number in Numbers(V + Added(front));
        }
      }
    }
  }

  lemma {:induction false} NothingLost(V: set<FileMeta>, es: seq<LevelEdit>)
    ensures AfterEach(V, es) <= AfterAll(V, es)
  {
    if es != [] {
      var front, e := es[..|es| - 1], es[|es| - 1];
      NothingLost(V, front);
      forall f | f in AfterEach(V, es) ensures f in AfterAll(V, es) {
        assert f in SetOf(e.added) ==> f.number in Numbers(SetOf(e.added));
      }
    }
  }

  /** The edit takes number `n` away: deleted, and not added by the same edit. */
  ghost predicate Removes(e: LevelEdit, n: nat) {
    n in e.deleted - Numbers(SetOf(e.added))
  }

  /**
   Edit `i` removes the file `f`, no later edit adds it again, and edit `j`, the last word
   on its number, adds a file under it.
   */
  ghost predicate ReusesNumber(V: set<FileMeta>, es: seq<LevelEdit>, f: FileMeta, i: nat, j: nat) {
    && i < j < |es|
    && f in V + Added(es[..i]) && Removes(es[i], f.number)
    && (forall m :: i < m < |es| ==> f !in es[m].added)
    && f.number in Numbers(SetOf(es[j].added))
    && (forall m :: j < m < |es| ==> !Removes(es[m], f.number))
  }

  lemma Fronts(es: seq<LevelEdit>, k: nat)
    requires k < |es|
    ensures es[..|es| - 1][..k] == es[..k]
  {
  }

  /** What was known early is known in the end. */
  lemma {:induction false} AddedGrows(es: seq<LevelEdit>, i: nat)
    requires i <= |es|
    ensures Added(es[..i]) <= Added(es)
  {
    if i < |es| {
      AddedGrows(es[..|es| - 1], i);
      Fronts(es, i);
    } else {
      assert es[..i] == es;
    }
  }

  lemma {:induction false} StaysAway(V: set<FileMeta>, es: seq<LevelEdit>, f: FileMeta, i: nat)
    requires i < |es| && Removes(es[i], f.number) && forall m :: i < m < |es| ==> f !in es[m].added
    ensures f !in AfterEach(V, es)
  {
    if i < |es| - 1 {
      StaysAway(V, es[..|es| - 1], f, i);
    }
  }

  lemma {:induction false} NotDeleted(es: seq<LevelEdit>, n: nat, j: nat)
    requires j < |es| && n in Numbers(SetOf(es[j].added)) && forall m :: j < m < |es| ==> !Removes(es[m], n)
    ensures n !in Deleted(es)
  {
    if j < |es| - 1 {
      NotDeleted(es[..|es| - 1], n, j);
    }
  }

  /** A file that was there and is gone was removed last by some edit. */
  lemma {:induction false} RemovedAt(V: set<FileMeta>, es: seq<LevelEdit>, f: FileMeta) returns (i: nat)
    requires f in V + Added(es) && f !in AfterEach(V, es)
    ensures i < |es| && f in V + Added(es[..i]) && Removes(es[i], f.number)
    ensures forall m :: i < m < |es| ==> f !in es[m].added && !Removes(es[m], f.number)
  {
    var k := |es| - 1;
    var front, e := es[..k], es[k];
    assert f in e.added ==> f.number in Numbers(SetOf(e.added));
    if Removes(e, f.number) {
      i := k;
    } else {
      i := RemovedAt(V, front, f);
      Fronts(es, i);
      assert forall m :: i < m < k ==> es[m] == front[m];
    }
  }

  lemma {:induction false} AddedAgain(es: seq<LevelEdit>, n: nat, i: nat) returns (j: nat)
    requires i < |es| && Removes(es[i], n) && n !in Deleted(es)
    ensures i < j < |es| && n in Numbers(SetOf(es[j].added))
  {
    var k := |es| - 1;
    if n in Numbers(SetOf(es[k].added)) {
      j := k;
    } else {
      j := AddedAgain(es[..k], n, i);
    }
  }

  /**
   Replaying all edits through one Builder agrees with installing them one by one, unless
   a removed file's number is used again.
   */
  lemma ReplayExact(V: set<FileMeta>, es: seq<LevelEdit>)
    ensures AfterAll(V, es) == AfterEach(V, es) <==> forall f, i, j :: !ReusesNumber(V, es, f, i, j)
  {
    NothingLost(V, es);
    if f :| f in AfterAll(V, es) && f !in AfterEach(V, es) {
      var i := RemovedAt(V, es, f);
      var j := AddedAgain(es, f.number, i);
      assert ReusesNumber(V, es, f, i, j);
    }
    forall f, i, j | ReusesNumber(V, es, f, i, j) ensures f in AfterAll(V, es) && f !in AfterEach(V, es) {
      AddedGrows(es, i);
      StaysAway(V, es, f, i);
      NotDeleted(es, f.number, j);
    }
  }

  /** The two ways of arriving at a version give the same sorted lists. */
  lemma SameLists(base: seq<FileMeta>, es: seq<LevelEdit>, atOnce: seq<FileMeta>, oneByOne: seq<FileMeta>)
    requires AddedOnce(SetOf(base), es) && SortedFiles(atOnce) && SortedFiles(oneByOne)
    requires SetOf(atOnce) == AfterAll(SetOf(base), es) && SetOf(oneByOne) == AfterEach(SetOf(base), es)
    ensures atOnce == oneByOne
  {
    ReplayIsSequential(SetOf(base), es);
    forall f ensures f in atOnce <==> f in oneByOne {
      assert f in SetOf(atOnce) <==> f in SetOf(oneByOne);
    }
    SortedUnique(atOnce, oneByOne);
  }

  lemma {:induction false} OnceDistinct(V: set<FileMeta>, es: seq<LevelEdit>)
    requires AddedOnce(V, es)
    ensures DistinctNumbers(V + Added(es)) && V !! Added(es)
  {
    if es == [] {
      assert V + Added(es) == V;
    } else {
      var front, e := es[..|es| - 1], es[|es| - 1];
      OnceDistinct(V, front);
      assert V + Added(es) == (V + Added(front)) + SetOf(e.added);
      forall f, g | f in V + Added(es) && g in V + Added(es) && f.number == g.number ensures f == g {
        assert f.number in Numbers(V + Added(front)) || f.number in Numbers(SetOf(e.added));
      }
      forall f | f in SetOf(e.added) ensures f !in V {
        assert f.number in Numbers(SetOf(e.added));
      }
    }
  }

  lemma OnceFront(V: set<FileMeta>, es: seq<LevelEdit>, k: nat)
    requires AddedOnce(V, es) && k <= |es|
    ensures AddedOnce(V, es[..k])
    decreases |es|
  {
    if k < |es| {
      OnceFront(V, es[..|es| - 1], k);
      assert es[..|es| - 1][..k] == es[..k];
    } else {
      assert es[..k] == es;
    }
  }

  lemma OnceNext(V: set<FileMeta>, es: seq<LevelEdit>, k: nat)
    requires AddedOnce(V, es) && k < |es|
    ensures AddedOnce(V, es[..k + 1]) && es[..k + 1][..k] == es[..k] && es[..k + 1][k] == es[k]
    ensures Added(es[..k + 1]) == Added(es[..k]) + SetOf(es[k].added)
    ensures Deleted(es[..k + 1]) == (Deleted(es[..k]) + es[k].deleted) - Numbers(SetOf(es[k].added))
    ensures SetOf(es[k].added) !! Added(es[..k]) + V
    ensures DistinctNumbers(V + Added(es[..k + 1]))
    ensures forall i, j :: 0 <= i < j < |es[k].added| ==> es[k].added[i] != es[k].added[j]
  {
    OnceFront(V, es, k + 1);
    OnceDistinct(V, es[..k + 1]);
    var front := es[..k + 1][..k];
    assert front == es[..k];
    forall f | f in SetOf(es[k].added) ensures f !in Added(es[..k]) + V {
      assert f.number in Numbers(SetOf(es[k].added));
    }
  }

  /** One Builder for all edits, as when the manifest is read. */
  method ReplayAll(base: seq<FileMeta>, es: seq<LevelEdit>) returns (files: seq<FileMeta>)
    requires SortedFiles(base) && AddedOnce(SetOf(base), es)
    ensures SortedFiles(files) && SetOf(files) == AfterAll(SetOf(base), es)
  {
    var s := LevelState({}, []);
    var k := 0;
    while k < |es|
      invariant 0 <= k <= |es| && SortedFiles(s.added) && SetOf(s.added) == Added(es[..k])
      invariant s.deleted == Deleted(es[..k])
    {
      OnceNext(SetOf(base), es, k);
      s := ApplyLevel(s, es[k], SetOf(base) + Added(es[..k + 1]));
      k := k + 1;
    }
    assert es[..k] == es;
    OnceDistinct(SetOf(base), es);
    files := SaveLevel(base, s);
  }

  /** A Builder for each edit, as LogAndApply does. */
  method InstallEach(base: seq<FileMeta>, es: seq<LevelEdit>) returns (files: seq<FileMeta>)
    requires SortedFiles(base) && AddedOnce(SetOf(base), es)
    ensures SortedFiles(files) && SetOf(files) == AfterEach(SetOf(base), es)
  {
    files := base;
    var k := 0;
    while k < |es|
      invariant 0 <= k <= |es| && SortedFiles(files) && SetOf(files) == AfterEach(SetOf(base), es[..k])
    {
      OnceNext(SetOf(base), es, k);
      OnceFront(SetOf(base), es, k);
      Within(SetOf(base), es[..k]);
      var s := ApplyLevel(LevelState({}, []), es[k], SetOf(base) + Added(es[..k + 1]));
      OneEdit(es[k], s);
      files := SaveLevel(files, s);
      k := k + 1;
    }
    assert es[..k] == es;
  }

  lemma OneEdit(e: LevelEdit, s: LevelState)
    requires s.deleted == ({} + e.deleted) - Numbers(SetOf(e.added)) && SetOf(s.added) == SetOf([]) + SetOf(e.added)
    ensures s.deleted == e.deleted - Numbers(SetOf(e.added)) && SetOf(s.added) == SetOf(e.added)
  {
  }

  lemma {:induction false} Within(V: set<FileMeta>, es: seq<LevelEdit>)
    ensures AfterEach(V, es) <= V + Added(es)
  {
    if es != [] {
      Within(V, es[..|es| - 1]);
    }
  }

  /**
   Such a case: a number deleted and used again brings the old file back
   when edits are replayed together.
   */
  lemma ReusedNumberReturns(f: FileMeta, g: FileMeta)
    requires f != g && f.number == g.number
    ensures var es := [LevelEdit({f.number}, []), LevelEdit({}, [g])];
            AfterEach({f}, es) == {g} && AfterAll({f}, es) == {f, g} && !AddedOnce({f}, es)
  {
    var d, a := LevelEdit({f.number}, []), LevelEdit({}, [g]);
    var es := [d, a];
    assert es[..1] == [d] && [d][..0] == [];
    assert SetOf(d.added) == {} && SetOf(a.added) == {g};
    assert AfterEach({f}, [d]) == {};
    assert Deleted([d]) == {f.number} && Deleted(es) == {};
    assert Added([d]) == {} && Added(es) == {g};
    assert f.number in Numbers({f} + Added([d])) && g.number in Numbers(SetOf(a.added));
  }

  // --- VersionSet::Recover ---------------------------------------------------------------------------------

  function AddedAt(ns: seq<(nat, FileMeta)>, level: nat): seq<FileMeta> {
    if ns == [] then [] else
      AddedAt(ns[..|ns| - 1], level) + (if ns[|ns| - 1].0 == level then [ns[|ns| - 1].1] else [])
  }

  function LevelOf(e: Edit, level: nat): LevelEdit {
    LevelEdit(set x | x in e.deletedFiles && x.0 == level :: x.1, AddedAt(e.newFiles, level))
  }

  ghost function LevelEdits(es: seq<Edit>, level: nat): (r: seq<LevelEdit>)
    ensures |r| == |es| && forall i :: 0 <= i < |es| ==> r[i] == LevelOf(es[i], level)
  {
    seq(|es|, i requires 0 <= i < |es| => LevelOf(es[i], level))
  }

  /** The last edit that sets a number decides. */
  ghost function LastLog(es: seq<Edit>): Option<nat> {
    if es == [] then None else if es[|es| - 1].logNumber.Some? then es[|es| - 1].logNumber else LastLog(es[..|es| - 1])
  }

  ghost function LastNextFile(es: seq<Edit>): Option<nat> {
    if es == [] then None
    else if es[|es| - 1].nextFileNumber.Some? then es[|es| - 1].nextFileNumber
    else LastNextFile(es[..|es| - 1])
  }

  ghost function LastSeq(es: seq<Edit>): Option<nat> {
    if es == [] then None
    else if es[|es| - 1].lastSequence.Some? then es[|es| - 1].lastSequence
    else LastSeq(es[..|es| - 1])
  }

  ghost predicate Encodes(record: Bytes, e: Edit) {
    EditOk(e) && exists ds :: Lists(ds, e.deletedFiles) && record == EncodeFields(Fields(e, ds))
  }

  /** The manifest's records are these edits, of one comparator, none of them using a file number again. */
  ghost predicate IsManifest(records: seq<Bytes>, es: seq<Edit>, comparator: Bytes) {
    && |records| == |es| && (forall i :: 0 <= i < |es| ==> Encodes(records[i], es[i]))
    && (forall i :: 0 <= i < |es| && es[i].comparator.Some? ==> es[i].comparator.value == comparator)
    && forall level :: 0 <= level < VersionEdits.NUM_LEVELS ==> AddedOnce({}, LevelEdits(es, level))
  }

  /** Reads one record into a fresh edit. */
  method ReadEdit(record: Bytes, ghost e: Edit) returns (ok: bool, r: Edit)
    ensures Encodes(record, e) ==> ok && r == e
  {
    if Encodes(record, e) {
      ghost var ds :| Lists(ds, e.deletedFiles) && record == EncodeFields(Fields(e, ds));
      FieldsOk(e, ds);
      TakeFields(EMPTY, e, ds);
      FieldsBack(Fields(e, ds));
    }
    ok, r := DecodeFrom(record, EMPTY);
  }

  /** The level states after some edits. */
  ghost predicate Gathered(ls: seq<LevelState>, es: seq<Edit>) {
    |ls| == VersionEdits.NUM_LEVELS && forall l :: 0 <= l < VersionEdits.NUM_LEVELS ==>
        Gathers(ls[l], LevelEdits(es, l))
  }

  ghost predicate Gathers(s: LevelState, es: seq<LevelEdit>) {
    SortedFiles(s.added) && SetOf(s.added) == Added(es) && s.deleted == Deleted(es)
  }

  lemma LevelPrefix(es: seq<Edit>, k: nat, l: nat)
    requires k <= |es|
    ensures LevelEdits(es[..k], l) == LevelEdits(es, l)[..k]
  {
  }

  /** Builder::Apply: one more edit on every level. */
  method ApplyEdit(ls: seq<LevelState>, e: Edit, ghost es: seq<Edit>, ghost k: nat) returns (ls': seq<LevelState>)
    requires k < |es| && e == es[k] && Gathered(ls, es[..k])
    requires forall l :: 0 <= l < VersionEdits.NUM_LEVELS ==> AddedOnce({}, LevelEdits(es, l))
    ensures Gathered(ls', es[..k + 1])
  {
    hide AddedOnce, Gathers;
    ls' := [];
    var l := 0;
    while l < VersionEdits.NUM_LEVELS
      invariant 0 <= l <= VersionEdits.NUM_LEVELS && |ls'| == l
      invariant forall m :: 0 <= m < l ==> Gathers(ls'[m], LevelEdits(es[..k + 1], m))
    {
      LevelPrefix(es, k, l);
      LevelPrefix(es, k + 1, l);
      assert AddedOnce({}, LevelEdits(es, l)) && Gathers(ls[l], LevelEdits(es[..k], l));
      var s := GatherOne(ls[l], LevelOf(e, l), LevelEdits(es, l), k);
      ls' := ls' + [s];
      l := l + 1;
    }
  }

  method GatherOne(s: LevelState, e: LevelEdit, ghost es: seq<LevelEdit>, ghost k: nat) returns (s': LevelState)
    requires k < |es| && e == es[k] && AddedOnce({}, es) && Gathers(s, es[..k])
    ensures Gathers(s', es[..k + 1])
  {
    OnceNext({}, es, k);
    s' := ApplyLevel(s, e, Added(es[..k + 1]) + {});
  }

  /**
   VersionSet::Recover: reads the manifest record by record through one Builder.  On a
   manifest that LogAndApply wrote it arrives, level by level, at the sorted lists that
   installing the edits one at a time gives, and at the last numbers recorded.
   */
  method RecoverManifest(records: seq<Bytes>, comparator: Bytes, ghost es: seq<Edit>)
    returns (ok: bool, levels: seq<seq<FileMeta>>, logNumber: Option<nat>, nextFile: Option<nat>,
             lastSequence: Option<nat>)
    requires IsManifest(records, es, comparator)
    ensures ok <==> LastLog(es).Some? && LastNextFile(es).Some? && LastSeq(es).Some?
    ensures logNumber == LastLog(es) && nextFile == LastNextFile(es) && lastSequence == LastSeq(es)
    ensures |levels| == VersionEdits.NUM_LEVELS && forall l :: 0 <= l < VersionEdits.NUM_LEVELS ==>
              SortedFiles(levels[l]) && SetOf(levels[l]) == AfterEach({}, LevelEdits(es, l))
  {
    hide AddedOnce, Encodes, Gathers;
    var ls := seq(VersionEdits.NUM_LEVELS, i => LevelState({}, []));
    logNumber, nextFile, lastSequence := None, None, None;
    NothingGathered(ls, es);
    var k := 0;
    while k < |records|
      invariant 0 <= k <= |records| && Gathered(ls, es[..k])
      invariant logNumber == LastLog(es[..k]) && nextFile == LastNextFile(es[..k]) && lastSequence == LastSeq(es[..k])
    {
      var read, e := ReadEdit(records[k], es[k]);
      assert es[..k + 1][..k] == es[..k];
      ls := ApplyEdit(ls, e, es, k);
      logNumber := if e.logNumber.Some? then e.logNumber else logNumber;
      nextFile := if e.nextFileNumber.Some? then e.nextFileNumber else nextFile;
      lastSequence := if e.lastSequence.Some? then e.lastSequence else lastSequence;
      k := k + 1;
    }
    assert es[..k] == es;
    ok := logNumber.Some? && nextFile.Some? && lastSequence.Some?;
    levels := SaveAll(ls, es);
  }

  lemma NothingGathered(ls: seq<LevelState>, es: seq<Edit>)
    requires |ls| == VersionEdits.NUM_LEVELS && forall i :: 0 <= i < |ls| ==> ls[i] == LevelState({}, [])
    ensures Gathered(ls, es[..0])
  {
    forall l | 0 <= l < VersionEdits.NUM_LEVELS ensures Gathers(ls[l], LevelEdits(es[..0], l)) {
      assert LevelEdits(es[..0], l) == [];
    }
  }

  /** Builder::SaveTo on every level, from an empty version. */
  method SaveAll(ls: seq<LevelState>, ghost es: seq<Edit>) returns (levels: seq<seq<FileMeta>>)
    requires Gathered(ls, es) && forall l :: 0 <= l < VersionEdits.NUM_LEVELS ==> AddedOnce({}, LevelEdits(es, l))
    ensures |levels| == VersionEdits.NUM_LEVELS && forall l :: 0 <= l < VersionEdits.NUM_LEVELS ==>
              SortedFiles(levels[l]) && SetOf(levels[l]) == AfterEach({}, LevelEdits(es, l))
  {
    levels := [];
    var l := 0;
    while l < VersionEdits.NUM_LEVELS
      invariant 0 <= l <= VersionEdits.NUM_LEVELS && |levels| == l
      invariant forall m :: 0 <= m < l ==>
                  SortedFiles(levels[m]) && SetOf(levels[m]) == AfterEach({}, LevelEdits(es, m))
    {
      var files := SaveOne(ls[l], LevelEdits(es, l));
      levels := levels + [files];
      l := l + 1;
    }
  }

  method SaveOne(s: LevelState, ghost es: seq<LevelEdit>) returns (files: seq<FileMeta>)
    requires Gathers(s, es) && AddedOnce({}, es)
    ensures SortedFiles(files) && SetOf(files) == AfterEach({}, es)
  {
    OnceDistinct({}, es);
    assert SetOf([]) + SetOf(s.added) == {} + Added(es);
    files := SaveLevel([], s);
    ReplayIsSequential({}, es);
  }
}
