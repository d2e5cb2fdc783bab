/**
 The manifest of a run (VersionSet::LogAndApply, WriteSnapshot, Recover): its edits never
 use a file number twice on a level, so reading them back gives the version the engine
 last committed.
 */
module Manifests {
  import opened Spec
  import opened Versions
  import opened Coding
  import opened Install
  import opened Engine
  import opened EngineSteps
  import opened EngineMain
  import R = Replay
  import E = VersionEdits

  // --- what a run records -------------------------------------------------------------------

  /**
   The versions the current manifest file describes, one per record: it starts with a
   snapshot of the version that was current when it was created.
   */
  ghost function Recorded(run: Run): seq<set<Placed>> {
    match run
    case Start(s) => [s.manifest.version]
    case Then(before, step, s) =>
      if step.Recovered? then [before.s.manifest.version, s.manifest.version]
      else if step.FlushCommit? || step.CompactCommit? || step.MoveCommit? then Recorded(before) + [s.manifest.version]
      else Recorded(before)
  }

  ghost function AllPlaced(vs: seq<set<Placed>>): set<Placed> {
    if vs == [] then {} else AllPlaced(vs[..|vs| - 1]) + vs[|vs| - 1]
  }

  ghost function LastOf(vs: seq<set<Placed>>): set<Placed> {
    if vs == [] then {} else vs[|vs| - 1]
  }

  /** Files that `V` has, and that an earlier version had, were never as deep as `p`. */
  ghost predicate New(earlier: set<Placed>, p: Placed) {
    forall q :: q in earlier && q.file.number == p.file.number ==> q.level < p.level
  }

  ghost predicate OneEach(V: set<Placed>) {
    forall p, q :: p in V && q in V && p.file.number == q.file.number ==> p == q
  }

  /** Each version adds to a level only numbers that the level never had. */
  ghost predicate NoReuse(vs: seq<set<Placed>>) {
    vs != [] ==>
      var front := vs[..|vs| - 1];
      && NoReuse(front) && OneEach(LastOf(vs))
      && forall p :: p in LastOf(vs) && p !in LastOf(front) ==> New(AllPlaced(front), p)
  }

  // --- the invariant ------------------------------------------------------------------------

  /** No file was ever deeper than it is now. */
  ghost predicate NeverDeeper(all: set<Placed>, V: set<Placed>) {
    forall p, q :: p in V && q in all && q.file.number == p.file.number ==> q.level <= p.level
  }

  ghost predicate Unused(all: set<Placed>, ns: set<nat>) {
    forall q :: q in all ==> q.file.number !in ns
  }

  /** Outputs of a compaction stay protected until the version that has them is current. */
  ghost predicate PendingUnused(s: State, all: set<Placed>) {
    (s.phase.Installing? && !s.phase.flushed) || Unused(all, s.pending)
  }

  ghost predicate ManifestInv(s: State, vs: seq<set<Placed>>) {
    && vs != [] && LastOf(vs) == s.manifest.version && NoReuse(vs)
    && NeverDeeper(AllPlaced(vs), s.manifest.version) && Below(Numbers(AllPlaced(vs)), s.nextFile)
    && PendingUnused(s, AllPlaced(vs))
  }

  lemma TreeOneEach(V: set<Placed>)
    requires TreeOk(V)
    ensures OneEach(V)
  {
    forall p, q | p in V && q in V && p.file.number == q.file.number ensures p == q {
      assert p != q ==> PairOk(p, q);
    }
  }

  lemma Grown(vs: seq<set<Placed>>, V: set<Placed>)
    ensures AllPlaced(vs + [V]) == AllPlaced(vs) + V && LastOf(vs + [V]) == V && (vs + [V])[..|vs|] == vs
  {
    assert (vs + [V])[..|vs|] == vs;
  }

  /** A manifest record whose new files are new to their level. */
  lemma RecordInv(s: State, s': State, vs: seq<set<Placed>>)
    requires ManifestInv(s, vs) && OneEach(s'.manifest.version) && s.nextFile == s'.nextFile
    requires forall p :: p in s'.manifest.version && p !in s.manifest.version ==>
               New(AllPlaced(vs), p) && p.file.number < s.nextFile
    requires PendingUnused(s', AllPlaced(vs) + s'.manifest.version)
    ensures ManifestInv(s', vs + [s'.manifest.version])
  {
    var all, V, V' := AllPlaced(vs), s.manifest.version, s'.manifest.version;
    Grown(vs, V');
    forall p: Placed, q: Placed | p in V' && q in all + V' && q.file.number == p.file.number
      ensures q.level <= p.level
    {
      if q in all && p !in V {
        assert New(all, p);
      }
    }
    forall q | q in all ensures q.file.number < s.nextFile {
      assert q.file.number in Numbers(all);
    }
  }

  lemma FlushRecords(s: State, s': State, vs: seq<set<Placed>>, level: nat)
    requires ManifestInv(s, vs) && IsFlushCommit(s, s', level) && FlushTableOk(s) && s.manifest.version == s.version
    requires TreeOk(s'.manifest.version) && Below(s.pending, s.nextFile)
    ensures ManifestInv(s', vs + [s'.manifest.version])
  {
    TreeOneEach(s'.manifest.version);
    RecordInv(s, s', vs);
  }

  lemma CompactRecords(s: State, s': State, vs: seq<set<Placed>>, outputs: set<Placed>)
    requires ManifestInv(s, vs) && IsCompactCommit(s, s', outputs) && s.manifest.version == s.version
    requires TreeOk(s'.manifest.version) && Below(s.pending, s.nextFile)
    ensures ManifestInv(s', vs + [s'.manifest.version])
  {
    TreeOneEach(s'.manifest.version);
    RecordInv(s, s', vs);
  }

  lemma MoveRecords(s: State, s': State, vs: seq<set<Placed>>, f: File)
    requires ManifestInv(s, vs) && IsMoveCommit(s, s', f) && s.manifest.version == s.version
    requires TreeOk(s'.manifest.version) && s.phase.job.inputs <= s.version
    ensures ManifestInv(s', vs + [s'.manifest.version])
  {
    TreeOneEach(s'.manifest.version);
    var P := Placed(s.phase.job.level, f);
    assert P in s.version;
    assert f.number in Numbers(AllPlaced(vs)) by {
      Grown(vs[..|vs| - 1], LastOf(vs));
      assert vs == vs[..|vs| - 1] + [LastOf(vs)] && P in AllPlaced(vs);
    }
    RecordInv(s, s', vs);
  }

  lemma RecoveredRecords(s: State, s': State, files: seq<File>, log: nat, last: nat)
    requires IsRecovered(s, s', files, log, last) && Below(Numbers(s.manifest.version), s.manifest.nextFile)
    requires s.pending == {}
    requires TreeOk(s.manifest.version) && TreeOk(s'.manifest.version)
    ensures ManifestInv(s', [s.manifest.version, s'.manifest.version])
  {
    var V, V' := s.manifest.version, s'.manifest.version;
    var vs := [V];
    TreeOneEach(V);
    TreeOneEach(V');
    Grown([], V);
    assert [] + [V] == vs && vs + [V'] == [V, V'];
    Grown(vs, V');
    assert NoReuse([]) && NoReuse(vs);
    forall p | p in V ensures p.file.number < s.manifest.nextFile {
      assert p.file.number in Numbers(V);
    }
    forall p | p in V' && p !in V ensures New(AllPlaced(vs), p) {
    }
    assert NoReuse([V, V']);
  }

  ghost predicate IsRecord(step: Step) {
    step.FlushCommit? || step.CompactCommit? || step.MoveCommit? || step.Recovered?
  }

  /** Every other step leaves the manifest alone and uses only fresh numbers. */
  lemma OthersRecordNothing(s: State, s': State, vs: seq<set<Placed>>, step: Step)
    requires ManifestInv(s, vs) && Next(s, s', step) && !IsRecord(step) && DiskInv(s)
    ensures ManifestInv(s', vs)
  {
    hide NoReuse, AllPlaced, NeverDeeper;
    assert s'.manifest == s.manifest && s.nextFile <= s'.nextFile;
    forall q | q in AllPlaced(vs) ensures q.file.number < s.nextFile {
      assert q.file.number in Numbers(AllPlaced(vs));
    }
    assert PendingUnused(s', AllPlaced(vs));
  }

  lemma StepRecords(s: State, s': State, vs: seq<set<Placed>>, step: Step)
    requires ManifestInv(s, vs) && Inv(s) && Inv(s') && Next(s, s', step)
    ensures ManifestInv(s', if step.Recovered? then [s.manifest.version, s'.manifest.version]
                            else if IsRecord(step) then vs + [s'.manifest.version] else vs)
  {
    hide Inv, ManifestInv, TreeOk, DiskInv, FlushTableOk, Below, Next;
    StepFacts(s, s', step);
    if step.FlushCommit? || step.CompactCommit? || step.MoveCommit? {
      CommitRecords(s, s', vs, step);
    } else if step.Recovered? {
      EndRecords(s, s', step);
    } else {
      OthersRecordNothing(s, s', vs, step);
    }
  }

  lemma CommitRecords(s: State, s': State, vs: seq<set<Placed>>, step: Step)
    requires ManifestInv(s, vs) && Next(s, s', step) && (step.FlushCommit? || step.CompactCommit? || step.MoveCommit?)
    requires FlushTableOk(s) && TreeOk(s'.manifest.version) && Below(s.pending, s.nextFile)
    requires s.manifest.version == s.version
    requires step.MoveCommit? ==> s.phase.Compacting? && s.phase.job.inputs <= s.version
    ensures ManifestInv(s', vs + [s'.manifest.version])
  {
    hide ManifestInv, TreeOk, FlushTableOk, Below, IsFlushCommit, IsCompactCommit, IsMoveCommit;
    match step
    case FlushCommit(level) => FlushRecords(s, s', vs, level);
    case CompactCommit(outputs) => CompactRecords(s, s', vs, outputs);
    case MoveCommit(f) => MoveRecords(s, s', vs, f);
  }

  lemma EndRecords(s: State, s': State, step: Step)
    requires Next(s, s', step) && step.Recovered? && Below(Numbers(s.manifest.version), s.manifest.nextFile)
    requires s.pending == {}
    requires TreeOk(s.manifest.version) && TreeOk(s'.manifest.version)
    ensures ManifestInv(s', [s.manifest.version, s'.manifest.version])
  {
    hide ManifestInv, TreeOk, Below, IsRecovered;
    RecoveredRecords(s, s', step.files, step.log, step.last);
  }

  lemma StepFacts(s: State, s': State, step: Step)
    requires Inv(s) && Inv(s') && Next(s, s', step)
    ensures DiskInv(s) && FlushTableOk(s) && TreeOk(s.manifest.version) && TreeOk(s'.manifest.version)
    ensures Below(s.pending, s.nextFile) && Below(Numbers(s.manifest.version), s.manifest.nextFile)
    ensures IsRecord(step) && !step.Recovered? ==> s.manifest.version == s.version
    ensures step.MoveCommit? ==> s.phase.Compacting? && s.phase.job.inputs <= s.version
    ensures step.Recovered? ==> s.pending == {}
  {
    hide Next, LogInv, ReadersInv, SequenceInv;
    StepPhase(s, s', step);
  }

  lemma StepPhase(s: State, s': State, step: Step)
    requires Next(s, s', step)
    ensures step.FlushCommit? ==> s.phase.Flushing?
    ensures step.CompactCommit? || step.MoveCommit? ==> s.phase.Compacting?
    ensures step.Recovered? ==> s.phase.Down?
  {
    hide Rebuilt, RecoveredLast, OutputsOk, FilesOk;
  }

  lemma {:induction false} RunRecords(run: Run)
    requires IsRun(run)
    ensures ManifestInv(run.s, Recorded(run))
  {
    hide Inv, ManifestInv, Next;
    match run
    case Start(s) =>
      FirstRecord(s);
    case Then(before, step, s) =>
      RunRecords(before);
      RunInv(before);
      RunInv(run);
      StepRecords(before.s, s, Recorded(before), step);
  }

  lemma FirstRecord(s: State)
    requires Init(s)
    ensures ManifestInv(s, Recorded(Start(s)))
  {
    assert [s.manifest.version][..0] == [] && NoReuse([]);
  }

  // --- edits --------------------------------------------------------------------------------------

  /** What the manifest says about the files of one level. */
  ghost function Metas(V: set<Placed>, level: nat, meta: File -> E.FileMeta): set<E.FileMeta> {
    set p | p in V && p.level == level :: meta(p.file)
  }

  /** The part of an edit that concerns one level, between two versions. */
  ghost predicate IsEdit(e: R.LevelEdit, V: set<Placed>, V': set<Placed>, level: nat, meta: File -> E.FileMeta) {
    && e.deleted == R.Numbers(Metas(V - V', level, meta)) && R.SetOf(e.added) == Metas(V' - V, level, meta)
    && forall i, j :: 0 <= i < j < |e.added| ==> e.added[i] != e.added[j]
  }

  ghost predicate AreEdits(es: seq<R.LevelEdit>, vs: seq<set<Placed>>, level: nat, meta: File -> E.FileMeta) {
    |es| == |vs| && forall i :: 0 <= i < |vs| ==> IsEdit(es[i], LastOf(vs[..i]), vs[i], level, meta)
  }

  ghost predicate KeepsNumbers(meta: File -> E.FileMeta) {
    forall f :: meta(f).number == f.number
  }

  lemma MetaNumber(V: set<Placed>, level: nat, meta: File -> E.FileMeta, m: E.FileMeta) returns (p: Placed)
    requires m in Metas(V, level, meta) && KeepsNumbers(meta)
    ensures p in V && p.level == level && meta(p.file) == m && p.file.number == m.number
  {
    p :| p in V && p.level == level && meta(p.file) == m;
  }

  lemma OneEachMetas(V: set<Placed>, level: nat, meta: File -> E.FileMeta)
    requires OneEach(V) && KeepsNumbers(meta)
    ensures R.DistinctNumbers(Metas(V, level, meta))
  {
    forall a, b | a in Metas(V, level, meta) && b in Metas(V, level, meta) && a.number == b.number ensures a == b {
      var p := MetaNumber(V, level, meta, a);
      var q := MetaNumber(V, level, meta, b);
    }
  }

  /** One more edit: its files are new to the level, and it leads to the next version. */
  lemma EditApplies(e: R.LevelEdit, V: set<Placed>, V': set<Placed>, all: set<Placed>, level: nat,
                    meta: File -> E.FileMeta)
    requires IsEdit(e, V, V', level, meta) && KeepsNumbers(meta) && OneEach(V) && OneEach(V') && V <= all
    requires forall p :: p in V' && p !in V ==> New(all, p)
    ensures R.Numbers(Metas(all, level, meta)) !! R.Numbers(R.SetOf(e.added)) && R.DistinctNumbers(R.SetOf(e.added))
    ensures R.After(Metas(V, level, meta), e) == Metas(V', level, meta)
    ensures Metas(all, level, meta) + R.SetOf(e.added) == Metas(all + V', level, meta)
  {
    OneEachMetas(V' - V, level, meta);
    forall a, b | a in Metas(all, level, meta) && b in R.SetOf(e.added) ensures a.number != b.number {
      var p := MetaNumber(V' - V, level, meta, b);
      var q := MetaNumber(all, level, meta, a);
      assert New(all, p);
    }
    forall m ensures m in R.After(Metas(V, level, meta), e) <==> m in Metas(V', level, meta) {
      AfterOne(e, V, V', level, meta, m);
    }
    forall m ensures m in Metas(all, level, meta) + R.SetOf(e.added) <==> m in Metas(all + V', level, meta) {
    }
  }

  lemma NotDeleted(V: set<Placed>, V': set<Placed>, level: nat, meta: File -> E.FileMeta, p: Placed)
    requires KeepsNumbers(meta) && OneEach(V) && p in V && p in V'
    ensures p.file.number !in R.Numbers(Metas(V - V', level, meta))
  {
    forall d | d in Metas(V - V', level, meta) ensures d.number != p.file.number {
      var q := MetaNumber(V - V', level, meta, d);
    }
  }

  lemma SplitMetas(V: set<Placed>, V': set<Placed>, level: nat, meta: File -> E.FileMeta, m: E.FileMeta)
    requires m in Metas(V', level, meta)
    ensures m in Metas(V' - V, level, meta) || exists p :: p in V && p in V' && p.level == level && meta(p.file) == m
  {
    var p :| p in V' && p.level == level && meta(p.file) == m;
    assert p !in V ==> p in V' - V;
  }

  lemma AfterOne(e: R.LevelEdit, V: set<Placed>, V': set<Placed>, level: nat, meta: File -> E.FileMeta, m: E.FileMeta)
    requires IsEdit(e, V, V', level, meta) && KeepsNumbers(meta) && OneEach(V) && OneEach(V')
    requires R.Numbers(Metas(V, level, meta)) !! R.Numbers(R.SetOf(e.added))
    ensures m in R.After(Metas(V, level, meta), e) <==> m in Metas(V', level, meta)
  {
    assert m in R.SetOf(e.added) ==> m in Metas(V', level, meta) && m.number in R.Numbers(R.SetOf(e.added));
    if m in Metas(V', level, meta) && m !in R.SetOf(e.added) {
      SplitMetas(V, V', level, meta, m);
      var p :| p in V && p in V' && p.level == level && meta(p.file) == m;
      NotDeleted(V, V', level, meta, p);
    }
    if m in Metas(V, level, meta) && m !in Metas(V', level, meta) {
      var p := MetaNumber(V, level, meta, m);
      assert p in V - V' && m in Metas(V - V', level, meta);
      assert m.number in R.Numbers(Metas(V, level, meta));
    }
  }

  /** The edits between the versions use no number twice on the level and lead to the last version. */
  lemma {:induction false} EditsReplay(es: seq<R.LevelEdit>, vs: seq<set<Placed>>, level: nat, meta: File -> E.FileMeta)
    requires AreEdits(es, vs, level, meta) && NoReuse(vs) && KeepsNumbers(meta)
    ensures R.AddedOnce({}, es) && R.Added(es) == Metas(AllPlaced(vs), level, meta)
    ensures R.AfterEach({}, es) == Metas(LastOf(vs), level, meta)
  {
    if vs != [] {
      var n := |vs| - 1;
      var front, fronts := es[..n], vs[..n];
      assert AreEdits(front, fronts, level, meta) by {
        forall i | 0 <= i < n ensures IsEdit(front[i], LastOf(fronts[..i]), fronts[i], level, meta) {
          assert fronts[..i] == vs[..i] && IsEdit(es[i], LastOf(vs[..i]), vs[i], level, meta);
        }
      }
      EditsReplay(front, fronts, level, meta);
      assert IsEdit(es[n], LastOf(fronts), vs[n], level, meta);
      assert OneEach(LastOf(fronts)) && LastOf(fronts) <= AllPlaced(fronts);
      hide IsEdit, Metas, OneEach;
      EditApplies(es[n], LastOf(fronts), vs[n], AllPlaced(fronts), level, meta);
      assert {} + R.Added(front) == R.Added(front);
      assert forall i, j :: 0 <= i < j < |es[n].added| ==> es[n].added[i] != es[n].added[j] by {
        EditHasNoRepeat(es[n], LastOf(fronts), vs[n], level, meta);
      }
    }
  }

  lemma EditHasNoRepeat(e: R.LevelEdit, V: set<Placed>, V': set<Placed>, level: nat, meta: File -> E.FileMeta)
    requires IsEdit(e, V, V', level, meta)
    ensures forall i, j :: 0 <= i < j < |e.added| ==> e.added[i] != e.added[j]
  {
  }

  /**
   VersionSet::Recover on the manifest of any run: it accepts the edits, and the level
   lists it arrives at hold exactly the files of the version last committed.
   */
  method ReadManifest(ghost run: Run, records: seq<Bytes>, comparator: Bytes, ghost es: seq<E.Edit>,
                      ghost meta: File -> E.FileMeta)
    returns (ok: bool, levels: seq<seq<E.FileMeta>>, logNumber: Option<nat>, nextFile: Option<nat>,
             lastSequence: Option<nat>)
    requires IsRun(run) && KeepsNumbers(meta) && |records| == |es|
    requires forall i :: 0 <= i < |es| ==> R.Encodes(records[i], es[i])
    requires forall i :: 0 <= i < |es| && es[i].comparator.Some? ==> es[i].comparator.value == comparator
    requires forall l :: 0 <= l < E.NUM_LEVELS ==> AreEdits(R.LevelEdits(es, l), Recorded(run), l, meta)
    ensures ok <==> R.LastLog(es).Some? && R.LastNextFile(es).Some? && R.LastSeq(es).Some?
    ensures logNumber == R.LastLog(es) && nextFile == R.LastNextFile(es) && lastSequence == R.LastSeq(es)
    ensures |levels| == E.NUM_LEVELS && forall l :: 0 <= l < E.NUM_LEVELS ==>
              R.SortedFiles(levels[l]) && R.SetOf(levels[l]) == Metas(run.s.manifest.version, l, meta)
  {
    RunRecords(run);
    hide R.AddedOnce, R.Encodes, AreEdits, IsRun, NoReuse, Metas, R.SortedFiles;
    forall l | 0 <= l < E.NUM_LEVELS
      ensures R.AddedOnce({}, R.LevelEdits(es, l))
      ensures R.AfterEach({}, R.LevelEdits(es, l)) == Metas(run.s.manifest.version, l, meta)
    {
      EditsReplay(R.LevelEdits(es, l), Recorded(run), l, meta);
    }
    ok, levels, logNumber, nextFile, lastSequence := R.RecoverManifest(records, comparator, es);
  }
}
