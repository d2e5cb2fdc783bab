/**
 Runs that reach the two failing cases: a compaction that would bring a deleted value
 back, and a flush into a gap of a running compaction.
 */
module Reachable {
  import opened Keys
  import opened Spec
  import opened Versions
  import opened Inputs
  import opened Selection
  import opened Install
  import opened Flush
  import opened Exactness
  import opened Engine
  import opened EngineSteps
  import opened EngineProof
  import opened EngineMain
  import opened Runs

  /** A run the background thread takes by its own choices. */
  ghost predicate Own(run: Run, maxFileSize: nat) {
    IsRun(run) && OwnRun(run, maxFileSize)
  }

  /** Nothing is under way. */
  ghost predicate Quiet(s: State, V: set<Placed>, snapshots: multiset<nat>, last: nat, next: nat, M: iset<Entry>) {
    && s.phase.Idle? && s.imm.None? && s.core.write.NoWrite? && s.pending == {}
    && s.version == V && s.snapshots == snapshots && s.core.lastSequence == last && s.nextFile == next
    && s.core.mem in s.core.mems && s.core.mems[s.core.mem] == M && s.core.mem in s.logs
  }

  lemma AtFirst(m: nat) returns (run: Run)
    ensures Own(run, m) && Quiet(run.s, {}, multiset{}, 0, 4, iset{})
  {
    run := FirstRun();
  }

  lemma Wrote(run: Run, m: nat, V: set<Placed>, snapshots: multiset<nat>, last: nat, next: nat, M: iset<Entry>,
              e: Entry)
      returns (run': Run)
    requires Own(run, m) && Quiet(run.s, V, snapshots, last, next, M) && e.key.seqno == last + 1 < MAX_SEQUENCE
    ensures Own(run', m) && Quiet(run'.s, V, snapshots, last + 1, next, M + iset{e})
  {
    hide IsRun, OwnRun;
    run' := AppendOne(run, e, false);
    run' := InsertAndEnd(run', e, false);
  }

  lemma Snapped(run: Run, m: nat, V: set<Placed>, snapshots: multiset<nat>, last: nat, next: nat, M: iset<Entry>)
      returns (run': Run)
    requires Own(run, m) && Quiet(run.s, V, snapshots, last, next, M)
    ensures Own(run', m) && Quiet(run'.s, V, snapshots + multiset{last}, last, next, M)
  {
    run' := Then(run, TakeSnapshot, run.s.(snapshots := run.s.snapshots + multiset{last}));
  }

  lemma Released(run: Run, m: nat, V: set<Placed>, snapshots: multiset<nat>, last: nat, next: nat, M: iset<Entry>,
                 x: nat)
      returns (run': Run)
    requires Own(run, m) && Quiet(run.s, V, snapshots, last, next, M) && x in snapshots
    ensures Own(run', m) && Quiet(run'.s, V, snapshots - multiset{x}, last, next, M)
  {
    run' := Then(run, ReleaseSnapshot(x), run.s.(snapshots := run.s.snapshots - multiset{x}));
  }

  // --- a flush ---------------------------------------------------------------------------------

  /** The memtable has been switched and its table built. */
  lemma Built(run: Run, m: nat, V: set<Placed>, snapshots: multiset<nat>, last: nat, next: nat, M: iset<Entry>, f: File)
      returns (run': Run)
    requires Own(run, m) && Quiet(run.s, V, snapshots, last, next, M)
    requires FileOk(f) && f.number == next + 1 && Has(f) == M
    ensures Own(run', m) && run'.s.phase == Flushing(Some(f), None) && run'.s.core.write.NoWrite?
    ensures run'.s.pending == {f.number}
    ensures run'.s.version == V && run'.s.snapshots == snapshots && run'.s.core.lastSequence == last
    ensures run'.s.nextFile == next + 2
    ensures run'.s.core.mem in run'.s.core.mems && run'.s.core.mems[run'.s.core.mem] == iset{}
    ensures run'.s.core.mem in run'.s.logs
  {
    hide IsRun, OwnRun, FileOk;
    MemBelow(run);
    var mid := Switched(run);
    run' := BuiltTable(mid, f);
  }

  lemma MemBelow(run: Run)
    requires IsRun(run)
    ensures run.s.core.mem < run.s.nextFile
  {
    hide IsRun;
    RunInv(run);
  }

  lemma BuiltTable(run: Run, f: File) returns (run': Run)
    requires IsRun(run) && (run.s.phase.Idle? || run.s.phase.Compacting?) && run.s.imm.Some? && FileOk(f)
    requires f.number == run.s.nextFile && Has(f) == ImmOf(run.s.core.mems, run.s.imm)
    ensures IsRun(run') && run'.s == run.s.(phase := Flushing(Some(f), JobOfPhase(run.s.phase)),
                                            nextFile := run.s.nextFile + 1, pending := run.s.pending + {f.number},
                                            tables := run.s.tables[f.number := f.entries])
    ensures forall m :: OwnRun(run, m) ==> OwnRun(run', m)
  {
    hide FileOk;
    var s := run.s;
    run' := Then(run, FlushBuild(Some(f)), s.(phase := Flushing(Some(f), JobOfPhase(s.phase)),
                                              nextFile := s.nextFile + 1, pending := s.pending + {f.number},
                                              tables := s.tables[f.number := f.entries]));
  }

  lemma FlushedTo(run: Run, m: nat, V: set<Placed>, snapshots: multiset<nat>, last: nat, next: nat, M: iset<Entry>,
                  f: File, level: nat)
      returns (run': Run)
    requires Own(run, m) && Quiet(run.s, V, snapshots, last, next, M)
    requires FileOk(f) && f.number == next + 1 && Has(f) == M
    requires FilesOk(V) && Picks(V, Placed(level, f), m)
    ensures Own(run', m) && Quiet(run'.s, V + {Placed(level, f)}, snapshots, last, next + 2, iset{})
  {
    hide Own;
    var mid := Built(run, m, V, snapshots, last, next, M, f);
    run' := Ended(mid, m, f, level);
  }

  lemma Ended(run: Run, m: nat, f: File, level: nat) returns (run': Run)
    requires Own(run, m) && run.s.phase == Flushing(Some(f), None) && run.s.pending == {f.number}
    requires FilesOk(run.s.version) && FileOk(f) && Picks(run.s.version, Placed(level, f), m)
    ensures Own(run', m) && run'.s == run.s.(phase := Idle, imm := None, pending := {},
                                            version := run.s.version + {Placed(level, f)},
                                            manifest := run'.s.manifest, logNumber := run'.s.logNumber)
  {
    var s := run.s;
    var V' := s.version + {Placed(level, f)};
    PickedPlaceOk(s.version, Placed(level, f), m);
    hide Picks;
    var s1 := s.(manifest := Manifest(V', s.core.mem, s.core.lastSequence, s.nextFile), pending := {},
                 phase := Installing(true, None));
    assert s.pending - {f.number} == {};
    var run1 := Then(run, FlushCommit(level), s1);
    assert Own(run1, m);
    run' := Then(run1, InstallVersion, s1.(version := V', logNumber := s.core.mem, imm := None, phase := Idle));
  }

  // --- a compaction ---------------------------------------------------------------------------------

  /** A compaction has started and written its two tables. */
  lemma TwoOutputs(run: Run, m: nat, V: set<Placed>, snapshots: multiset<nat>, last: nat, next: nat, M: iset<Entry>,
                   job: Job, range: Range, f: File, g: File) returns (run': Run)
    requires Own(run, m) && Quiet(run.s, V, snapshots, last, next, M) && FilesOk(V) && f.number == next
    requires g.number == next + 1
    requires job.inputs == V == job.base && OnlyChoice(V, job) && Chosen(V, job, range)
    requires IsSmallestSnapshot(run.s, job.floor)
    ensures Own(run', m) && run'.s == run.s.(phase := Compacting(job), nextFile := next + 2,
                                            pending := {f.number, g.number},
                                            tables := run.s.tables[f.number := f.entries][g.number := g.entries])
  {
    hide Chosen, FilesOk, OnlyChoice, IsSmallestSnapshot, IsRun, OwnRun;
    run' := Begun(run, job, range);
    run' := OutputBuilt(run', f);
    run' := OutputBuilt(run', g);
    assert {} + {f.number} + {g.number} == {f.number, g.number};
  }

  lemma OutputBuilt(run: Run, f: File) returns (run': Run)
    requires IsRun(run) && run.s.phase.Compacting? && f.number == run.s.nextFile
    ensures IsRun(run') && run'.s == run.s.(nextFile := run.s.nextFile + 1, pending := run.s.pending + {f.number},
                                            tables := run.s.tables[f.number := f.entries])
    ensures forall m :: OwnRun(run, m) ==> OwnRun(run', m)
  {
    var s := run.s;
    run' := Then(run, BuildOutput(f), s.(nextFile := s.nextFile + 1, pending := s.pending + {f.number},
                                         tables := s.tables[f.number := f.entries]));
  }

  lemma CompactedTo(run: Run, m: nat, job: Job, f: File, g: File) returns (run': Run)
    requires Own(run, m) && run.s.phase == Compacting(job) && FilesOk(job.base) && run.s.pending == {f.number, g.number}
    requires OutputsOk(job, {Placed(job.level + 1, f), Placed(job.level + 1, g)}) && f.number != g.number
    requires !MovesOne(job, m)
    requires f.number in run.s.tables && run.s.tables[f.number] == f.entries
    requires g.number in run.s.tables && run.s.tables[g.number] == g.entries
    ensures Own(run', m)
    ensures run'.s == run.s.(phase := Idle, pending := {}, core := run'.s.core, manifest := run'.s.manifest,
                             version := run.s.version - job.inputs
                                        + {Placed(job.level + 1, f), Placed(job.level + 1, g)})
    ensures run'.s.core == run.s.core.(floor := run'.s.core.floor)
  {
    hide OutputsOk, FilesOk, MovesOne;
    var s, O := run.s, {Placed(job.level + 1, f), Placed(job.level + 1, g)};
    var V' := s.version - job.inputs + O;
    var s1 := s.(manifest := Manifest(V', s.logNumber, s.core.lastSequence, s.nextFile),
                 core := s.core.(floor := if s.core.floor < job.floor then job.floor else s.core.floor),
                 phase := Installing(false, None));
    var run1 := Then(run, CompactCommit(O), s1);
    assert Own(run1, m);
    run' := Then(run1, InstallVersion, s1.(version := V', pending := {}, phase := Idle));
  }

  lemma Compacted(run: Run, m: nat, V: set<Placed>, snapshots: multiset<nat>, last: nat, next: nat, M: iset<Entry>,
                  job: Job, range: Range, f: File, g: File) returns (run': Run)
    requires Own(run, m) && Quiet(run.s, V, snapshots, last, next, M) && FilesOk(V) && f.number == next
    requires g.number == next + 1
    requires job.inputs == V == job.base && OnlyChoice(V, job) && Chosen(V, job, range)
    requires IsSmallestSnapshot(run.s, job.floor)
    requires OutputsOk(job, {Placed(job.level + 1, f), Placed(job.level + 1, g)}) && !MovesOne(job, m)
    ensures Own(run', m)
    ensures Quiet(run'.s, V - job.inputs + {Placed(job.level + 1, f), Placed(job.level + 1, g)}, snapshots, last,
                  next + 2, M)
  {
    hide Own, Chosen, FilesOk, OutputsOk, OnlyChoice, MovesOne;
    var mid := TwoOutputs(run, m, V, snapshots, last, next, M, job, range, f, g);
    run' := CompactedTo(mid, m, job, f, g);
  }

  // --- the run ----------------------------------------------------------------------------------------

  /** A trivial move: its file is the only input, and nothing is rewritten. */
  lemma MovedDown(run: Run, m: nat, V: set<Placed>, snapshots: multiset<nat>, last: nat, next: nat, M: iset<Entry>,
                  job: Job, range: Range, f: File) returns (run': Run)
    requires Own(run, m) && Quiet(run.s, V, snapshots, last, next, M) && FilesOk(V) && job.inputs == V == job.base
    requires Chosen(V, job, range) && OnlyChoice(V, job) && MovesOne(job, m) && IsSmallestSnapshot(run.s, job.floor)
    requires job.inputs == {Placed(job.level, f)}
    ensures Own(run', m) && Quiet(run'.s, V - job.inputs + {Placed(job.level + 1, f)}, snapshots, last, next, M)
  {
    hide Chosen, FilesOk, OnlyChoice, MovesOne, IsSmallestSnapshot;
    hide IsRun, OwnRun;
    var mid := Begun(run, job, range);
    run' := MoveInstalled(mid, m, job, f);
  }

  lemma MoveInstalled(run: Run, m: nat, job: Job, f: File) returns (run': Run)
    requires Own(run, m) && run.s.phase == Compacting(job) && run.s.pending == {} && MovesOne(job, m)
    requires job.inputs == {Placed(job.level, f)}
    ensures Own(run', m)
    ensures run'.s == run.s.(phase := Idle, manifest := run'.s.manifest,
                             version := run.s.version - job.inputs + {Placed(job.level + 1, f)})
  {
    hide MovesOne;
    var s, V' := run.s, run.s.version - job.inputs + {Placed(job.level + 1, f)};
    var s1 := s.(manifest := Manifest(V', s.logNumber, s.core.lastSequence, s.nextFile),
                 phase := Installing(false, None));
    var run1 := Then(run, MoveCommit(f), s1);
    assert Own(run1, m);
    run' := Then(run1, InstallVersion, s1.(version := V', phase := Idle));
  }

  /** One operation on 1.0, flushed to level 2 and moved to level 3. */
  lemma FirstPart(m: nat, o: Entry, p: File) returns (run: Run)
    requires o == At(1.0, 1, Value) && p == Table(5, [o])
    ensures Own(run, m) && Quiet(run.s, {Placed(3, p)}, multiset{}, 1, 6, iset{}) && FileOk(p)
  {
    hide Own, Quiet, FilesOk, Chosen, Picks, OnlyChoice, MovesOne;
    var V := {Placed(2, p)};
    var job := Job(2, V, V, 1);
    run := AtFirst(m);
    run := Wrote(run, m, {}, multiset{}, 0, 4, iset{}, o);
    assert Has(p) == iset{} + iset{o};
    NothingPlaced(p, m);
    run := FlushedTo(run, m, {}, multiset{}, 1, 4, iset{} + iset{o}, p, 2);
    assert {} + {Placed(2, p)} == V;
    AloneChosen(V, job, p, m);
    NoSnapshots(run.s, V, 1, 6);
    run := MovedDown(run, m, V, multiset{}, 1, 6, iset{}, job, Range(Some(1.0), Some(1.0)), p);
    assert V - job.inputs + {Placed(3, p)} == {Placed(3, p)};
  }

  lemma NothingPlaced(f: File, m: nat)
    ensures FilesOk({}) && Picks({}, Placed(2, f), m)
  {
    AtTheBottom({}, Placed(2, f), Placed(3, f.(size := 0)), m);
  }

  /** Nothing overlaps down to level 2, and one small file at most in level 3: the table goes to level 2. */
  lemma AtTheBottom(V: set<Placed>, P: Placed, q: Placed, m: nat)
    requires P.level == 2 && forall p :: p in V && p.level <= 2 ==> !Overlaps(p.file, UserRange(P.file))
    requires forall p :: p in V && p.level == 3 && Overlaps(p.file, UserRange(P.file)) ==> p == q
    requires q.level == 3 && q.file.size <= m
    ensures Picks(V, P, m)
  {
    var r := UserRange(P.file);
    assert !LevelMeets(V, 0, r) && !LevelMeets(V, 1, r) && !LevelMeets(V, 2, r);
    NothingIsLight(V, 2, r, MaxGrandParentOverlapBytes(m));
    OneIsLight(V, 3, r, q, MaxGrandParentOverlapBytes(m));
    hide LevelMeets, Light;
    assert Descends(V, r, m, 0) && Descends(V, r, m, 1);
  }

  lemma OneIsLight(V: set<Placed>, l: nat, r: Range, q: Placed, limit: nat)
    requires q.level == l && q.file.size <= limit
    requires forall p :: p in V && p.level == l && Overlaps(p.file, r) ==> p == q
    ensures Light(V, l, r, limit)
  {
    if q in V && Overlaps(q.file, r) {
      assert TotalFileSize([q.file]) == q.file.size;
      assert ListsOverlaps([q.file], V, l, r);
    } else {
      NothingIsLight(V, l, r, limit);
    }
  }

  lemma AloneChosen(V: set<Placed>, job: Job, p: File, m: nat)
    requires V == {Placed(2, p)} && job == Job(2, V, V, 1) && FileOk(p) && p.smallest.user == p.largest.user == 1.0
    ensures FilesOk(V) && Chosen(V, job, Range(Some(1.0), Some(1.0))) && OnlyChoice(V, job) && MovesOne(job, m)
  {
    OneAndBelow(V, job, p);
    NothingIsLight(V, 4, UserRange(p), MaxGrandParentOverlapBytes(m));
  }

  /** With one file in level 2, and one at most in level 3 that meets it, there is one choice. */
  lemma OneAndBelow(V: set<Placed>, job: Job, t: File)
    requires job == Job(2, V, V, job.floor) && Placed(2, t) in V
    requires forall p :: p in V ==> p == Placed(2, t) || (p.level == 3 && Overlaps(p.file, UserRange(t)))
    ensures OnlyChoice(V, job)
  {
    forall levels, c | Listing(levels, V) && LevelsOk(levels) && Complete(levels, c) && c.level == 2
      ensures JobOf(V, c, job.floor) == job
    {
      forall x ensures x in levels[2] <==> x == t {
        assert x in levels[2] ==> Placed(2, x) in V;
      }
      TakesOne(levels, c, t);
      forall p ensures p in JobOf(V, c, job.floor).inputs <==> p in V {
        assert p in V ==> p.file in levels[p.level];
        assert p.file in levels[3] ==> Placed(3, p.file) in V;
      }
    }
  }

  lemma TakesOne(levels: seq<seq<File>>, c: Compaction, t: File)
    requires LevelsOk(levels) && Complete(levels, c) && c.level == 2 && forall x :: x in levels[2] <==> x == t
    ensures (forall x :: x in c.inputs0 <==> x == t) && c.range == UserRange(t)
    ensures forall x :: x in c.inputs1 <==> x in levels[3] && Overlaps(x, UserRange(t))
  {
    hide LevelsOk, DisjointSorted, SliceOf, NoBoundaryLeft;
    assert c.inputs0[0] in c.inputs0 && c.inputs0[0] == t;
  }

  lemma NoSnapshots(s: State, V: set<Placed>, last: nat, next: nat)
    requires Quiet(s, V, multiset{}, last, next, iset{})
    ensures IsSmallestSnapshot(s, last)
  {
  }

  /** Above it, a newer value of 1.0, and a value of 2.0 with its deletion; a snapshot was taken between these. */
  lemma SecondPart(m: nat, o: Entry, p: File, b: Entry, v: Entry, d: Entry, t: File) returns (run: Run)
    requires o == At(1.0, 1, Value) && p == Table(5, [o]) && m > 0
    requires b == At(1.0, 2, Value) && v == At(2.0, 3, Value) && d == At(2.0, 4, Deletion) && t == Table(7, [b, d, v])
    ensures Own(run, m) && Quiet(run.s, {Placed(3, p), Placed(2, t)}, multiset{3}, 4, 8, iset{}) && FileOk(t)
  {
    hide Own, Quiet;
    var V := {Placed(3, p)};
    run := FirstPart(m, o, p);
    run := Wrote(run, m, V, multiset{}, 1, 6, iset{}, b);
    run := Wrote(run, m, V, multiset{}, 2, 6, iset{} + iset{b}, v);
    run := Snapped(run, m, V, multiset{}, 3, 6, iset{} + iset{b} + iset{v});
    assert multiset{} + multiset{3} == multiset{3};
    var M := iset{} + iset{b} + iset{v} + iset{d};
    run := Wrote(run, m, V, multiset{3}, 3, 6, iset{} + iset{b} + iset{v}, d);
    assert Has(t) == M;
    AtTheBottom(V, Placed(2, t), Placed(3, p), m);
    run := FlushedTo(run, m, V, multiset{3}, 4, 6, M, t, 2);
    assert V + {Placed(2, t)} == {Placed(3, p), Placed(2, t)};
  }

  /** The two files are compacted together; with the snapshot held, 2.0 may be split over two tables. */
  lemma SplitOutputs(o: Entry, p: File, b: Entry, v: Entry, d: Entry, t: File, V: set<Placed>, job: Job, O: set<Placed>)
    requires o == At(1.0, 1, Value) && p == Table(5, [o])
    requires b == At(1.0, 2, Value) && v == At(2.0, 3, Value) && d == At(2.0, 4, Deletion) && t == Table(7, [b, d, v])
    requires V == {Placed(3, p), Placed(2, t)} && job == Job(2, V, V, 3)
    requires O == {Placed(3, Table(8, [b, d])), Placed(3, Table(9, [v]))}
    ensures FilesOk(V) && Chosen(V, job, Range(Some(1.0), Some(2.0))) && OnlyChoice(V, job) && OutputsOk(job, O)
    ensures forall m :: !MovesOne(job, m)
  {
    hide Content, Drops, Chosen, OutputsOk, OnlyChoice;
    assert FilesOk(V);
    BothChosen(V, job, p, t);
    OneAndBelow(V, job, t);
    assert Placed(3, p) in job.inputs && Placed(2, t) in job.inputs;
    WholeContent(V, p, t, o, b, v, d);
    SplitContents(O, b, v, d);
    SplitDropsOldest(job, o, b, v, d);
    SplitFits(job, O, b, v, d);
  }

  lemma BothChosen(V: set<Placed>, job: Job, p: File, t: File)
    requires FilesOk(V) && V == {Placed(3, p), Placed(2, t)} && job == Job(2, V, V, 3)
    requires t.smallest.user == 1.0 && t.largest.user == 2.0 && p.smallest.user == p.largest.user == 1.0
    ensures Chosen(V, job, Range(Some(1.0), Some(2.0)))
  {
  }

  lemma WholeContent(V: set<Placed>, p: File, t: File, o: Entry, b: Entry, v: Entry, d: Entry)
    requires V == {Placed(3, p), Placed(2, t)} && p.entries == [o] && t.entries == [b, d, v]
    ensures Content(V) == iset{o, b, d, v}
  {
    forall e | e == b || e == d || e == v ensures e in Content(V) {
      InContent(V, Placed(2, t), e);
    }
    InContent(V, Placed(3, p), o);
  }

  lemma SplitContents(O: set<Placed>, b: Entry, v: Entry, d: Entry)
    requires O == {Placed(3, Table(8, [b, d])), Placed(3, Table(9, [v]))}
    ensures Content(O) == iset{b, d, v}
  {
    var p, q := Placed(3, Table(8, [b, d])), Placed(3, Table(9, [v]));
    forall e | e == b || e == d || e == v ensures e in Content(O) {
      InContent(O, if e == v then q else p, e);
    }
  }

  lemma SplitDropsOldest(job: Job, o: Entry, b: Entry, v: Entry, d: Entry)
    requires o == At(1.0, 1, Value) && b == At(1.0, 2, Value) && v == At(2.0, 3, Value) && d == At(2.0, 4, Deletion)
    requires FilesOk(job.base) && job.floor == 3 && Content(job.inputs) == iset{o, b, d, v}
    ensures Drops(job) == iset{o}
  {
    var S := Content(job.inputs);
    hide FilesOk, Content;
    assert Shadowed(S, o, 3) && !Shadowed(S, b, 3) && !Shadowed(S, d, 3) && !Shadowed(S, v, 3);
  }

  lemma SplitFits(job: Job, O: set<Placed>, b: Entry, v: Entry, d: Entry)
    requires b == At(1.0, 2, Value) && v == At(2.0, 3, Value) && d == At(2.0, 4, Deletion) && job.level == 2
    requires O == {Placed(3, Table(8, [b, d])), Placed(3, Table(9, [v]))} && FilesOk(job.base)
    requires Content(O) <= Content(job.inputs) && Content(O) == Content(job.inputs) - Drops(job)
    ensures OutputsOk(job, O)
  {
    hide Content, Drops;
    var p, q := Placed(3, Table(8, [b, d])), Placed(3, Table(9, [v]));
    assert FileOk(p.file) && FileOk(q.file) && Apart(p.file, q.file) && Apart(q.file, p.file);
  }

  lemma ThirdPart(m: nat, b: Entry, v: Entry, d: Entry, a: Entry, f: Placed, g: Placed, h: Placed) returns (run: Run)
    requires b == At(1.0, 2, Value) && v == At(2.0, 3, Value) && d == At(2.0, 4, Deletion) && a == At(1.0, 5, Value)
    requires f == Placed(2, Table(11, [a])) && g == Placed(3, Table(8, [b, d])) && h == Placed(3, Table(9, [v]))
    requires m > 0
    ensures Own(run, m) && Quiet(run.s, {f, g, h}, multiset{}, 5, 12, iset{})
  {
    hide Own, Quiet, FilesOk, Chosen, OutputsOk, Picks, OnlyChoice, MovesOne;
    var o := At(1.0, 1, Value);
    var p, t := Table(5, [o]), Table(7, [b, d, v]);
    var V, range := {Placed(3, p), Placed(2, t)}, Range(Some(1.0), Some(2.0));
    var job := Job(2, V, V, 3);
    run := SecondPart(m, o, p, b, v, d, t);
    SplitOutputs(o, p, b, v, d, t, V, job, {g, h});
    OldestIs(run.s, V);
    run := Compacted(run, m, V, multiset{3}, 4, 8, iset{}, job, range, g.file, h.file);
    assert V - job.inputs + {g, h} == {g, h};
    run := Released(run, m, {g, h}, multiset{3}, 4, 10, iset{}, 3);
    assert multiset{3} - multiset{3} == multiset{};
    run := Wrote(run, m, {g, h}, multiset{}, 4, 10, iset{}, a);
    assert Has(f.file) == iset{} + iset{a};
    LastPlaced(f, g, h, m);
    run := FlushedTo(run, m, {g, h}, multiset{}, 5, 10, iset{} + iset{a}, f.file, 2);
    assert {g, h} + {f} == {f, g, h};
  }

  lemma LastPlaced(f: Placed, g: Placed, h: Placed, m: nat)
    requires SplitTree() == ({f, g, h}, f, g, h) && m > 0
    ensures FileOk(f.file) && FilesOk({g, h}) && Picks({g, h}, f, m)
  {
    AtTheBottom({g, h}, f, g, m);
  }

  lemma OldestIs(s: State, V: set<Placed>)
    requires Quiet(s, V, multiset{3}, 4, 8, iset{})
    ensures IsSmallestSnapshot(s, 3)
  {
  }

  /**
   The failing case of a compaction is reached, by a run in which every flush, move and
   compaction is the background thread's own choice.  In its last state level 2 leaves
   only one choice again, not a move, and it would bring back the value of 2.0 that was
   deleted.
   */
  lemma FailingCaseIsReached(m: nat) returns (run: Run, job: Job, range: Range)
    requires m > 0
    ensures Own(run, m) && run.s.core.mem in run.s.core.mems && !MovesOne(job, m) && OnlyChoice(run.s.version, job)
    ensures run.s.phase.Idle? && run.s.imm.None? && FilesOk(run.s.version)
    ensures var (V, f, g, h) := SplitTree(); run.s.version == V && job == Job(2, {f, g}, V, 5)
    ensures job.base == run.s.version && Chosen(run.s.version, job, range) && IsSmallestSnapshot(run.s, job.floor)
    ensures Answers(run.s.core.history, 2.0, job.floor, None) && Answers(Content(run.s.version), 2.0, job.floor, None)
    ensures Answers(Content(run.s.version) - Drops(job), 2.0, job.floor, Some("v"))
    ensures !NoneReturns(run.s.version, AnchorOf(run.s), job)
  {
    hide Inv, IsRun, OwnRun, Chosen, TreeOk, Drops, Answers, FilesOk, OnlyChoice, NoneReturns, AnchorOf, MovesOne;
    hide Content;
    var (V, f, g, h) := SplitTree();
    run := ThirdPart(m, At(1.0, 2, Value), At(2.0, 3, Value), At(2.0, 4, Deletion), At(1.0, 5, Value), f, g, h);
    job, range := Job(2, {f, g}, V, 5), Range(Some(1.0), Some(1.0));
    SplitTreeOk();
    TreeFiles(V);
    RunInv(run);
    SplitForced(V, job, f, g, h, m);
    DeletedValueReturns();
    SameAsHistory(run, V, 2.0);
    Returning(run, V, job, range, 2.0);
  }

  lemma TreeFiles(V: set<Placed>)
    requires TreeOk(V)
    ensures FilesOk(V)
  {
  }

  /** With an empty memtable the version answers as the history does. */
  lemma SameAsHistory(run: Run, V: set<Placed>, k: UserKey)
    requires Inv(run.s) && Quiet(run.s, V, multiset{}, 5, 12, iset{}) && Answers(Content(V), k, 5, None)
    ensures Answers(run.s.core.history, k, 5, None)
  {
    var c := run.s.core;
    assert ViewContent(c.mems[c.mem], ImmOf(c.mems, run.s.imm), V) == Content(V);
    assert SameReads(Content(V), c.history, c.floor, 5);
  }

  lemma ContentUnique(s: State, V: set<Placed>)
    requires Inv(s) && Quiet(s, V, multiset{}, 5, 12, iset{})
    ensures AnchorOf(s) == iset{} && Unique(Content(V)) && TreeOk(V)
  {
    var c := s.core;
    var S := ViewContent(c.mems[c.mem], ImmOf(c.mems, s.imm), V);
    StoreUnique(c, s.snapshots, S);
    SubsetUnique(Content(V), S);
  }

  lemma Returning(run: Run, V: set<Placed>, job: Job, range: Range, k: UserKey)
    requires Inv(run.s) && Quiet(run.s, V, multiset{}, 5, 12, iset{})
    requires FilesOk(V) && Chosen(V, job, range) && job.base == V && job.floor == 5
    requires Answers(Content(V), k, 5, None) && Answers(Content(V) - Drops(job), k, 5, Some("v"))
    ensures !NoneReturns(V, AnchorOf(run.s), job)
  {
    hide Inv, Drops, Content, Chosen, FilesOk, Quiet, Answers, TreeOk, Unique, NoneReturns, SameReads, AnchorOf;
    ContentUnique(run.s, V);
    assert iset{} + Content(V) == Content(V) && iset{} + (Content(V) - Drops(job)) == Content(V) - Drops(job);
    DropsUnseenExact(V, iset{}, job, range);
    DifferentAnswers(Content(V), Content(V) - Drops(job), k, 5, "v", MAX_SEQUENCE);
  }

  // --- flushing into a gap -----------------------------------------------------------------------------

  function Single(number: nat, user: UserKey, seqno: nat): File {
    Table(number, [At(user, seqno, Value)])
  }

  /** One operation written and flushed. */
  lemma OneFlush(run: Run, m: nat, V: set<Placed>, last: nat, next: nat, user: UserKey, level: nat) returns (run': Run)
    requires Own(run, m) && Quiet(run.s, V, multiset{}, last, next, iset{}) && last + 1 < MAX_SEQUENCE && FilesOk(V)
    requires FileOk(Single(next + 1, user, last + 1)) && Picks(V, Placed(level, Single(next + 1, user, last + 1)), m)
    ensures Own(run', m)
    ensures Quiet(run'.s, V + {Placed(level, Single(next + 1, user, last + 1))}, multiset{}, last + 1, next + 2, iset{})
  {
    hide Own, Quiet, FilesOk, Picks;
    var e, f := At(user, last + 1, Value), Single(next + 1, user, last + 1);
    run' := Wrote(run, m, V, multiset{}, last, next, iset{}, e);
    assert Has(f) == iset{} + iset{e};
    run' := FlushedTo(run', m, V, multiset{}, last + 1, next, iset{} + iset{e}, f, level);
  }

  /** Levels 2 and 1 hold 1.0 and 5.0 in tables of their own. */
  function GapTree(): set<Placed> {
    {Placed(2, Single(5, 1.0, 1))} + {Placed(2, Single(7, 5.0, 2))}
    + {Placed(1, Single(9, 1.0, 3))} + {Placed(1, Single(11, 5.0, 4))}
  }

  /** Each table goes to the deepest level a flush may choose for it. */
  lemma GapPart(m: nat) returns (run: Run)
    requires m > 0
    ensures Own(run, m) && Quiet(run.s, GapTree(), multiset{}, 4, 12, iset{})
  {
    hide Own, Quiet, Picks;
    var p, q, r := Placed(2, Single(5, 1.0, 1)), Placed(2, Single(7, 5.0, 2)), Placed(1, Single(9, 1.0, 3));
    var V1, V2, V3 := {p}, {p} + {q}, {p} + {q} + {r};
    run := AtFirst(m);
    NothingPlaced(p.file, m);
    run := OneFlush(run, m, {}, 0, 4, 1.0, 2);
    assert {} + V1 == V1;
    AtTheBottom(V1, q, Placed(3, q.file), m);
    run := OneFlush(run, m, V1, 1, 6, 5.0, 2);
    AboveOne(V2, r, p, m);
    run := OneFlush(run, m, V2, 2, 8, 1.0, 1);
    AboveOne(V3, Placed(1, Single(11, 5.0, 4)), q, m);
    run := OneFlush(run, m, V3, 3, 10, 5.0, 1);
  }

  /** Nothing overlaps in levels 0 and 1, and one small file in level 2: the table goes to level 1. */
  lemma AboveOne(V: set<Placed>, P: Placed, q: Placed, m: nat)
    requires P.level == 1 && forall p :: p in V && p.level <= 1 ==> !Overlaps(p.file, UserRange(P.file))
    requires q in V && q.level == 2 && q.file.size <= m && Overlaps(q.file, UserRange(P.file))
    requires forall p :: p in V && p.level == 2 && Overlaps(p.file, UserRange(P.file)) ==> p == q
    ensures Picks(V, P, m)
  {
    var r := UserRange(P.file);
    assert !LevelMeets(V, 0, r) && !LevelMeets(V, 1, r) && LevelMeets(V, 2, r);
    OneIsLight(V, 2, r, q, MaxGrandParentOverlapBytes(m));
    hide LevelMeets, Light;
    assert Descends(V, r, m, 0) && !Descends(V, r, m, 1);
  }

  function GapJob(): Job {
    Job(1, GapTree(), GapTree(), 4)
  }

  /** A compaction of level 1 takes them all; nothing is deleted, so nothing comes back. */
  lemma GapJobOk()
    ensures FilesOk(GapTree()) && Chosen(GapTree(), GapJob(), Range(Some(1.0), Some(5.0)))
  {
    hide GapTree, Chosen;
    GapFiles();
    GapChosen();
  }

  lemma GapFiles()
    ensures FilesOk(GapTree())
  {
  }

  lemma GapChosen()
    requires FilesOk(GapTree())
    ensures Chosen(GapTree(), GapJob(), Range(Some(1.0), Some(5.0)))
  {
    hide FilesOk;
  }

  /** A job that takes every file leaves none to bring a value back. */
  lemma TakesAll(V: set<Placed>, S: iset<Entry>, job: Job)
    requires job.inputs == V && FilesOk(job.base)
    ensures NoneReturns(V, S, job)
  {
    forall d, g ensures !Resurrects(V, S, job, d, g) {
      assert g in V ==> g in job.inputs;
    }
  }

  lemma GapContent(V: set<Placed>)
    requires V == GapTree()
    ensures Content(V) == iset{At(1.0, 1, Value), At(5.0, 2, Value), At(1.0, 3, Value), At(5.0, 4, Value)}
  {
    var p, q := Placed(2, Single(5, 1.0, 1)), Placed(2, Single(7, 5.0, 2));
    var r, s := Placed(1, Single(9, 1.0, 3)), Placed(1, Single(11, 5.0, 4));
    assert V == {p, q, r, s};
    InContent(V, p, At(1.0, 1, Value));
    InContent(V, q, At(5.0, 2, Value));
    InContent(V, r, At(1.0, 3, Value));
    InContent(V, s, At(5.0, 4, Value));
  }

  lemma KeepsNewest(job: Job, a: Entry, b: Entry, c: Entry, d: Entry)
    requires FilesOk(job.base) && Content(job.inputs) == iset{a, b, c, d} && job.floor == 4
    requires a == At(1.0, 1, Value) && b == At(5.0, 2, Value) && c == At(1.0, 3, Value) && d == At(5.0, 4, Value)
    ensures Drops(job) == iset{a, b}
  {
    var S := Content(job.inputs);
    hide FilesOk, Content;
    assert Shadowed(S, a, 4) && Shadowed(S, b, 4) && !Shadowed(S, c, 4) && !Shadowed(S, d, 4);
  }

  /** What the job keeps: the newer operation on each key, in one table. */
  lemma GapOutputs(o: Placed)
    requires o == Placed(2, Table(14, [At(1.0, 3, Value), At(5.0, 4, Value)]))
    ensures FilesOk(GapJob().base) && OutputsOk(GapJob(), {o})
  {
    var a, b, c, d := At(1.0, 1, Value), At(5.0, 2, Value), At(1.0, 3, Value), At(5.0, 4, Value);
    hide Drops, GapTree, FilesOk, Chosen, Content, OutputsOk;
    GapJobOk();
    GapContent(GapTree());
    KeepsNewest(GapJob(), a, b, c, d);
    OneTable(GapJob(), o, a, b, c, d);
  }

  lemma OneTable(job: Job, o: Placed, a: Entry, b: Entry, c: Entry, d: Entry)
    requires FilesOk(job.base) && Content(job.inputs) == iset{a, b, c, d} && Drops(job) == iset{a, b} && job.level == 1
    requires a == At(1.0, 1, Value) && b == At(5.0, 2, Value) && c == At(1.0, 3, Value) && d == At(5.0, 4, Value)
    requires o == Placed(2, Table(14, [c, d]))
    ensures OutputsOk(job, {o})
  {
    hide FilesOk, Drops;
    assert FileOk(o.file);
    forall e ensures e in Content({o}) <==> e == c || e == d {
      if e == c || e == d {
        InContent({o}, o, e);
      }
    }
  }

  /** The compaction has started, and an operation on 3.0 is written and its memtable built into a table. */
  lemma GapRun(f: File, m: nat) returns (run: Run)
    requires f == Single(13, 3.0, 5) && m > 0
    ensures IsRun(run) && run.s.phase == Flushing(Some(f), Some(GapJob())) && run.s.version == GapTree()
  {
    hide IsRun, OwnRun, Chosen, FilesOk, GapTree;
    run := GapPart(m);
    GapJobOk();
    MemBelow(run);
    run := Begun(run, GapJob(), Range(Some(1.0), Some(5.0)));
    run := FlushedAside(run, At(3.0, 5, Value), f);
  }

  /** During a compaction an operation is written and its memtable built into a table. */
  lemma FlushedAside(run: Run, e: Entry, f: File) returns (run': Run)
    requires IsRun(run) && run.s.phase.Compacting? && run.s.imm.None? && run.s.core.write.NoWrite?
    requires run.s.core.mem in run.s.logs && run.s.core.mem in run.s.core.mems && run.s.core.mem < run.s.nextFile
    requires run.s.core.mems[run.s.core.mem] == iset{} && e.key.seqno == run.s.core.lastSequence + 1 < MAX_SEQUENCE
    requires FileOk(f) && f.entries == [e] && f.number == run.s.nextFile + 1
    ensures IsRun(run') && run'.s.phase == Flushing(Some(f), Some(run.s.phase.job)) && run'.s.version == run.s.version
  {
    hide IsRun, OwnRun, FileOk;
    run' := AppendOne(run, e, false);
    run' := InsertAndEnd(run', e, false);
    run' := Switched(run');
    assert Has(f) == iset{} + iset{e};
    run' := BuiltTable(run', f);
  }

  lemma Begun(run: Run, job: Job, range: Range) returns (run': Run)
    requires IsRun(run) && run.s.phase.Idle? && run.s.imm.None? && FilesOk(run.s.version) && job.base == run.s.version
    requires Chosen(run.s.version, job, range) && job.inputs == run.s.version && run.s.core.mem in run.s.core.mems
    requires IsSmallestSnapshot(run.s, job.floor)
    ensures IsRun(run') && run'.s == run.s.(phase := Compacting(job))
    ensures OnlyChoice(run.s.version, job) ==> forall m :: OwnRun(run, m) ==> OwnRun(run', m)
  {
    hide Chosen, NoneReturns, FilesOk, OnlyChoice;
    TakesAll(run.s.version, AnchorOf(run.s), job);
    run' := Then(run, CompactStart(job, range), run.s.(phase := Compacting(job)));
  }

  /**
   The failing case of a flush is reached: level 2 is picked for the table, nothing is
   there that it meets, and the one table the compaction then installs overlaps it.
   */
  lemma GapIsReached(m: nat) returns (run: Run, P: Placed, O: set<Placed>)
    requires m > 0
    ensures IsRun(run) && run.s.phase == Flushing(Some(P.file), Some(GapJob())) && run.s.version == GapTree()
    ensures FilesOk(run.s.version) && FileOk(P.file) && Picks(run.s.version, P, m)
    ensures P.level == 2 && P.file.smallest.user == P.file.largest.user == 3.0
    ensures var job := run.s.phase.resume.value;
            FilesOk(job.base) && OutputsOk(job, O) && !Clear(job, P) && !TreeOk(run.s.version + {P} - job.inputs + O)
  {
    hide IsRun, FilesOk, Picks, TreeOk, OutputsOk, Clear, GapTree;
    var o := Placed(2, Table(14, [At(1.0, 3, Value), At(5.0, 4, Value)]));
    P, O := Placed(2, Single(13, 3.0, 5)), {o};
    run := GapRun(P.file, m);
    GapPlace(P, m);
    GapOutputs(o);
    GapOverlaps(P, o);
  }

  lemma GapPlace(P: Placed, m: nat)
    requires P == Placed(2, Single(13, 3.0, 5))
    ensures FilesOk(GapTree()) && FileOk(P.file) && Picks(GapTree(), P, m)
  {
    AtTheBottom(GapTree(), P, Placed(3, P.file.(size := 0)), m);
  }

  lemma GapOverlaps(P: Placed, o: Placed)
    requires P == Placed(2, Single(13, 3.0, 5)) && o == Placed(2, Table(14, [At(1.0, 3, Value), At(5.0, 4, Value)]))
    ensures FileOk(P.file) && !Clear(GapJob(), P) && !TreeOk(GapTree() + {P} - GapJob().inputs + {o})
  {
    assert FileOk(P.file) && !PairOk(P, o) && P !in GapTree();
    GapContent(GapTree());
    hide GapTree, TreeOk;
    BothSides(P.file, Content(GapJob().inputs), At(1.0, 1, Value), At(5.0, 2, Value));
    NotTree(GapTree() + {P} - GapJob().inputs + {o}, P, o);
  }

  lemma NotTree(V: set<Placed>, p: Placed, q: Placed)
    requires p in V && q in V && p != q && !PairOk(p, q)
    ensures !TreeOk(V)
  {
  }

  // --- the code's own choice ------------------------------------------------------------------------------

  /** In the first tree, whatever PickCompaction starts from in level 2, it ends with the job that fails. */
  lemma SplitIsChosen(levels: seq<seq<File>>, c: Compaction)
    requires Listing(levels, SplitTree().0) && LevelsOk(levels) && Complete(levels, c) && c.level == 2
    ensures var (V, f, g, h) := SplitTree();
            JobOf(V, c, 5) == Job(2, {f, g}, V, 5)
  {
    hide Listing, LevelsOk, Complete;
    var (V, f, g, h) := SplitTree();
    SplitListed(levels, V, f, g, h);
    TakesFirst(levels, c, f.file);
    TakesMeeting(levels, c, g.file, h.file);
    hide SplitTree;
    assert (set x | x in c.inputs0 :: Placed(2, x)) == {f};
    assert (set x | x in c.inputs1 :: Placed(3, x)) == {g};
  }

  lemma SplitListed(levels: seq<seq<File>>, V: set<Placed>, f: Placed, g: Placed, h: Placed)
    requires (V, f, g, h) == SplitTree() && Listing(levels, V)
    ensures |levels| == NUM_LEVELS && (forall x :: x in levels[2] <==> x == f.file)
    ensures forall x :: x in levels[3] <==> x == g.file || x == h.file
  {
    assert f in V && g in V && h in V;
    assert forall x :: Placed(2, x) in V ==> x == f.file;
    assert forall x :: Placed(3, x) in V ==> x == g.file || x == h.file;
  }

  lemma TakesFirst(levels: seq<seq<File>>, c: Compaction, f: File)
    requires LevelsOk(levels) && Complete(levels, c) && c.level == 2 && forall x :: x in levels[2] <==> x == f
    requires f.smallest.user == f.largest.user == 1.0
    ensures (forall x :: x in c.inputs0 <==> x == f) && c.range == Range(Some(1.0), Some(1.0))
  {
    hide LevelsOk, Overlapping, DisjointSorted, SliceOf, NoBoundaryLeft;
    assert c.inputs0[0] in c.inputs0 && c.inputs0[0] == f;
  }

  lemma TakesMeeting(levels: seq<seq<File>>, c: Compaction, g: File, h: File)
    requires LevelsOk(levels) && Complete(levels, c) && c.level == 2 && c.range == Range(Some(1.0), Some(1.0))
    requires (forall x :: x in levels[3] <==> x == g || x == h) && Overlaps(g, c.range) && !Overlaps(h, c.range)
    ensures forall x :: x in c.inputs1 <==> x == g
  {
    hide LevelsOk, Selected, Hull;
  }

  /** Level 2 leaves no other choice. */
  lemma SplitForced(V: set<Placed>, job: Job, f: Placed, g: Placed, h: Placed, m: nat)
    requires SplitTree() == (V, f, g, h) && job == Job(2, {f, g}, V, 5)
    ensures OnlyChoice(V, job) && !MovesOne(job, m)
  {
    assert f in V && f.level == 2;
    assert f in job.inputs && g in job.inputs && f != g;
    hide Complete, Listing, LevelsOk;
    forall levels, c | Listing(levels, V) && LevelsOk(levels) && Complete(levels, c) && c.level == 2
      ensures JobOf(V, c, 5) == job
    {
      SplitIsChosen(levels, c);
    }
  }

  /**
   PickCompaction, for size or for seeks in level 2, makes that choice in the state the run
   reaches: the failing case is not only possible, the code takes it.
   */
  method PickFails(levels: seq<seq<File>>, why: Reason, maxFileSize: nat) returns (c: Compaction, ghost run: Run)
    requires Listing(levels, SplitTree().0) && why.level == 2 && (why.SeekOf? ==> why.file in levels[2])
    requires maxFileSize > 0
    ensures Own(run, maxFileSize) && !MovesOne(JobOf(run.s.version, c, 5), maxFileSize)
    ensures run.s.phase.Idle? && run.s.imm.None? && run.s.version == SplitTree().0
    ensures FilesOk(run.s.version) && IsSmallestSnapshot(run.s, 5) && Answers(run.s.core.history, 2.0, 5, None)
    ensures Answers(Content(run.s.version) - Drops(JobOf(run.s.version, c, 5)), 2.0, 5, Some("v"))
  {
    hide Own, Listing, LevelsOk, Complete, NoGaps, Picked, GrandparentsOf, LargestKey, Answers, Drops;
    hide Content, FilesOk, OnlyChoice, MovesOne;
    hide TreeOk, Chosen, NoneReturns, IsSmallestSnapshot;
    SplitLevels(levels);
    var grandparents, pointer;
    ghost var picked;
    c, grandparents, pointer, picked := PickCompaction(levels, why, maxFileSize);
    SplitIsChosen(levels, c);
    ghost var job, range;
    run, job, range := FailingCaseIsReached(maxFileSize);
  }

  lemma SplitLevels(levels: seq<seq<File>>)
    requires Listing(levels, SplitTree().0)
    ensures LevelsOk(levels) && levels[2] != [] && AllOk(levels[2])
  {
    var (V, f, g, h) := SplitTree();
    SplitTreeOk();
    ListedLevelsOk(levels, V);
    assert f in V && f.file in levels[2];
  }

  /** A list of exactly two files, smaller first. */
  lemma TwoListed(files: seq<File>, a: File, b: File)
    requires a in files && b in files && a != b && forall i :: 0 <= i < |files| ==> files[i] == a || files[i] == b
    requires forall i, j :: 0 <= i < j < |files| ==> files[i] != files[j]
    ensures |files| == 2
  {
    var s := multiset(files);
    assert a in s && b in s;
    forall x ensures s[x] == if x == a || x == b then 1 else 0 {
      OnceEach(files, x);
    }
    assert s == multiset{a, b};
  }

  lemma {:induction false} OnceEach(files: seq<File>, x: File)
    requires forall i, j :: 0 <= i < j < |files| ==> files[i] != files[j]
    ensures multiset(files)[x] == if x in files then 1 else 0
  {
    if files != [] {
      OnceEach(files[1..], x);
      assert files == [files[0]] + files[1..];
    }
  }

  /** In the second tree, a manual compaction of level 1 that takes both its files takes all files. */
  lemma GapIsChosen(levels: seq<seq<File>>, c: Compaction)
    requires Listing(levels, GapTree()) && LevelsOk(levels) && Complete(levels, c) && c.level == 1
    requires forall f :: f in levels[1] ==> f in c.inputs0
    ensures JobOf(GapTree(), c, 4) == GapJob()
  {
    hide Listing, LevelsOk, Complete, GapTree;
    var a, b, d, e := Single(9, 1.0, 3), Single(11, 5.0, 4), Single(5, 1.0, 1), Single(7, 5.0, 2);
    GapListed(levels, a, b, d, e);
    TakesBoth(levels, c, a, b);
    TakesBelow(levels, c, d, e);
    GapJobIs(c, a, b, d, e);
  }

  lemma GapListed(levels: seq<seq<File>>, a: File, b: File, d: File, e: File)
    requires Listing(levels, GapTree()) && a == Single(9, 1.0, 3) && b == Single(11, 5.0, 4)
    requires d == Single(5, 1.0, 1) && e == Single(7, 5.0, 2)
    ensures |levels| == NUM_LEVELS && (forall x :: x in levels[1] <==> x == a || x == b)
    ensures forall x :: x in levels[2] <==> x == d || x == e
  {
    var V := GapTree();
    assert Placed(1, a) in V && Placed(1, b) in V && Placed(2, d) in V && Placed(2, e) in V;
    assert forall x :: Placed(1, x) in V ==> x == a || x == b;
    assert forall x :: Placed(2, x) in V ==> x == d || x == e;
  }

  lemma TakesBoth(levels: seq<seq<File>>, c: Compaction, a: File, b: File)
    requires LevelsOk(levels) && Complete(levels, c) && c.level == 1 && forall x :: x in levels[1] <==> x == a || x == b
    requires a == Single(9, 1.0, 3) && b == Single(11, 5.0, 4) && forall f :: f in levels[1] ==> f in c.inputs0
    ensures (forall x :: x in c.inputs0 <==> x == a || x == b) && c.range == Range(Some(1.0), Some(5.0))
  {
    hide LevelsOk, Overlapping, DisjointSorted, SliceOf, NoBoundaryLeft;
    assert a in c.inputs0 && b in c.inputs0;
  }

  lemma TakesBelow(levels: seq<seq<File>>, c: Compaction, d: File, e: File)
    requires LevelsOk(levels) && Complete(levels, c) && c.level == 1 && c.range == Range(Some(1.0), Some(5.0))
    requires d == Single(5, 1.0, 1) && e == Single(7, 5.0, 2) && forall x :: x in levels[2] <==> x == d || x == e
    ensures forall x :: x in c.inputs1 <==> x == d || x == e
  {
    hide LevelsOk, Selected, Hull;
  }

  lemma GapJobIs(c: Compaction, a: File, b: File, d: File, e: File)
    requires a == Single(9, 1.0, 3) && b == Single(11, 5.0, 4) && d == Single(5, 1.0, 1) && e == Single(7, 5.0, 2)
    requires c.level == 1 && (forall x :: x in c.inputs0 <==> x == a || x == b)
    requires forall x :: x in c.inputs1 <==> x == d || x == e
    ensures JobOf(GapTree(), c, 4) == GapJob()
  {
    assert GapTree() == {Placed(1, a), Placed(1, b), Placed(2, d), Placed(2, e)};
    hide Single;
    assert (set f | f in c.inputs0 :: Placed(1, f)) == {Placed(1, a), Placed(1, b)};
    assert (set f | f in c.inputs1 :: Placed(2, f)) == {Placed(2, d), Placed(2, e)};
  }

  /** One level is picked. */
  lemma OnePlace(V: set<Placed>, f: File, a: nat, b: nat, m: nat)
    requires Picks(V, Placed(a, f), m) && Picks(V, Placed(b, f), m)
    ensures a == b
  {
    hide Descends, LevelMeets;
  }

  /**
   CompactRange from 1.0 to 5.0 on level 1 makes that choice; PickLevelForMemTableOutput
   puts the table on 3.0 that is flushed meanwhile into its output level; and this breaks
   the tree.
   */
  method CompactRangeFails(levels: seq<seq<File>>, maxFileSize: nat)
      returns (c: Option<Compaction>, level: nat, ghost run: Run, ghost P: Placed, ghost O: set<Placed>)
    requires Listing(levels, GapTree()) && maxFileSize > 2
    ensures c.Some? && IsRun(run) && run.s.phase == Flushing(Some(P.file), Some(JobOf(run.s.version, c.value, 4)))
    ensures run.s.version == GapTree() && FileOk(P.file) && LevelsOk(levels) && P.level == level == c.value.level + 1
    ensures PicksLevel(levels, UserRange(P.file), maxFileSize, level)
    ensures var job := JobOf(run.s.version, c.value, 4);
            FilesOk(job.base) && OutputsOk(job, O) && !TreeOk(run.s.version + {P} - job.inputs + O)
  {
    hide IsRun, Complete, OutputsOk, FilesOk, TreeOk, Picks, PicksLevel, Clear;
    GapLevels(levels);
    c := CompactRange(levels, 1, Range(Some(1.0), Some(5.0)), maxFileSize);
    ghost var part :| CutAt(Overlapping(levels[1], Range(Some(1.0), Some(5.0))), maxFileSize, part)
                      && forall f :: f in part ==> f in c.value.inputs0;
    NotCut(levels[1], part, maxFileSize);
    GapIsChosen(levels, c.value);
    run, P, O := GapIsReached(maxFileSize);
    level := PickLevelForMemTableOutput(levels, 3.0, 3.0, maxFileSize);
    PickedExact(levels, GapTree(), P.file, level, maxFileSize);
    OnePlace(GapTree(), P.file, level, P.level, maxFileSize);
  }

  lemma GapLevels(levels: seq<seq<File>>)
    requires Listing(levels, GapTree())
    ensures LevelsOk(levels) && AllOk(levels[1]) && |levels[1]| == 2
    ensures forall f :: f in levels[1] ==> f.size == 1 && Overlaps(f, Range(Some(1.0), Some(5.0)))
  {
    var V := GapTree();
    var a, b := Single(9, 1.0, 3), Single(11, 5.0, 4);
    assert Placed(1, a) in V && Placed(1, b) in V && forall x :: Placed(1, x) in V ==> x == a || x == b;
    TwoListed(levels[1], a, b);
    GapTreeOk();
    ListedLevelsOk(levels, V);
  }

  lemma GapTreeOk()
    ensures TreeOk(GapTree())
  {
    var run := GapPart(1);
    RunInv(run);
  }

  /** Two files of size 1 are below a limit above 2. */
  lemma NotCut(files: seq<File>, part: seq<File>, limit: nat)
    requires |files| == 2 && limit > 2 && CutAt(Overlapping(files, Range(Some(1.0), Some(5.0))), limit, part)
    requires forall f :: f in files ==> f.size == 1 && Overlaps(f, Range(Some(1.0), Some(5.0)))
    ensures forall f :: f in files ==> f in part
  {
    var r := Range(Some(1.0), Some(5.0));
    TwoMeet(files, r);
    hide Filter, Overlaps;
    assert |part| == 1 ==> part == [files[0]] && TotalFileSize(part) == 1;
    assert |part| == 2 ==> part == files;
  }

  lemma TwoMeet(files: seq<File>, r: Range)
    requires |files| == 2 && forall f :: f in files ==> Overlaps(f, r)
    ensures Overlapping(files, r) == files
  {
    var front := files[..1];
    assert front == [files[0]] && front[..0] == [] && files == [files[0], files[1]];
    assert Filter([], r) == [] && files[0] in files && files[1] in files;
    assert Filter(front, r) == [] + [files[0]];
    assert Filter(files, r) == Filter(front, r) + [files[1]];
  }
}
