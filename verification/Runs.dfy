/**
 Runs step by step: which of them the background thread takes by its own choices
 (DBImpl::BackgroundCompaction, CompactMemTable), and the pieces concrete runs are made of.
 */
module Runs {
  import opened Keys
  import opened Spec
  import opened Versions
  import opened Selection
  import opened Install
  import opened Flush
  import opened Engine
  import opened EngineSteps
  import opened EngineMain

  // --- the background thread's choices ------------------------------------------------------

  /** IsTrivialMove: one file, nothing in the next level, and not too much in the one after. */
  ghost predicate MovesOne(job: Job, maxFileSize: nat) {
    exists f :: job.inputs == {Placed(job.level, f)}
                && Light(job.base, job.level + 2, UserRange(f), MaxGrandParentOverlapBytes(maxFileSize))
  }

  /** Whatever SetupOtherInputs starts from in the level, it ends with this job. */
  ghost predicate OnlyChoice(V: set<Placed>, job: Job) {
    && job.base == V && (exists p :: p in V && p.level == job.level)
    && forall levels, c :: Listing(levels, V) && LevelsOk(levels) && Complete(levels, c) && c.level == job.level ==>
         JobOf(V, c, job.floor) == job
  }

  /**
   A flush goes where PickLevelForMemTableOutput puts it, a compaction takes the only
   files it can, and a single file is moved down instead of rewritten.
   */
  ghost predicate OwnChoice(s: State, step: Step, maxFileSize: nat) {
    match step
    case FlushCommit(level) =>
      s.phase.Flushing? && (s.phase.table.Some? ==> Picks(s.version, Placed(level, s.phase.table.value), maxFileSize))
    case CompactStart(job, _) => OnlyChoice(s.version, job)
    case CompactCommit(_) => s.phase.Compacting? && !MovesOne(s.phase.job, maxFileSize)
    case MoveCommit(_) => s.phase.Compacting? && MovesOne(s.phase.job, maxFileSize)
    case _ => true
  }

  ghost predicate OwnRun(run: Run, maxFileSize: nat) {
    run.Then? ==> OwnRun(run.before, maxFileSize) && OwnChoice(run.before.s, run.step, maxFileSize)
  }

  // --- pieces of runs ---------------------------------------------------------------------------

  lemma FirstRun() returns (run: Run)
    ensures run.Start? && IsRun(run) && Init(run.s)
    ensures forall m :: OwnRun(run, m)
  {
    run := Start(State(Core(map[3 := iset{}], 3, NoWrite, 0, iset{}, iset{}, iset{}, 0), None, {}, 3, 4, multiset{},
                       Idle, {}, {}, map[], map[3 := []], map[3 := 0], map[], Manifest({}, 3, 0, 4), {}, {}));
  }

  /** The record of a one-operation group is appended, and synced if asked for. */
  lemma AppendOne(run: Run, e: Entry, sync: bool) returns (run': Run)
    requires IsRun(run) && !run.s.phase.Down? && run.s.core.write.NoWrite? && run.s.core.mem in run.s.logs
    requires e.key.seqno == run.s.core.lastSequence + 1 < MAX_SEQUENCE
    ensures IsRun(run')
    ensures forall m :: OwnRun(run, m) ==> OwnRun(run', m)
    ensures var s, c := run.s, run.s.core; var log := s.logs[c.mem] + [[e]];
      run'.s == s.(core := c.(write := Writing([], [e], true, sync)),
                   logs := s.logs[c.mem := log],
                   safe := if sync then s.safe[c.mem := Solid(s.torn, c.mem, log)] else s.safe)
  {
    var s, c := run.s, run.s.core;
    var log := s.logs[c.mem] + [[e]];
    var s1 := s.(core := c.(write := Writing([], [e], false, sync)));
    assert [] + [e] == [e];
    var s2 := s1.(core := c.(write := Writing([], [e], true, sync)), logs := s.logs[c.mem := log]);
    var run1 := Then(run, BeginWrite([e], sync), s1);
    var run2 := Then(run1, LogWrite, s2);
    assert IsRun(run1) && IsRun(run2);
    assert forall m :: OwnRun(run, m) ==> OwnRun(run1, m) && OwnRun(run2, m);
    run' := if sync then Then(run2, SyncLog, s2.(safe := s2.safe[c.mem := Solid(s.torn, c.mem, log)])) else run2;
  }

  lemma InsertLast(run: Run, e: Entry, sync: bool) returns (run': Run)
    requires IsRun(run) && run.s.core.write == Writing([], [e], true, sync) && run.s.core.mem in run.s.core.mems
    requires sync ==> SyncDone(run.s.core.mem, run.s.logs, run.s.safe, run.s.torn)
    ensures IsRun(run')
    ensures forall m :: OwnRun(run, m) ==> OwnRun(run', m)
    ensures var s, c := run.s, run.s.core;
      run'.s == s.(core := c.(mems := c.mems[c.mem := c.mems[c.mem] + iset{e}], write := Writing([e], [], true, sync)))
  {
    var s, c := run.s, run.s.core;
    assert [e][1..] == [] && [] + [e] == [e];
    run' := Then(run, InsertOne,
                 s.(core := c.(mems := c.mems[c.mem := c.mems[c.mem] + iset{e}],
                               write := Writing([e], [], true, sync))));
  }

  /** It is inserted and acknowledged. */
  lemma InsertAndEnd(run: Run, e: Entry, sync: bool) returns (run': Run)
    requires IsRun(run) && run.s.core.write == Writing([], [e], true, sync) && run.s.core.mem in run.s.core.mems
    requires sync ==> SyncDone(run.s.core.mem, run.s.logs, run.s.safe, run.s.torn)
    ensures IsRun(run')
    ensures forall m :: OwnRun(run, m) ==> OwnRun(run', m)
    ensures var s, c := run.s, run.s.core;
      run'.s == s.(core := c.(mems := c.mems[c.mem := c.mems[c.mem] + iset{e}], lastSequence := c.lastSequence + 1,
                              history := c.history + iset{e},
                              promised := if sync then c.promised + iset{e} else c.promised,
                              synced := if sync && c.mem !in s.torn then c.synced + iset{e} else c.synced,
                              write := NoWrite))
  {
    var c := run.s.core;
    var run1 := InsertLast(run, e, sync);
    assert Elements([e]) == iset{e};
    run' := Then(run1, EndWrite,
                 run1.s.(core := run1.s.core.(lastSequence := c.lastSequence + 1, history := c.history + iset{e},
                                              promised := if sync then c.promised + iset{e} else c.promised,
                                              synced := if sync && c.mem !in run.s.torn then c.synced + iset{e}
                                                        else c.synced,
                                              write := NoWrite)));
  }

  lemma Switched(run: Run) returns (run': Run)
    requires IsRun(run) && !run.s.phase.Down? && run.s.core.write.NoWrite? && run.s.imm.None?
    ensures IsRun(run') && run'.Then? && IsSwitchMem(run.s, run'.s)
    ensures forall m :: OwnRun(run, m) ==> OwnRun(run', m)
  {
    var s := run.s;
    run' := Then(run, SwitchMem,
                 s.(core := s.core.(mems := s.core.mems[s.nextFile := iset{}], mem := s.nextFile),
                    imm := Some(s.core.mem),
                    nextFile := s.nextFile + 1, logs := s.logs[s.nextFile := []], safe := s.safe[s.nextFile := 0],
                    torn := s.torn - {s.nextFile}));
  }

  lemma CrashOf(run: Run, keep: map<nat, set<nat>>) returns (run': Run)
    requires IsRun(run) && Keeps(run.s, keep) && run.s.core.mem in run.s.core.mems
    ensures run'.Then? && run'.before == run && run'.step == Crash(keep) && IsRun(run') && IsCrash(run.s, run'.s, keep)
  {
    var s := run.s;
    var s' := s.(core := LeftCore(s, keep), imm := DurableImm(s.imm, s.manifest.logNumber),
                 version := s.manifest.version, logNumber := s.manifest.logNumber,
                 snapshots := multiset{}, phase := Down, pending := {}, readers := {}, logs := CutLogs(s, keep),
                 doomedTables := {}, doomedLogs := {});
    run' := Then(run, Crash(keep), s');
  }

  lemma Fails(run: Run, e: Entry) returns (run': Run)
    requires IsRun(run) && !run.s.phase.Down? && run.s.core.write.NoWrite? && run.s.core.mem in run.s.logs
    requires e.key.seqno == run.s.core.lastSequence + 1 < MAX_SEQUENCE && run.s.core.mem !in run.s.torn
    ensures IsRun(run')
    ensures forall m :: OwnRun(run, m) ==> OwnRun(run', m)
    ensures var s, c := run.s, run.s.core;
      run'.s == s.(core := c.(lastSequence := c.lastSequence + 1), torn := s.torn[c.mem := |s.logs[c.mem]|])
  {
    var s, c := run.s, run.s.core;
    var run1 := Then(run, BeginWrite([e], false), s.(core := c.(write := Writing([], [e], false, false))));
    assert IsRun(run1);
    run' := Then(run1, FailWrite,
                 s.(core := c.(lastSequence := c.lastSequence + 1), torn := s.torn[c.mem := |s.logs[c.mem]|]));
  }
}
