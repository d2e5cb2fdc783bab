/**
 Runs of the engine: what every reader gets, what survives a crash, and what file
 removal leaves alone (DBImpl::Get, DBImpl::Recover, DBImpl::RemoveObsoleteFiles).
 */
module EngineMain {
  import opened Keys
  import opened Spec
  import opened Versions
  import opened Install
  import opened Engine
  import opened EngineSteps
  import opened EngineProof
  import opened EngineCrash
  import opened EngineRecovery

  ghost predicate IsWriteStep(step: Step) {
    || step.BeginWrite? || step.LogWrite? || step.SyncLog? || step.InsertOne? || step.EndWrite? || step.FailWrite?
    || step.SwitchMem?
  }

  lemma WriteStepInv(s: State, s': State, step: Step)
    requires Inv(s) && Next(s, s', step)
    requires IsWriteStep(step)
    ensures Inv(s')
  {
    hide Inv, IsBeginWrite, IsLogWrite, IsSyncLog, IsInsertOne, IsEndWrite, IsFailWrite, IsSwitchMem;
    match step
    case BeginWrite(batch, sync) => BeginWriteInv(s, s', batch, sync);
    case LogWrite => LogWriteInv(s, s');
    case SyncLog => SyncLogInv(s, s');
    case InsertOne => InsertOneInv(s, s');
    case EndWrite => EndWriteInv(s, s');
    case FailWrite => FailWriteInv(s, s');
    case SwitchMem => SwitchMemInv(s, s');
  }

  lemma ReadStepInv(s: State, s': State, step: Step)
    requires Inv(s) && Next(s, s', step)
    requires step.TakeSnapshot? || step.ReleaseSnapshot? || step.BeginRead? || step.EndRead?
    ensures Inv(s')
  {
    hide Inv, IsTakeSnapshot, IsReleaseSnapshot, IsBeginRead, IsEndRead;
    match step
    case TakeSnapshot => SnapshotInv(s, s');
    case ReleaseSnapshot(x) => ReleaseInv(s, s', x);
    case BeginRead(r) => BeginReadInv(s, s', r);
    case EndRead(r) => EndReadInv(s, s', r);
  }

  lemma FileStepInv(s: State, s': State, step: Step)
    requires Inv(s) && Next(s, s', step)
    requires step.GcMark? || step.GcTable? || step.GcLog?
    ensures Inv(s')
  {
    hide Inv, IsGcMark, IsGcTable, IsGcLog;
    match step
    case GcMark => GcMarkInv(s, s');
    case GcTable(n) => GcTableInv(s, s', n);
    case GcLog(n) => GcLogInv(s, s', n);
  }

  lemma CrashStepInv(s: State, s': State, step: Step)
    requires Inv(s) && Next(s, s', step)
    requires step.Crash? || step.RecoverTable? || step.RecoverLog? || step.Recovered?
    ensures Inv(s')
  {
    hide Inv, IsCrash, IsRecoverTable, IsRecoverLog, IsRecovered;
    match step
    case Crash(keep) => CrashInv(s, s', keep);
    case RecoverTable(n, es) => RecoverTableInv(s, s', n, es);
    case RecoverLog(n) => RecoverLogInv(s, s', n);
    case Recovered(files, log, last) => RecoveredInv(s, s', files, log, last);
  }

  lemma BackgroundStepInv(s: State, s': State, step: Step)
    requires Inv(s) && Next(s, s', step)
    requires || step.FlushBuild? || step.FlushCommit? || step.CompactStart? || step.BuildOutput?
             || step.CompactCommit? || step.MoveCommit? || step.InstallVersion?
    ensures Inv(s')
  {
    hide Inv, IsFlushBuild, IsFlushCommit, IsCompactStart, IsBuildOutput, IsCompactCommit, IsMoveCommit;
    hide IsInstallVersion;
    match step
    case FlushBuild(table) => FlushBuildInv(s, s', table);
    case FlushCommit(level) => FlushCommitInv(s, s', level);
    case CompactStart(job, range) => CompactStartInv(s, s', job, range);
    case BuildOutput(f) => BuildOutputInv(s, s', f);
    case CompactCommit(outputs) => CompactCommitInv(s, s', outputs);
    case MoveCommit(f) => MoveCommitInv(s, s', f);
    case InstallVersion => InstallInv(s, s');
  }

  lemma NextInv(s: State, s': State, step: Step)
    requires Inv(s) && Next(s, s', step)
    ensures Inv(s')
  {
    hide Inv, Next;
    if IsWriteStep(step) {
      WriteStepInv(s, s', step);
    } else if step.TakeSnapshot? || step.ReleaseSnapshot? || step.BeginRead? || step.EndRead? {
      ReadStepInv(s, s', step);
    } else if step.GcMark? || step.GcTable? || step.GcLog? {
      FileStepInv(s, s', step);
    } else if step.Crash? || step.RecoverTable? || step.RecoverLog? || step.Recovered? {
      CrashStepInv(s, s', step);
    } else {
      BackgroundStepInv(s, s', step);
    }
  }

  /** A run, newest step last: any interleaving of steps from an empty database, crashes included. */
  datatype Run = Start(s: State) | Then(before: Run, step: Step, s: State)

  ghost predicate IsRun(run: Run) {
    match run
    case Start(s) => Init(s)
    case Then(before, step, s) => IsRun(before) && Next(before.s, s, step)
  }

  /** The invariant holds at the end of every run, hence at every point of it. */
  lemma {:induction false} RunInv(run: Run)
    requires IsRun(run)
    ensures Inv(run.s)
  {
    match run
    case Start(s) =>
      InitInv(s);
    case Then(before, step, s) =>
      RunInv(before);
      NextInv(before.s, s, step);
  }

  // --- DBImpl::Get -------------------------------------------------------------------

  ghost function ImmRun(imm: Option<seq<Entry>>): iset<Entry> {
    if imm.Some? then Elements(imm.value) else iset{}
  }

  lemma LayerHit(A: iset<Entry>, B: iset<Entry>, k: UserKey, s: nat, r: Found)
    requires Newer(A, B) && Outcome(A, k, s, r) && !r.Missing?
    ensures Outcome(A + B, k, s, r)
  {
    var e := FoundEntry(A, k, s, r);
    forall x | x in A + B && Visible(x, k, s) ensures x.key.seqno <= e.key.seqno {
      assert x in B ==> Later(e, x);
    }
    ReportsEntry(A + B, k, s, e);
  }

  lemma LayerMiss(A: iset<Entry>, B: iset<Entry>, k: UserKey, s: nat, r: Found)
    requires Outcome(A, k, s, Missing) && Outcome(B, k, s, r)
    ensures Outcome(A + B, k, s, r)
  {
    if !r.Missing? {
      var e := FoundEntry(B, k, s, r);
      assert Newest(A + B, k, s, e);
      ReportsEntry(A + B, k, s, e);
    }
  }

  function Reply(r: Found): Option<string> {
    if r.Present? then Some(r.value) else None
  }

  lemma OutcomeAnswers(S: iset<Entry>, k: UserKey, s: nat, r: Found)
    requires Unique(S) && Outcome(S, k, s, r)
    ensures Answers(S, k, s, Reply(r))
  {
    if !r.Missing? {
      var e := FoundEntry(S, k, s, r);
      OnlyOneNewest(S, k, s, e);
    }
  }

  /** Get: the memtable, then the immutable memtable, then the version. */
  method DbGet(mem: seq<Entry>, imm: Option<seq<Entry>>, levels: seq<seq<File>>, ghost V: set<Placed>, k: UserKey,
               s: nat)
      returns (r: Option<string>, charge: SeekCharge, ghost read: seq<Placed>)
    requires Sorted(mem) && (imm.Some? ==> Sorted(imm.value)) && Listing(levels, V)
    requires ViewOk(Elements(mem), ImmRun(imm), V) && Unique(ViewContent(Elements(mem), ImmRun(imm), V))
    ensures Answers(ViewContent(Elements(mem), ImmRun(imm), V), k, s, r)
    ensures ReadOrder(V, k, read, NUM_LEVELS) && charge == ChargeFor(read)
    ensures (exists e :: e in Elements(mem) + ImmRun(imm) && Visible(e, k, s)) ==> read == []
  {
    hide ReadOrder, StopsAtHit;
    ghost var M, I, C := Elements(mem), ImmRun(imm), Content(V);
    charge, read := NoCharge, [];
    NothingRead(V, k);
    var found := RunGet(mem, k, s);
    if !found.Missing? {
      NewerUnion(M, I, C);
      LayerHit(M, I + C, k, s, found);
    } else {
      if imm.Some? {
        found := RunGet(imm.value, k, s);
      }
      if !found.Missing? {
        LayerHit(I, C, k, s, found);
      } else {
        found, charge, read := VersionGet(levels, V, k, s);
        LayerMiss(I, C, k, s, found);
      }
      LayerMiss(M, I + C, k, s, found);
    }
    assert M + I + C == M + (I + C);
    OutcomeAnswers(M + I + C, k, s, found);
    r := Reply(found);
  }

  lemma NothingRead(V: set<Placed>, k: UserKey)
    ensures ReadOrder(V, k, [], NUM_LEVELS)
  {
  }

  lemma NewerUnion(M: iset<Entry>, I: iset<Entry>, C: iset<Entry>)
    requires Newer(M, I) && Newer(M + I, C)
    ensures Newer(M, I + C) && Newer(I, C)
  {
    forall x, y | x in M && y in I + C && x.key.user == y.key.user ensures Later(x, y) {
    }
  }

  /** Sorted runs that hold what the reader's memtables hold when it looks at them. */
  ghost predicate Snapshots(c: Core, r: Reader, mem: seq<Entry>, imm: Option<seq<Entry>>) {
    && Sorted(mem) && r.mem in c.mems && Elements(mem) == c.mems[r.mem]
    && (imm.Some? <==> r.imm.Some?)
    && (imm.Some? ==> Sorted(imm.value) && r.imm.value in c.mems && Elements(imm.value) == c.mems[r.imm.value])
  }

  /**
   Every Get, in every run, answers with the newest operation at or below its
   snapshot in the order of commits, however many flushes, compactions, moves and
   file removals happened since it began.
   */
  method GetInRun(ghost run: Run, r: Reader, k: UserKey, mem: seq<Entry>, imm: Option<seq<Entry>>,
                  levels: seq<seq<File>>)
      returns (reply: Option<string>)
    requires IsRun(run) && r in run.s.readers
    requires Snapshots(run.s.core, r, mem, imm) && Listing(levels, r.version)
    ensures Answers(run.s.core.history, k, r.snapshot, reply)
  {
    RunInv(run);
    ghost var c := run.s.core;
    assert ReaderOk(c, r);
    StoreUnique(c, run.s.snapshots, ViewContent(c.mems[r.mem], ImmOf(c.mems, r.imm), r.version));
    assert ImmRun(imm) == ImmOf(c.mems, r.imm);
    var charge;
    ghost var read;
    reply, charge, read := DbGet(mem, imm, levels, r.version, k, r.snapshot);
  }

  // --- snapshots ------------------------------------------------------------------------

  /** `run` continues `past` without a crash. */
  ghost predicate Continues(run: Run, past: Run) {
    run == past || (run.Then? && !run.step.Crash? && Continues(run.before, past))
  }

  /** Between crashes, what a snapshot reads never changes. */
  lemma {:induction false} SnapshotStable(run: Run, past: Run, k: UserKey, x: nat, r: Option<string>)
    requires IsRun(run) && Continues(run, past) && !past.s.phase.Down? && x <= past.s.core.lastSequence
    ensures past.s.core.lastSequence <= run.s.core.lastSequence && !run.s.phase.Down?
    ensures Answers(past.s.core.history, k, x, r) <==> Answers(run.s.core.history, k, x, r)
  {
    if run != past {
      SnapshotStable(run.before, past, k, x, r);
      RunInv(run.before);
      StepStable(run.before.s, run.s, run.step, k, x, r);
    }
  }

  lemma StepStable(s: State, s': State, step: Step, k: UserKey, x: nat, r: Option<string>)
    requires SequenceInv(s.core, s.snapshots) && Next(s, s', step) && !step.Crash? && !s.phase.Down?
    requires x <= s.core.lastSequence
    ensures s.core.lastSequence <= s'.core.lastSequence && !s'.phase.Down?
    ensures Answers(s.core.history, k, x, r) <==> Answers(s'.core.history, k, x, r)
  {
    hide Next, Answers, SequenceInv;
    StepHistory(s, s', step);
    if step.EndWrite? {
      GroupUnique(s.core, s.snapshots);
      NewerInvisible(s.core.history, s'.core.history, k, x, r);
    }
  }

  /** Only the end of a write changes the history of a running engine, and only by adding the group. */
  lemma StepHistory(s: State, s': State, step: Step)
    requires Next(s, s', step) && !step.Crash? && !s.phase.Down?
    ensures s.core.lastSequence <= s'.core.lastSequence && !s'.phase.Down?
    ensures !step.EndWrite? ==> s'.core.history == s.core.history
    ensures step.EndWrite? ==> s.core.write.Writing?
    ensures step.EndWrite? ==> s'.core.history == s.core.history + Elements(s.core.write.inserted)
  {
    hide Rebuilt, RecoveredLast, OutputsOk, FilesOk, Chosen;
  }

  // --- files ------------------------------------------------------------------------------------

  /**
   In every reachable state the tables of the current version, of the manifest's
   version and of every version a reader holds are on disk unchanged, and so are the
   logs of both memtables until the manifest no longer needs them.
   */
  lemma NothingNeededIsRemoved(run: Run)
    requires IsRun(run)
    ensures var s := run.s;
      && (forall p :: p in s.version + s.manifest.version ==>
            p.file.number in s.tables && s.tables[p.file.number] == p.file.entries)
      && (forall r, p :: r in s.readers && p in r.version ==>
            p.file.number in s.tables && s.tables[p.file.number] == p.file.entries)
      && s.core.mem in s.logs
      && (s.imm.Some? && s.manifest.logNumber <= s.imm.value ==> s.imm.value in s.logs)
  {
    RunInv(run);
    var s := run.s;
    forall p | p in s.version + s.manifest.version ensures TableThere(s.tables, s.doomedTables, p.file) {
    }
    forall r, p | r in s.readers && p in r.version ensures TableThere(s.tables, s.doomedTables, p.file) {
      assert OnDisk(s.tables, s.doomedTables, r.version);
    }
  }

  /** In every reachable state the version satisfies the tree invariant. */
  lemma TreeInRun(run: Run)
    requires IsRun(run)
    ensures TreeOk(run.s.version) && TreeOk(run.s.manifest.version)
  {
    RunInv(run);
  }
}
