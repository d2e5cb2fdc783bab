/** The steps of the storage engine. */
module EngineSteps {
  import opened Keys
  import opened Spec
  import opened Versions
  import opened Inputs
  import opened Selection
  import opened Install
  import opened Flush
  import opened Exactness
  import opened Engine

  datatype Step =
    | BeginWrite(batch: seq<Entry>, sync: bool)
    | LogWrite
    | SyncLog
    | InsertOne
    | EndWrite
    | FailWrite
    | SwitchMem
    | TakeSnapshot
    | ReleaseSnapshot(x: nat)
    | BeginRead(r: Reader)
    | EndRead(r: Reader)
    | FlushBuild(table: Option<File>)
    | FlushCommit(level: nat)
    | CompactStart(job: Job, range: Range)
    | BuildOutput(f: File)
    | CompactCommit(outputs: set<Placed>)
    | MoveCommit(f: File)
    | InstallVersion
    | GcMark
    | GcTable(n: nat)
    | GcLog(n: nat)
    | Crash(keep: map<nat, set<nat>>)
    | RecoverTable(n: nat, es: seq<Entry>)
    | RecoverLog(n: nat)
    | Recovered(files: seq<File>, log: nat, last: nat)

  // --- writes (DBImpl::Write, MakeRoomForWrite) -----------------------------------

  /** The largest sequence number handed out. */
  ghost function LastNumber(c: Core): nat {
    c.lastSequence + if c.write.Writing? then |c.write.inserted| + |c.write.rest| else 0
  }

  /** The leader gives the group its sequence numbers. */
  ghost predicate IsBeginWrite(s: State, s': State, batch: seq<Entry>, sync: bool) {
    && !s.phase.Down? && s.core.write.NoWrite?
    && s.core.lastSequence + |batch| < MAX_SEQUENCE && Numbered(batch, s.core.lastSequence)
    && s' == s.(core := s.core.(write := Writing([], batch, false, sync)))
  }

  /** AddRecord returns: the whole record is in the log file. */
  ghost predicate IsLogWrite(s: State, s': State) {
    && s.core.write.Writing? && !s.core.write.logged && s.core.mem in s.logs
    && s' == s.(core := s.core.(write := s.core.write.(logged := true)),
                logs := s.logs[s.core.mem := s.logs[s.core.mem] + [s.core.write.inserted + s.core.write.rest]])
  }

  /**
   WritableFile::Sync: everything appended to the current log so far is on disk.  What
   comes after a failed append may be unreadable all the same.
   */
  ghost predicate IsSyncLog(s: State, s': State) {
    && s.core.write.Writing? && s.core.write.logged && s.core.mem in s.logs
    && s' == s.(safe := s.safe[s.core.mem := Solid(s.torn, s.core.mem, s.logs[s.core.mem])])
  }

  /** MemTable::Add of one operation, outside the mutex; after the sync, if one was asked for. */
  ghost predicate IsInsertOne(s: State, s': State) {
    && s.core.write.Writing? && s.core.write.logged && s.core.write.rest != [] && s.core.mem in s.core.mems
    && (s.core.write.sync ==> SyncDone(s.core.mem, s.logs, s.safe, s.torn))
    && s' == s.(core := s.core.(mems := s.core.mems[s.core.mem := s.core.mems[s.core.mem] + iset{s.core.write.rest[0]}],
                                write := s.core.write.(inserted := s.core.write.inserted + [s.core.write.rest[0]],
                                                       rest := s.core.write.rest[1..])))
  }

  /** SetLastSequence: the group becomes visible and is acknowledged. */
  ghost predicate IsEndWrite(s: State, s': State) {
    && s.core.write.Writing? && s.core.write.logged && s.core.write.rest == []
    && s' == s.(core := s.core.(lastSequence := s.core.lastSequence + |s.core.write.inserted|,
                                history := s.core.history + Elements(s.core.write.inserted),
                                promised := if s.core.write.sync then s.core.promised + Elements(s.core.write.inserted)
                                            else s.core.promised,
                                synced := if s.core.write.sync && s.core.mem !in s.torn
                                          then s.core.synced + Elements(s.core.write.inserted) else s.core.synced,
                                write := NoWrite))
  }

  /**
   AddRecord failed: the group is given up, its sequence numbers are spent.  Some beginning
   of its record may be in the log, and the writer's place in the block is off by the rest:
   a reader may lose what is appended after it.
   */
  ghost predicate IsFailWrite(s: State, s': State) {
    && s.core.write.Writing? && !s.core.write.logged && s.core.mem in s.logs
    && s' == s.(core := s.core.(lastSequence := LastNumber(s.core), write := NoWrite),
                torn := if s.core.mem in s.torn then s.torn else s.torn[s.core.mem := |s.logs[s.core.mem]|])
  }

  /** MakeRoomForWrite starts a new log and memtable; the old memtable becomes immutable. */
  ghost predicate IsSwitchMem(s: State, s': State) {
    && !s.phase.Down? && s.core.write.NoWrite? && s.imm.None?
    && s' == s.(core := s.core.(mems := s.core.mems[s.nextFile := iset{}], mem := s.nextFile), imm := Some(s.core.mem),
                nextFile := s.nextFile + 1, logs := s.logs[s.nextFile := []], safe := s.safe[s.nextFile := 0],
                torn := s.torn - {s.nextFile})
  }

  // --- reads (DBImpl::GetSnapshot, ReleaseSnapshot, Get) ----------------------------

  ghost predicate IsTakeSnapshot(s: State, s': State) {
    !s.phase.Down? && s' == s.(snapshots := s.snapshots + multiset{s.core.lastSequence})
  }

  ghost predicate IsReleaseSnapshot(s: State, s': State, x: nat) {
    x in s.snapshots && s' == s.(snapshots := s.snapshots - multiset{x})
  }

  ghost predicate IsBeginRead(s: State, s': State, r: Reader) {
    && !s.phase.Down? && r.mem == s.core.mem && r.imm == s.imm && r.version == s.version
    && (r.snapshot == s.core.lastSequence || r.snapshot in s.snapshots)
    && s' == s.(readers := s.readers + {r})
  }

  ghost predicate IsEndRead(s: State, s': State, r: Reader) {
    s' == s.(readers := s.readers - {r})
  }

  // --- flush (DBImpl::CompactMemTable, WriteLevel0Table) -----------------------------

  /** BuildTable writes the immutable memtable to a table; an empty one leaves no file. */
  ghost predicate IsFlushBuild(s: State, s': State, table: Option<File>) {
    && (s.phase.Idle? || s.phase.Compacting?) && s.imm.Some?
    && match table
       case None =>
         && ImmOf(s.core.mems, s.imm) == iset{}
         && s' == s.(phase := Flushing(None, JobOfPhase(s.phase)))
       case Some(f) =>
         && FileOk(f) && f.number == s.nextFile && Has(f) == ImmOf(s.core.mems, s.imm)
         && s' == s.(phase := Flushing(table, JobOfPhase(s.phase)), nextFile := s.nextFile + 1,
                     pending := s.pending + {f.number}, tables := s.tables[f.number := f.entries])
  }

  ghost function Flushed(V: set<Placed>, table: Option<File>, level: nat): set<Placed> {
    if table.Some? then V + {Placed(level, table.value)} else V
  }

  /**
   The manifest record of a flush: the new table, and the current log as the oldest one
   needed.  In mid-compaction the table stays clear of the job; that it does for every
   job PickCompaction chooses is `Flush.FlushMissesJob`.
   */
  ghost predicate IsFlushCommit(s: State, s': State, level: nat) {
    && s.phase.Flushing? && FilesOk(s.version)
    && (s.phase.table.Some? ==> FileOk(s.phase.table.value) && PlaceOk(s.version, Placed(level, s.phase.table.value)))
    && (s.phase.table.Some? && s.phase.resume.Some? ==> Clear(s.phase.resume.value, Placed(level, s.phase.table.value)))
    && s' == s.(manifest := Manifest(Flushed(s.version, s.phase.table, level), s.core.mem, s.core.lastSequence,
                                     s.nextFile),
                pending := s.pending - (if s.phase.table.Some? then {s.phase.table.value.number} else {}),
                phase := Installing(true, s.phase.resume))
  }

  // --- compaction (PickCompaction, DoCompactionWork, InstallCompactionResults) --------

  /** `smallest_snapshot`: the oldest snapshot, or the last sequence number if there is none. */
  ghost predicate IsSmallestSnapshot(s: State, floor: nat) {
    if s.snapshots == multiset{} then floor == s.core.lastSequence
    else floor in s.snapshots && forall x :: x in s.snapshots ==> floor <= x
  }

  /**
   Any complete selection may be compacted, by PickCompaction or by CompactRange, as long
   as no deleted value comes back, now or after a crash (`Exactness.GuardExact`).
   */
  ghost predicate IsCompactStart(s: State, s': State, job: Job, range: Range) {
    && s.phase.Idle? && s.imm.None? && FilesOk(s.version)
    && s.core.mem in s.core.mems && job.base == s.version && Chosen(s.version, job, range)
    && NoneReturns(s.version, AnchorOf(s), job)
    && IsSmallestSnapshot(s, job.floor)
    && s' == s.(phase := Compacting(job))
  }

  /** One output table written to disk, protected by `pending_outputs_`. */
  ghost predicate IsBuildOutput(s: State, s': State, f: File) {
    && s.phase.Compacting? && f.number == s.nextFile
    && s' == s.(nextFile := s.nextFile + 1, pending := s.pending + {f.number},
                tables := s.tables[f.number := f.entries])
  }

  ghost predicate IsCompactCommit(s: State, s': State, outputs: set<Placed>) {
    && s.phase.Compacting? && FilesOk(s.phase.job.base) && OutputsOk(s.phase.job, outputs)
    && (forall o :: o in outputs ==>
          o.file.number in s.pending && o.file.number in s.tables && s.tables[o.file.number] == o.file.entries)
    && s' == s.(manifest := Manifest(s.version - s.phase.job.inputs + outputs, s.logNumber, s.core.lastSequence,
                                     s.nextFile),
                core := s.core.(floor := if s.core.floor < s.phase.job.floor then s.phase.job.floor else s.core.floor),
                phase := Installing(false, None))
  }

  ghost predicate IsMoveCommit(s: State, s': State, f: File) {
    && s.phase.Compacting? && s.phase.job.inputs == {Placed(s.phase.job.level, f)}
    && s' == s.(manifest := Manifest(s.version - s.phase.job.inputs + {Placed(s.phase.job.level + 1, f)}, s.logNumber,
                                     s.core.lastSequence, s.nextFile),
                phase := Installing(false, None))
  }

  /** The end of LogAndApply: the version the manifest describes becomes current. */
  ghost predicate IsInstallVersion(s: State, s': State) {
    && s.phase.Installing?
    && s' == s.(version := s.manifest.version, logNumber := s.manifest.logNumber,
                imm := if s.phase.flushed then None else s.imm,
                pending := if s.phase.flushed then s.pending else {},
                phase := if s.phase.resume.Some? then Compacting(s.phase.resume.value) else Idle)
  }

  // --- removing files (DBImpl::RemoveObsoleteFiles) -------------------------------------

  /** A table that is being written, or that a version still in use may read. */
  ghost predicate LiveTable(s: State, n: nat) {
    || n in s.pending
    || n in Numbers(s.version)
    || exists r :: r in s.readers && n in Numbers(r.version)
  }

  /** Under the mutex: choose what to remove. */
  ghost predicate IsGcMark(s: State, s': State) {
    && !s.phase.Installing? && !s.phase.Down?
    && s' == s.(doomedTables := s.doomedTables + (set n | n in s.tables && !LiveTable(s, n)),
                doomedLogs := s.doomedLogs + (set n | n in s.logs && n < s.logNumber))
  }

  /** Outside the mutex: remove one chosen file. */
  ghost predicate IsGcTable(s: State, s': State, n: nat) {
    n in s.doomedTables && s' == s.(tables := s.tables - {n}, doomedTables := s.doomedTables - {n})
  }

  ghost predicate IsGcLog(s: State, s': State, n: nat) {
    n in s.doomedLogs && s' == s.(logs := s.logs - {n}, doomedLogs := s.doomedLogs - {n})
  }

  // --- crash (of the process or of the machine) --------------------------------------------

  /**
   Which records of a log are left: at least the synced ones; and without gaps, except
   behind a failed append.
   */
  ghost predicate KeepsOf(log: seq<seq<Entry>>, safe: nat, solid: nat, kept: set<nat>) {
    && (forall i :: 0 <= i < safe ==> i in kept)
    && (forall i, j {:trigger i in kept, j in kept} :: 0 <= i < solid && i < j < |log| && j in kept ==> i in kept)
  }

  ghost predicate Keeps(s: State, keep: map<nat, set<nat>>) {
    forall n :: n in s.logs ==>
      n in keep && n in s.safe && KeepsOf(s.logs[n], s.safe[n], Solid(s.torn, n, s.logs[n]), keep[n])
  }

  /** The records that are left, in order. */
  ghost function Kept(log: seq<seq<Entry>>, kept: set<nat>): seq<seq<Entry>> {
    if log == [] then []
    else Kept(log[..|log| - 1], kept) + (if |log| - 1 in kept then [log[|log| - 1]] else [])
  }

  ghost function CutLogs(s: State, keep: map<nat, set<nat>>): map<nat, seq<seq<Entry>>>
    requires Keeps(s, keep)
  {
    map n | n in s.logs :: Kept(s.logs[n], keep[n])
  }

  ghost predicate InKept(log: seq<seq<Entry>>, kept: set<nat>, e: Entry) {
    exists i :: 0 <= i < |log| && i in kept && e in log[i]
  }

  /** What the log of memtable `n` still holds. */
  ghost function LeftIn(s: State, keep: map<nat, set<nat>>, n: nat): iset<Entry>
    requires Keeps(s, keep)
  {
    if n in s.logs then iset e | InKept(s.logs[n], keep[n], e) else iset{}
  }

  /** What the log of the immutable memtable still holds, if recovery will read it. */
  ghost function LeftImm(s: State, keep: map<nat, set<nat>>): iset<Entry>
    requires Keeps(s, keep)
  {
    var imm := DurableImm(s.imm, s.manifest.logNumber);
    if imm.Some? then LeftIn(s, keep, imm.value) else iset{}
  }

  /** The memtables that recovery will rebuild, as their logs still have them. */
  ghost function LeftMems(s: State, keep: map<nat, set<nat>>): map<nat, iset<Entry>>
    requires Keeps(s, keep)
  {
    var imm := DurableImm(s.imm, s.manifest.logNumber);
    var left := map[s.core.mem := LeftIn(s, keep, s.core.mem)];
    if imm.Some? then left[imm.value := LeftImm(s, keep)] else left
  }

  /** The committed operations that need no log. */
  ghost function FlushedHistory(s: State): iset<Entry>
    requires s.core.mem in s.core.mems
  {
    FlushedPart(s.core.history, s.core.mems[s.core.mem], ImmOf(s.core.mems, DurableImm(s.imm, s.manifest.logNumber)))
  }

  /** What is left of the history: all that was flushed, and what the needed logs still hold. */
  ghost function LeftHistory(s: State, keep: map<nat, set<nat>>): iset<Entry>
    requires Keeps(s, keep) && s.core.mem in s.core.mems
  {
    FlushedHistory(s) + LeftImm(s, keep) + LeftIn(s, keep, s.core.mem)
  }

  /**
   The process dies at any point: memory is lost, and with it whatever was appended to a
   log and neither synced nor written back by then.
   */
  ghost predicate IsCrash(s: State, s': State, keep: map<nat, set<nat>>) {
    && Keeps(s, keep) && s.core.mem in s.core.mems
    && s' == s.(core := LeftCore(s, keep), imm := DurableImm(s.imm, s.manifest.logNumber),
                version := s.manifest.version, logNumber := s.manifest.logNumber,
                snapshots := multiset{}, phase := Down, pending := {}, readers := {}, logs := CutLogs(s, keep),
                doomedTables := {}, doomedLogs := {})
  }

  ghost function LeftCore(s: State, keep: map<nat, set<nat>>): Core
    requires Keeps(s, keep) && s.core.mem in s.core.mems
  {
    var last := LastNumber(s.core);
    Core(LeftMems(s, keep), s.core.mem, NoWrite, last, LeftHistory(s, keep), s.core.promised * LeftHistory(s, keep),
         s.core.synced, last)
  }

  // --- recovery (DBImpl::Recover, RecoverLogFile, DB::Open) -------------------------------------

  /** A table written from the logs; or over the remains of an earlier attempt. */
  ghost predicate IsRecoverTable(s: State, s': State, n: nat, es: seq<Entry>) {
    && s.phase.Down? && n !in Numbers(s.manifest.version)
    && s' == s.(tables := s.tables[n := es], nextFile := if s.nextFile <= n then n + 1 else s.nextFile)
  }

  /** The log the database will go on with. */
  ghost predicate IsRecoverLog(s: State, s': State, n: nat) {
    && s.phase.Down? && n !in s.logs
    && s' == s.(logs := s.logs[n := []], safe := s.safe[n := 0], torn := s.torn - {n},
                nextFile := if s.nextFile <= n then n + 1 else s.nextFile)
  }

  /** The operations found in the logs that the manifest still needs. */
  ghost predicate InNeededLog(s: State, e: Entry) {
    exists n :: n in s.logs && n >= s.manifest.logNumber && InRecord(s.logs[n], e)
  }

  /** New tables get numbers the manifest has not seen, in the order they are written. */
  ghost predicate RisingNumbers(files: seq<File>, base: nat) {
    && (forall i :: 0 <= i < |files| ==> base < files[i].number)
    && (forall i, j :: 0 <= i < j < |files| ==> files[i].number < files[j].number)
  }

  /** In every user key, tables written later hold only later operations. */
  ghost predicate RisingSequences(files: seq<File>) {
    forall i, j {:trigger Newer(Has(files[j]), Has(files[i]))} ::
      0 <= i < j < |files| ==> Newer(Has(files[j]), Has(files[i]))
  }

  /** Level-0 tables rebuilt from the logs, log by log and record by record. */
  ghost predicate Rebuilt(s: State, files: seq<File>) {
    && (forall i :: 0 <= i < |files| ==> FileOk(files[i]))
    && RisingNumbers(files, s.manifest.nextFile)
    && RisingSequences(files)
    && (forall e :: InFiles(files, e) <==> InNeededLog(s, e))
  }

  /** LastSequence after recovery: the manifest's, or the largest number found in a log. */
  ghost predicate RecoveredLast(s: State, last: nat) {
    && s.manifest.lastSequence <= last
    && (forall e :: InNeededLog(s, e) ==> e.key.seqno <= last)
    && (last == s.manifest.lastSequence || exists e :: InNeededLog(s, e) && e.key.seqno == last)
  }

  ghost function RecoveredVersion(s: State, files: seq<File>): set<Placed> {
    s.manifest.version + (set f | f in files :: Placed(0, f))
  }

  /**
   The end of DB::Open: the manifest names the tables rebuilt from the logs and the new
   log, and every other table is removed.  A crash before this leaves the manifest as it
   was.
   */
  ghost predicate IsRecovered(s: State, s': State, files: seq<File>, log: nat, last: nat) {
    && s.phase.Down? && Rebuilt(s, files) && RecoveredLast(s, last)
    && (forall f :: f in files ==> f.number in s.tables && s.tables[f.number] == f.entries && f.number < log)
    && log in s.logs && s.logs[log] == [] && log !in s.torn
    && (forall n :: n in s.logs ==> n <= log) && s.manifest.nextFile < log
    && s' == RecoveredState(s, files, log, last)
  }

  ghost function RecoveredState(s: State, files: seq<File>, log: nat, last: nat): State {
    var V := RecoveredVersion(s, files);
    s.(core := Core(map[log := iset{}], log, NoWrite, last, s.core.history, s.core.promised, s.core.synced, last),
       imm := None, version := V, logNumber := log, nextFile := log + 1, phase := Idle,
       tables := map n | n in s.tables && n in Numbers(V) :: s.tables[n],
       manifest := Manifest(V, log, last, log + 1))
  }

  ghost predicate Next(s: State, s': State, step: Step) {
    match step
    case BeginWrite(batch, sync) => IsBeginWrite(s, s', batch, sync)
    case LogWrite => IsLogWrite(s, s')
    case SyncLog => IsSyncLog(s, s')
    case InsertOne => IsInsertOne(s, s')
    case EndWrite => IsEndWrite(s, s')
    case FailWrite => IsFailWrite(s, s')
    case SwitchMem => IsSwitchMem(s, s')
    case TakeSnapshot => IsTakeSnapshot(s, s')
    case ReleaseSnapshot(x) => IsReleaseSnapshot(s, s', x)
    case BeginRead(r) => IsBeginRead(s, s', r)
    case EndRead(r) => IsEndRead(s, s', r)
    case FlushBuild(table) => IsFlushBuild(s, s', table)
    case FlushCommit(level) => IsFlushCommit(s, s', level)
    case CompactStart(job, range) => IsCompactStart(s, s', job, range)
    case BuildOutput(f) => IsBuildOutput(s, s', f)
    case CompactCommit(outputs) => IsCompactCommit(s, s', outputs)
    case MoveCommit(f) => IsMoveCommit(s, s', f)
    case InstallVersion => IsInstallVersion(s, s')
    case GcMark => IsGcMark(s, s')
    case GcTable(n) => IsGcTable(s, s', n)
    case GcLog(n) => IsGcLog(s, s', n)
    case Crash(keep) => IsCrash(s, s', keep)
    case RecoverTable(n, es) => IsRecoverTable(s, s', n, es)
    case RecoverLog(n) => IsRecoverLog(s, s', n)
    case Recovered(files, log, last) => IsRecovered(s, s', files, log, last)
  }

  /** DBImpl::NewDB and the first Open: an empty database. */
  ghost predicate Init(s: State) {
    s == State(Core(map[3 := iset{}], 3, NoWrite, 0, iset{}, iset{}, iset{}, 0), None, {}, 3, 4, multiset{}, Idle,
               {}, {}, map[], map[3 := []], map[3 := 0], map[], Manifest({}, 3, 0, 4), {}, {})
  }
}
