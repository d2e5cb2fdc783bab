/**
 The storage engine as a state machine (db/db_impl.cc, db/version_set.cc):
 state and invariant.

 Every section that holds the mutex is one step.  The places where the code
 releases it (log append, memtable insertion, table building, the manifest write,
 the compaction loop, file removal) are where other steps interleave.
 */
module Engine {
  import opened Keys
  import opened Spec
  import opened Versions
  import opened Install
  import opened Exactness

  // --- state -------------------------------------------------------------------

  /** What the newest manifest record says. */
  datatype Manifest = Manifest(version: set<Placed>, logNumber: nat, lastSequence: nat, nextFile: nat)

  /** The group at the head of the writer queue: appended to the log first, then inserted one by one. */
  datatype Write = NoWrite | Writing(inserted: seq<Entry>, rest: seq<Entry>, logged: bool, sync: bool)

  /** A Get or an iterator: what it referenced under the mutex. */
  datatype Reader = Reader(snapshot: nat, mem: nat, imm: Option<nat>, version: set<Placed>)

  /** The single background thread; `Down` while the process is dead or recovering. */
  datatype Phase =
    | Idle
    | Compacting(job: Job)
    | Flushing(table: Option<File>, resume: Option<Job>)
    | Installing(flushed: bool, resume: Option<Job>)
    | Down

  /** Memtables and the commit order. */
  datatype Core = Core(
    mems: map<nat, iset<Entry>>,   // memtables, named by the number of their log
    mem: nat,                      // mem_ and logfile_number_
    write: Write,
    lastSequence: nat,
    history: iset<Entry>,          // every operation committed so far and not lost
    promised: iset<Entry>,         // those committed with a sync
    synced: iset<Entry>,           // those of them whose log had no failed append before
    floor: nat)                    // snapshots below this are no longer served

  datatype State = State(
    core: Core,
    imm: Option<nat>,              // imm_
    version: set<Placed>,          // versions_->current()
    logNumber: nat,                // versions_->LogNumber()
    nextFile: nat,
    snapshots: multiset<nat>,
    phase: Phase,
    pending: set<nat>,             // pending_outputs_
    readers: set<Reader>,
    tables: map<nat, seq<Entry>>,  // table files on disk
    logs: map<nat, seq<seq<Entry>>>, // log files on disk, record by record
    safe: map<nat, nat>,           // how many records of each log are synced and before any failed append
    torn: map<nat, nat>,           // logs with a failed append: how many records came before the first
    manifest: Manifest,
    doomedTables: set<nat>,        // chosen for removal, not yet unlinked
    doomedLogs: set<nat>)

  // --- sequence numbers -----------------------------------------------------------

  /** Consecutive sequence numbers after `last`, as MemTableInserter hands them out. */
  ghost predicate Numbered(es: seq<Entry>, last: nat) {
    forall i :: 0 <= i < |es| ==> es[i].key.seqno == last + 1 + i
  }

  ghost predicate WriteOk(w: Write, last: nat) {
    w.Writing? ==>
      && last + |w.inserted| + |w.rest| < MAX_SEQUENCE
      && (w.inserted != [] ==> w.logged)
      && Numbered(w.inserted, last)
      && Numbered(w.rest, last + |w.inserted|)
  }

  ghost predicate HistoryOk(history: iset<Entry>, last: nat) {
    Unique(history) && forall e :: e in history ==> e.key.seqno <= last
  }

  ghost predicate SequenceInv(c: Core, snapshots: multiset<nat>) {
    && HistoryOk(c.history, c.lastSequence) && WriteOk(c.write, c.lastSequence)
    && c.floor <= c.lastSequence < MAX_SEQUENCE
    && forall x :: x in snapshots ==> c.floor <= x <= c.lastSequence
  }

  /** Entries that have reached a memtable: committed, or inserted from the group being written. */
  ghost predicate Inserted(c: Core, e: Entry) {
    e in c.history || (c.write.Writing? && e in c.write.inserted)
  }

  ghost function BatchOf(w: Write): iset<Entry> {
    if w.Writing? then Elements(w.inserted + w.rest) else iset{}
  }

  // --- views --------------------------------------------------------------------

  /** What a read sees: a memtable, possibly an immutable one, and a version. */
  ghost function ViewContent(M: iset<Entry>, I: iset<Entry>, V: set<Placed>): iset<Entry> {
    M + I + Content(V)
  }

  ghost predicate ViewOk(M: iset<Entry>, I: iset<Entry>, V: set<Placed>) {
    TreeOk(V) && Newer(M, I) && Newer(M + I, Content(V))
  }

  ghost function ImmOf(mems: map<nat, iset<Entry>>, imm: Option<nat>): iset<Entry> {
    if imm.Some? && imm.value in mems then mems[imm.value] else iset{}
  }

  /** The memtables named by a view exist, and the immutable one is the older. */
  ghost predicate Named(mems: map<nat, iset<Entry>>, mem: nat, imm: Option<nat>) {
    mem in mems && (imm.Some? ==> imm.value in mems && imm.value < mem)
  }

  ghost predicate AllInserted(c: Core, S: iset<Entry>) {
    forall e :: e in S ==> Inserted(c, e)
  }

  ghost predicate GroupInMem(c: Core)
    requires c.mem in c.mems
  {
    c.write.Writing? ==> forall e :: e in c.write.inserted ==> e in c.mems[c.mem]
  }

  /** A view that serves every snapshot from `floor` on as the history would. */
  ghost predicate GoodView(c: Core, imm: Option<nat>, V: set<Placed>) {
    && Named(c.mems, c.mem, imm)
    && ViewOk(c.mems[c.mem], ImmOf(c.mems, imm), V)
    && AllInserted(c, ViewContent(c.mems[c.mem], ImmOf(c.mems, imm), V))
    && GroupInMem(c)
    && SameReads(ViewContent(c.mems[c.mem], ImmOf(c.mems, imm), V), c.history, c.floor, c.lastSequence)
  }

  /** A reader will see the history as of its snapshot. */
  ghost predicate ReaderOk(c: Core, r: Reader) {
    && Named(c.mems, r.mem, r.imm) && r.mem <= c.mem
    && ViewOk(c.mems[r.mem], ImmOf(c.mems, r.imm), r.version)
    && AllInserted(c, ViewContent(c.mems[r.mem], ImmOf(c.mems, r.imm), r.version))
    && r.snapshot <= c.lastSequence
    && SameReads(ViewContent(c.mems[r.mem], ImmOf(c.mems, r.imm), r.version), c.history, r.snapshot, r.snapshot)
  }

  ghost predicate ReadersInv(c: Core, readers: set<Reader>) {
    forall r :: r in readers ==> ReaderOk(c, r)
  }

  // --- the running compaction ---------------------------------------------------------

  ghost function JobOfPhase(p: Phase): Option<Job> {
    match p
    case Idle => None
    case Compacting(job) => Some(job)
    case Flushing(_, resume) => resume
    case Installing(_, resume) => resume
    case Down => None
  }

  ghost predicate JobOk(V: set<Placed>, S: iset<Entry>, job: Job) {
    FilesOk(V) && FilesOk(job.base) && Fits(V, job) && DropsUnseen(V, S, job)
  }

  ghost predicate FloorOk(job: Job, last: nat, snapshots: multiset<nat>) {
    job.floor <= last && forall x :: x in snapshots ==> job.floor <= x
  }

  ghost predicate JobInv(job: Option<Job>, V: set<Placed>, S: iset<Entry>, last: nat, snapshots: multiset<nat>) {
    job.Some? ==> JobOk(V, S, job.value) && FloorOk(job.value, last, snapshots)
  }

  // --- tables on disk ---------------------------------------------------------------------

  ghost function Numbers(V: set<Placed>): set<nat> {
    set p | p in V :: p.file.number
  }

  /** A table is on disk, intact, and not about to be removed. */
  ghost predicate TableThere(tables: map<nat, seq<Entry>>, doomed: set<nat>, f: File) {
    f.number in tables && tables[f.number] == f.entries && f.number !in doomed
  }

  ghost predicate OnDisk(tables: map<nat, seq<Entry>>, doomed: set<nat>, V: set<Placed>) {
    forall p :: p in V ==> TableThere(tables, doomed, p.file)
  }

  ghost predicate ReadersOnDisk(tables: map<nat, seq<Entry>>, doomed: set<nat>, readers: set<Reader>) {
    forall r :: r in readers ==> OnDisk(tables, doomed, r.version)
  }

  ghost predicate Below(ns: set<nat>, bound: nat) {
    forall n :: n in ns ==> n < bound
  }

  ghost predicate PendingOk(pending: set<nat>, tables: map<nat, seq<Entry>>, doomed: set<nat>, V: set<Placed>) {
    forall n :: n in pending ==> n in tables && n !in doomed && n !in Numbers(V)
  }

  /** The table of a flush in progress holds exactly the immutable memtable. */
  ghost predicate FlushTableOk(s: State) {
    s.phase.Flushing? ==>
      && s.imm.Some?
      && (s.phase.table.None? ==> ImmOf(s.core.mems, s.imm) == iset{})
      && (s.phase.table.Some? ==>
            && FileOk(s.phase.table.value) && Has(s.phase.table.value) == ImmOf(s.core.mems, s.imm)
            && s.phase.table.value.number in s.pending
            && TableThere(s.tables, s.doomedTables, s.phase.table.value)
            && Below(Numbers(s.version), s.phase.table.value.number))
  }

  ghost predicate DiskInv(s: State) {
    && OnDisk(s.tables, s.doomedTables, s.version)
    && OnDisk(s.tables, s.doomedTables, s.manifest.version)
    && ReadersOnDisk(s.tables, s.doomedTables, s.readers)
    && Below(s.tables.Keys, s.nextFile) && Below(s.doomedTables, s.nextFile) && Below(s.pending, s.nextFile)
    && PendingOk(s.pending, s.tables, s.doomedTables, s.version)
    && (s.phase.Installing? && s.phase.flushed ==> PendingOk(s.pending, s.tables, s.doomedTables, s.manifest.version))
    && Below(Numbers(s.manifest.version), s.manifest.nextFile) && s.manifest.nextFile <= s.nextFile
    && (!s.phase.Installing? ==> s.manifest.version == s.version && s.manifest.logNumber == s.logNumber)
    && FlushTableOk(s)
  }

  // --- logs on disk -----------------------------------------------------------------------

  ghost predicate InRecord(log: seq<seq<Entry>>, e: Entry) {
    exists i :: 0 <= i < |log| && e in log[i]
  }

  ghost function LogContent(log: seq<seq<Entry>>): iset<Entry> {
    iset e | InRecord(log, e)
  }

  ghost predicate AllLater(a: seq<Entry>, b: seq<Entry>) {
    forall x, y :: x in a && y in b ==> x.key.seqno < y.key.seqno
  }

  /** Records were appended in commit order. */
  ghost predicate Ascending(log: seq<seq<Entry>>) {
    forall i, j {:trigger AllLater(log[i], log[j])} :: 0 <= i < j < |log| ==> AllLater(log[i], log[j])
  }

  /** A record lists its operations under ascending sequence numbers. */
  ghost predicate RecordOk(rec: seq<Entry>) {
    forall i, j :: 0 <= i < j < |rec| ==> rec[i].key.seqno < rec[j].key.seqno
  }

  ghost predicate RecordsOk(log: seq<seq<Entry>>) {
    Ascending(log) && forall i :: 0 <= i < |log| ==> RecordOk(log[i])
  }

  /** What the current log holds beyond the current memtable: a logged group not yet inserted. */
  ghost function LoggedAhead(w: Write): iset<Entry> {
    if w.Writing? && w.logged then BatchOf(w) else iset{}
  }

  ghost predicate MemLogOk(c: Core, logs: map<nat, seq<seq<Entry>>>) {
    c.mem in c.mems && c.mem in logs && LogContent(logs[c.mem]) == c.mems[c.mem] + LoggedAhead(c.write)
  }

  ghost predicate ImmLogOk(c: Core, imm: nat, logs: map<nat, seq<seq<Entry>>>, doomed: set<nat>) {
    imm in c.mems && imm in logs && imm !in doomed && LogContent(logs[imm]) == c.mems[imm]
  }

  /** The immutable memtable still has to come from its log after a crash. */
  ghost function DurableImm(imm: Option<nat>, logNumber: nat): Option<nat> {
    if imm.Some? && logNumber <= imm.value then imm else None
  }

  ghost predicate LogFilesOk(logs: map<nat, seq<seq<Entry>>>, bound: nat) {
    forall n :: n in logs ==> n < bound && RecordsOk(logs[n])
  }

  /** What the manifest asks for is a live memtable's log, or an empty one. */
  ghost predicate LogsNeeded(c: Core, imm: Option<nat>, logs: map<nat, seq<seq<Entry>>>, logNumber: nat) {
    forall n :: n in logs && n >= logNumber ==> n == c.mem || Some(n) == imm || logs[n] == []
  }

  /** Every committed operation the manifest's sequence number does not account for is in a needed log. */
  ghost predicate Accounted(c: Core, imm: Option<nat>, manifestLast: nat)
    requires c.mem in c.mems
  {
    forall e :: e in c.history ==> e.key.seqno <= manifestLast || e in c.mems[c.mem] || e in ImmOf(c.mems, imm)
  }

  ghost predicate LogInv(s: State) {
    && MemLogOk(s.core, s.logs) && s.core.mem !in s.doomedLogs && s.core.mem < s.nextFile
    && LogFilesOk(s.logs, s.nextFile) && Below(s.core.mems.Keys, s.nextFile)
    && s.logNumber <= s.manifest.logNumber <= s.core.mem
    && (s.phase.Installing? && s.phase.flushed ==> s.imm.Some? && s.imm.value < s.manifest.logNumber == s.core.mem)
    && (s.imm.Some? && !(s.phase.Installing? && s.phase.flushed) ==>
          s.manifest.logNumber <= s.imm.value && ImmLogOk(s.core, s.imm.value, s.logs, s.doomedLogs))
    && LogsNeeded(s.core, s.imm, s.logs, s.manifest.logNumber)
    && Accounted(s.core, DurableImm(s.imm, s.manifest.logNumber), s.manifest.lastSequence)
    && s.manifest.lastSequence <= s.core.lastSequence
    && Below(s.doomedLogs, s.manifest.logNumber)
  }

  // --- what a crash leaves -----------------------------------------------------------------

  /** Every operation of `a` was numbered before every operation of `b`. */
  ghost predicate InOrder(a: iset<Entry>, b: iset<Entry>) {
    forall x, y {:trigger Later(y, x)} :: x in a && y in b ==> Later(y, x)
  }

  /** The committed operations that no memtable holds any more. */
  ghost function FlushedPart(H: iset<Entry>, M: iset<Entry>, I: iset<Entry>): iset<Entry> {
    H - M - I
  }

  /** The records of log `n` that a crash cannot take. */
  ghost function SafePart(logs: map<nat, seq<seq<Entry>>>, safe: map<nat, nat>, n: nat): iset<Entry> {
    if n in logs && n in safe && safe[n] <= |logs[n]| then LogContent(logs[n][..safe[n]]) else iset{}
  }

  /** What the memtables hold that a crash cannot take. */
  ghost function Anchor(c: Core, imm: Option<nat>, logs: map<nat, seq<seq<Entry>>>, safe: map<nat, nat>): iset<Entry>
    requires c.mem in c.mems
  {
    SafePart(logs, safe, c.mem) * c.mems[c.mem]
    + (if imm.Some? then SafePart(logs, safe, imm.value) * ImmOf(c.mems, imm) else iset{})
  }

  /**
   Whatever a crash leaves of the memtables, with the version under it, answers for the
   newest snapshot as it would with the flushed part of the history under it.
   */
  ghost predicate FlushedOk(H: iset<Entry>, M: iset<Entry>, I: iset<Entry>, S: iset<Entry>, V: set<Placed>) {
    && SameReads(S + Content(V), S + FlushedPart(H, M, I), MAX_SEQUENCE, MAX_SEQUENCE)
    && InOrder(FlushedPart(H, M, I), M) && InOrder(FlushedPart(H, M, I), I) && InOrder(I, M)
  }

  ghost predicate FlushedInv(c: Core, imm: Option<nat>, S: iset<Entry>, V: set<Placed>) {
    c.mem in c.mems && S <= c.mems[c.mem] + ImmOf(c.mems, imm)
    && FlushedOk(c.history, c.mems[c.mem], ImmOf(c.mems, imm), S, V)
  }

  /** How many records of a log come before its first failed append. */
  ghost function Solid(torn: map<nat, nat>, n: nat, log: seq<seq<Entry>>): nat {
    if n in torn && torn[n] < |log| then torn[n] else |log|
  }

  /** What was appended before the first failed append. */
  ghost function SolidPart(logs: map<nat, seq<seq<Entry>>>, torn: map<nat, nat>, n: nat): iset<Entry> {
    if n in logs then LogContent(logs[n][..Solid(torn, n, logs[n])]) else iset{}
  }

  ghost predicate SafeLogs(logs: map<nat, seq<seq<Entry>>>, safe: map<nat, nat>, torn: map<nat, nat>) {
    forall n :: n in logs ==> n in safe && safe[n] <= Solid(torn, n, logs[n])
  }

  /** `S` is in the part of its log that a crash cannot take, as far as it is in a memtable. */
  ghost predicate InSafe(c: Core, imm: Option<nat>, S: iset<Entry>, logs: map<nat, seq<seq<Entry>>>,
                         safe: map<nat, nat>)
    requires c.mem in c.mems
  {
    && (forall e :: e in S && e in c.mems[c.mem] ==> e in SafePart(logs, safe, c.mem))
    && (forall e :: e in S && e in ImmOf(c.mems, imm) ==> imm.Some? && e in SafePart(logs, safe, imm.value))
  }

  /**
   What was committed with a sync needs no log any more, or is in the synced part of one,
   unless an append to that log had failed before.
   */
  ghost predicate SyncedOk(c: Core, imm: Option<nat>, logs: map<nat, seq<seq<Entry>>>, safe: map<nat, nat>,
                           torn: map<nat, nat>) {
    && c.mem in c.mems && c.synced <= c.promised <= c.history && InSafe(c, imm, c.synced, logs, safe)
    && (forall e :: e in c.promised && e in c.mems[c.mem] && e in SolidPart(logs, torn, c.mem) ==>
          e in SafePart(logs, safe, c.mem))
    && (forall e :: e in c.promised && e in ImmOf(c.mems, imm) && imm.Some? && e in SolidPart(logs, torn, imm.value) ==>
          e in SafePart(logs, safe, imm.value))
  }

  /** A group that asks for a sync is inserted only once its record is synced. */
  ghost predicate GroupSynced(c: Core, logs: map<nat, seq<seq<Entry>>>, safe: map<nat, nat>, torn: map<nat, nat>) {
    c.write.Writing? && c.write.sync && c.write.inserted != [] ==>
      SyncDone(c.mem, logs, safe, torn)
  }

  /** All of log `n` is synced, or no sync can make its end safe any more. */
  ghost predicate SyncDone(n: nat, logs: map<nat, seq<seq<Entry>>>, safe: map<nat, nat>, torn: map<nat, nat>) {
    n in logs && n in safe && (n in torn || safe[n] == |logs[n]|)
  }

  /** A logged group is the last record of the current log. */
  ghost predicate GroupLogged(c: Core, logs: map<nat, seq<seq<Entry>>>) {
    c.write.Writing? && c.write.logged ==>
      c.mem in logs && logs[c.mem] != [] && logs[c.mem][|logs[c.mem]| - 1] == c.write.inserted + c.write.rest
  }

  /** A dead process has nothing in memory; what its memtables held is what their logs hold. */
  ghost predicate DownOk(s: State) {
    s.phase.Down? ==>
      && s.core.write.NoWrite? && s.readers == {} && s.snapshots == multiset{} && s.pending == {}
      && s.doomedTables == {} && s.doomedLogs == {} && s.imm == DurableImm(s.imm, s.manifest.logNumber)
  }

  /** A failed append on the current log comes before the group being written. */
  ghost predicate TornBefore(c: Core, logs: map<nat, seq<seq<Entry>>>, torn: map<nat, nat>) {
    c.mem in logs && c.mem in torn ==>
      && torn[c.mem] <= |logs[c.mem]|
      && (c.write.Writing? && c.write.logged ==> torn[c.mem] < |logs[c.mem]|)
  }

  ghost function AnchorOf(s: State): iset<Entry>
    requires s.core.mem in s.core.mems
  {
    Anchor(s.core, DurableImm(s.imm, s.manifest.logNumber), s.logs, s.safe)
  }

  ghost predicate DurableInv(s: State) {
    && s.core.mem in s.core.mems
    && FlushedInv(s.core, DurableImm(s.imm, s.manifest.logNumber), AnchorOf(s), s.manifest.version)
    && SafeLogs(s.logs, s.safe, s.torn)
    && SyncedOk(s.core, DurableImm(s.imm, s.manifest.logNumber), s.logs, s.safe, s.torn)
    && GroupSynced(s.core, s.logs, s.safe, s.torn) && GroupLogged(s.core, s.logs)
    && DownOk(s) && (!s.phase.Down? ==> TornBefore(s.core, s.logs, s.torn))
  }

  ghost predicate Inv(s: State) {
    && SequenceInv(s.core, s.snapshots)
    && GoodView(s.core, s.imm, s.version)
    && GoodView(s.core, DurableImm(s.imm, s.manifest.logNumber), s.manifest.version)
    && ReadersInv(s.core, s.readers)
    && JobInv(JobOfPhase(s.phase), s.manifest.version, AnchorOf(s), s.core.lastSequence, s.snapshots)
    && DiskInv(s)
    && LogInv(s)
    && DurableInv(s)
  }
}
