/** Every step of the engine keeps its invariant. */
module EngineProof {
  import opened Keys
  import opened Spec
  import opened Versions
  import opened Inputs
  import opened Install
  import opened Flush
  import opened Exactness
  import opened Engine
  import opened EngineSteps
  import opened EngineDurable

  lemma InitInv(s: State)
    requires Init(s)
    ensures Inv(s)
  {
    hide Content, ViewContent, LogContent;
    NothingStored();
    assert LogInv(s) && DiskInv(s) && DurableInv(s);
  }

  lemma NothingStored()
    ensures Content({}) == iset{} && ViewContent(iset{}, iset{}, {}) == iset{} && LogContent([]) == iset{}
  {
  }

  lemma BeginWriteInv(s: State, s': State, batch: seq<Entry>, sync: bool)
    requires Inv(s) && IsBeginWrite(s, s', batch, sync)
    ensures Inv(s')
  {
    hide ViewOk, SameReads, TreeOk, JobOk, FlushedOk, LogContent, RecordsOk, TableThere, OnDisk, HistoryOk;
    hide SafePart, SolidPart, Content;
    assert AnchorOf(s') == AnchorOf(s);
  }

  lemma LogAppend(log: seq<seq<Entry>>, rec: seq<Entry>)
    requires RecordsOk(log) && RecordOk(rec)
    requires forall e, x :: e in LogContent(log) && x in rec ==> e.key.seqno < x.key.seqno
    ensures RecordsOk(log + [rec]) && LogContent(log + [rec]) == LogContent(log) + Elements(rec)
  {
    var log' := log + [rec];
    forall e ensures e in LogContent(log') <==> e in LogContent(log) || e in rec {
      if e in LogContent(log) {
        var i :| 0 <= i < |log| && e in log[i];
        assert e in log'[i];
      }
      if e in rec {
        assert e in log'[|log|];
      }
    }
    forall i, j | 0 <= i < j < |log'| ensures AllLater(log'[i], log'[j]) {
      if j == |log| {
        forall x | x in log[i] ensures x in LogContent(log) {
        }
      } else {
        assert AllLater(log[i], log[j]);
      }
    }
  }

  /** A group not yet inserted is newer than everything any memtable holds. */
  lemma GroupIsNewer(c: Core, snapshots: multiset<nat>, e: Entry, x: Entry)
    requires SequenceInv(c, snapshots) && c.write.Writing? && Inserted(c, e) && x in c.write.rest
    ensures e.key.seqno < x.key.seqno
  {
  }

  lemma LogWriteLogInv(s: State, s': State)
    requires SequenceInv(s.core, s.snapshots) && LogInv(s) && IsLogWrite(s, s') && Named(s.core.mems, s.core.mem, s.imm)
    requires forall e :: e in s.core.mems[s.core.mem] ==> Inserted(s.core, e)
    ensures LogInv(s')
  {
    GroupAppended(s.core, s.snapshots, s.logs[s.core.mem]);
    hide RecordsOk, SequenceInv, LogContent, WriteOk;
    assert MemLogOk(s'.core, s'.logs);
    assert LogFilesOk(s'.logs, s'.nextFile);
    assert LogsNeeded(s'.core, s'.imm, s'.logs, s'.manifest.logNumber);
  }

  /** Appending the group keeps the current log in commit order. */
  lemma GroupAppended(c: Core, snapshots: multiset<nat>, log: seq<seq<Entry>>)
    requires SequenceInv(c, snapshots) && c.write.Writing? && !c.write.logged && RecordsOk(log)
    requires forall e :: e in LogContent(log) ==> Inserted(c, e)
    ensures var rec := c.write.inserted + c.write.rest;
            RecordsOk(log + [rec]) && LogContent(log + [rec]) == LogContent(log) + Elements(rec)
  {
    var rec := c.write.inserted + c.write.rest;
    assert rec == c.write.rest && Numbered(rec, c.lastSequence);
    forall e, x | e in LogContent(log) && x in rec ensures e.key.seqno < x.key.seqno {
      GroupIsNewer(c, snapshots, e, x);
    }
    LogAppend(log, rec);
  }

  lemma LogWriteInv(s: State, s': State)
    requires Inv(s) && IsLogWrite(s, s')
    ensures Inv(s')
  {
    forall e | e in s.core.mems[s.core.mem] ensures Inserted(s.core, e) {
      assert e in ViewContent(s.core.mems[s.core.mem], ImmOf(s.core.mems, s.imm), s.version);
    }
    LogWriteLogInv(s, s');
    assert ImmOfState(s).Some? ==> ImmLogOk(s.core, ImmOfState(s).value, s.logs, s.doomedLogs);
    hide GoodView, ReaderOk, LogInv, DurableInv, DiskInv;
    LogWriteDurable(s, s');
    LogWriteRest(s, s');
  }

  lemma LogWriteRest(s: State, s': State)
    requires Inv(s) && IsLogWrite(s, s')
    ensures SequenceInv(s'.core, s'.snapshots) && GoodView(s'.core, s'.imm, s'.version)
    ensures ReadersInv(s'.core, s'.readers)
    ensures GoodView(s'.core, DurableImm(s'.imm, s'.manifest.logNumber), s'.manifest.version) && DiskInv(s')
  {
    hide LogInv, DurableInv, JobInv;
  }

  /** The safe part of the memtables grew, and nothing else the version is compared with changed. */
  lemma Reanchored(s: State, s': State)
    requires SequenceInv(s'.core, s'.snapshots) && GoodView(s'.core, ImmOfState(s'), s'.manifest.version)
    requires s.core.mem in s.core.mems && AnchorOf(s) <= AnchorOf(s')
    requires FlushedInv(s'.core, ImmOfState(s'), AnchorOf(s), s'.manifest.version)
    requires JobInv(JobOfPhase(s'.phase), s'.manifest.version, AnchorOf(s), s'.core.lastSequence, s'.snapshots)
    ensures FlushedInv(s'.core, ImmOfState(s'), AnchorOf(s'), s'.manifest.version)
    ensures JobInv(JobOfPhase(s'.phase), s'.manifest.version, AnchorOf(s'), s'.core.lastSequence, s'.snapshots)
  {
    hide FlushedInv, JobOk, AnchorOf;
    var c, V := s'.core, s'.manifest.version;
    var view := ViewContent(c.mems[c.mem], ImmOf(c.mems, ImmOfState(s')), V);
    AllUnique(c, s'.snapshots, view);
    hide GoodView, SequenceInv, ViewContent;
    AnchorIsInMems(s');
    AnchorGrows(c, ImmOfState(s'), AnchorOf(s), AnchorOf(s'), V, JobOfPhase(s'.phase));
  }

  lemma AnchorIsInMems(s: State)
    requires s.core.mem in s.core.mems
    ensures AnchorOf(s) <= s.core.mems[s.core.mem] + ImmOf(s.core.mems, ImmOfState(s))
  {
    AnchorBounds(s.core, ImmOfState(s), s.logs, s.safe);
  }

  lemma AllUnique(c: Core, snapshots: multiset<nat>, S: iset<Entry>)
    requires SequenceInv(c, snapshots) && AllInserted(c, S)
    ensures Unique(S + c.history)
  {
    StoreUnique(c, snapshots, S + c.history);
  }

  lemma SyncLogInv(s: State, s': State)
    requires Inv(s) && IsSyncLog(s, s')
    ensures Inv(s')
  {
    assert ImmOfState(s).Some? ==> ImmOfState(s).value != s.core.mem;
    hide GoodView, ReaderOk, DiskInv, JobOk, FlushedInv, SyncedOk, SafeLogs;
    SyncLogSafe(s, s');
    Reanchored(s, s');
    assert LogInv(s') && DiskInv(s') by {
      SyncLogRest(s, s');
    }
    assert DurableInv(s');
  }

  lemma SyncLogRest(s: State, s': State)
    requires LogInv(s) && DiskInv(s) && IsSyncLog(s, s')
    ensures LogInv(s') && DiskInv(s')
  {
  }

  // --- inserting and committing a group -------------------------------------------------

  lemma ViewInsert(M: iset<Entry>, I: iset<Entry>, V: set<Placed>, e: Entry)
    requires ViewOk(M, I, V) && forall x :: x in ViewContent(M, I, V) ==> x.key.seqno < e.key.seqno
    ensures ViewOk(M + iset{e}, I, V)
  {
  }

  /** Inserting an operation beyond the last sequence number is invisible to every snapshot taken so far. */
  lemma InsertSameReads(S: iset<Entry>, H: iset<Entry>, e: Entry, lo: nat, hi: nat)
    requires SameReads(S, H, lo, hi) && e.key.seqno > hi
    ensures SameReads(S + iset{e}, H, lo, hi)
  {
    forall k: UserKey, s: nat, r | lo <= s <= hi
      ensures Answers(S + iset{e}, k, s, r) <==> Answers(H, k, s, r)
    {
      NewerInvisible(S, S + iset{e}, k, s, r);
    }
  }

  ghost predicate IsInsert(c: Core, c': Core) {
    && c.write.Writing? && c.write.logged && c.write.rest != [] && c.mem in c.mems
    && c' == c.(mems := c.mems[c.mem := c.mems[c.mem] + iset{c.write.rest[0]}],
                write := c.write.(inserted := c.write.inserted + [c.write.rest[0]], rest := c.write.rest[1..]))
  }

  /** The view grows by one operation that is later than everything in it. */
  lemma InsertView(c: Core, snapshots: multiset<nat>, M: iset<Entry>, I: iset<Entry>, V: set<Placed>)
    requires SequenceInv(c, snapshots) && c.write.Writing? && c.write.rest != []
    requires ViewOk(M, I, V) && AllInserted(c, ViewContent(M, I, V))
    ensures ViewOk(M + iset{c.write.rest[0]}, I, V)
    ensures ViewContent(M + iset{c.write.rest[0]}, I, V) == ViewContent(M, I, V) + iset{c.write.rest[0]}
  {
    var e := c.write.rest[0];
    forall x | x in ViewContent(M, I, V) ensures x.key.seqno < e.key.seqno {
      GroupIsNewer(c, snapshots, x, e);
    }
    ViewInsert(M, I, V, e);
  }

  lemma InsertGoodView(c: Core, c': Core, snapshots: multiset<nat>, imm: Option<nat>, V: set<Placed>)
    requires SequenceInv(c, snapshots) && GoodView(c, imm, V) && IsInsert(c, c')
    ensures GoodView(c', imm, V)
  {
    var e := c.write.rest[0];
    var M, I := c.mems[c.mem], ImmOf(c.mems, imm);
    InsertView(c, snapshots, M, I, V);
    InsertSameReads(ViewContent(M, I, V), c.history, e, c.floor, c.lastSequence);
    assert ImmOf(c'.mems, imm) == I && c'.mems[c'.mem] == M + iset{e};
    assert AllInserted(c', ViewContent(M, I, V) + iset{e});
  }

  lemma InsertReaderOk(c: Core, c': Core, snapshots: multiset<nat>, r: Reader)
    requires SequenceInv(c, snapshots) && ReaderOk(c, r) && IsInsert(c, c')
    ensures ReaderOk(c', r)
  {
    var e := c.write.rest[0];
    var M, I, V := c.mems[r.mem], ImmOf(c.mems, r.imm), r.version;
    assert ImmOf(c'.mems, r.imm) == I;
    if r.mem == c.mem {
      InsertView(c, snapshots, M, I, V);
      InsertSameReads(ViewContent(M, I, V), c.history, e, r.snapshot, r.snapshot);
    }
  }

  lemma InsertSequenceInv(c: Core, c': Core, snapshots: multiset<nat>)
    requires SequenceInv(c, snapshots) && c.write.Writing? && c.write.logged && c.write.rest != []
    requires c' == c.(mems := c'.mems, write := c.write.(inserted := c.write.inserted + [c.write.rest[0]],
                                                         rest := c.write.rest[1..]))
    ensures SequenceInv(c', snapshots) && BatchOf(c'.write) == BatchOf(c.write)
  {
    assert c.write.inserted + c.write.rest == c'.write.inserted + c'.write.rest;
  }

  lemma InsertLogInv(s: State, s': State)
    requires LogInv(s) && IsInsertOne(s, s') && BatchOf(s'.core.write) == BatchOf(s.core.write)
    ensures LogInv(s')
  {
    var c, c', e := s.core, s'.core, s.core.write.rest[0];
    assert e in BatchOf(c.write) by {
      assert (c.write.inserted + c.write.rest)[|c.write.inserted|] == e;
    }
    assert MemLogOk(c', s'.logs);
    assert ImmOf(c'.mems, DurableImm(s.imm, s.manifest.logNumber))
           == ImmOf(c.mems, DurableImm(s.imm, s.manifest.logNumber));
    assert Accounted(c', DurableImm(s.imm, s.manifest.logNumber), s.manifest.lastSequence);
  }

  lemma InsertedDurable(s: State, s': State)
    requires Inv(s) && IsInsertOne(s, s') && SequenceInv(s'.core, s'.snapshots)
    requires GoodView(s'.core, ImmOfState(s'), s'.manifest.version)
    ensures DurableInv(s')
    ensures JobInv(JobOfPhase(s'.phase), s'.manifest.version, AnchorOf(s'), s'.core.lastSequence, s'.snapshots)
  {
    InsertFlushed(s, s');
    InsertSafe(s, s');
    assert s.core.mem in s.core.mems && SafeLogs(s'.logs, s'.safe, s'.torn) && DownOk(s');
    assert !s.phase.Down? && TornBefore(s'.core, s'.logs, s'.torn);
    hide GoodView, ReadersInv, DiskInv, LogInv, FlushedInv, JobOk, SyncedOk, SequenceInv;
    Reanchored(s, s');
  }

  lemma InsertOneInv(s: State, s': State)
    requires Inv(s) && IsInsertOne(s, s')
    ensures Inv(s')
  {
    var c, c' := s.core, s'.core;
    InsertSequenceInv(c, c', s.snapshots);
    InsertLogInv(s, s');
    InsertGoodView(c, c', s.snapshots, s.imm, s.version);
    InsertGoodView(c, c', s.snapshots, DurableImm(s.imm, s.manifest.logNumber), s.manifest.version);
    assert ReadersInv(c', s.readers) by {
      forall r | r in s.readers ensures ReaderOk(c', r) {
        InsertReaderOk(c, c', s.snapshots, r);
      }
    }
    assert ImmOf(c'.mems, s.imm) == ImmOf(c.mems, s.imm);
    assert FlushTableOk(s');
    InsertedDurable(s, s');
  }

  // --- committing a group ------------------------------------------------------------------

  lemma CommitSameReads(S: iset<Entry>, H: iset<Entry>, N: iset<Entry>, lo: nat, last: nat, n: nat)
    requires SameReads(S, H, lo, last) && lo <= last && Unique(H + N) && Unique(S + N) && N <= S
    requires forall e :: e in H ==> e.key.seqno <= last
    requires forall e :: e in S && e !in N ==> e.key.seqno <= last
    requires forall e :: e in N ==> e.key.seqno > last
    ensures SameReads(S, H + N, lo, last + n)
  {
    var T := S - N;
    forall k: UserKey, s: nat, r | lo <= s <= last
      ensures Answers(T, k, s, r) <==> Answers(H, k, s, r)
    {
      NewerInvisible(T, S, k, s, r);
    }
    assert T + N == S;
    SameReadsExtend(T, H, N, lo, last, last + n);
  }

  lemma GroupUnique(c: Core, snapshots: multiset<nat>)
    requires SequenceInv(c, snapshots) && c.write.Writing?
    ensures Unique(c.history + Elements(c.write.inserted))
    ensures forall e :: e in Elements(c.write.inserted) ==>
              c.lastSequence < e.key.seqno <= c.lastSequence + |c.write.inserted|
  {
    var N := Elements(c.write.inserted);
    forall a, b | a in c.history + N && b in c.history + N && SameNumber(a, b) ensures a == b {
    }
  }

  ghost predicate IsCommit(c: Core, c': Core) {
    && c.write.Writing? && c.write.logged && c.write.rest == []
    && c' == c.(lastSequence := c.lastSequence + |c.write.inserted|, history := c.history + Elements(c.write.inserted),
                promised := c'.promised, synced := c'.synced, write := NoWrite)
  }

  lemma CommitGoodView(c: Core, c': Core, snapshots: multiset<nat>, imm: Option<nat>, V: set<Placed>)
    requires SequenceInv(c, snapshots) && GoodView(c, imm, V) && IsCommit(c, c')
    ensures GoodView(c', imm, V)
  {
    GroupUnique(c, snapshots);
    var S, N := ViewContent(c.mems[c.mem], ImmOf(c.mems, imm), V), Elements(c.write.inserted);
    assert forall e :: e in S ==> e in c.history + N;
    assert N <= S;
    CommitSameReads(S, c.history, N, c.floor, c.lastSequence, |c.write.inserted|);
  }

  lemma CommitReaderOk(c: Core, c': Core, snapshots: multiset<nat>, r: Reader)
    requires SequenceInv(c, snapshots) && ReaderOk(c, r) && IsCommit(c, c')
    ensures ReaderOk(c', r)
  {
    GroupUnique(c, snapshots);
    var S := ViewContent(c.mems[r.mem], ImmOf(c.mems, r.imm), r.version);
    forall k: UserKey, x: nat, a | r.snapshot <= x <= r.snapshot
      ensures Answers(S, k, x, a) <==> Answers(c'.history, k, x, a)
    {
      NewerInvisible(c.history, c'.history, k, x, a);
    }
  }

  lemma CommitLogInv(s: State, s': State)
    requires LogInv(s) && IsEndWrite(s, s') && GroupInMem(s.core)
    ensures LogInv(s')
  {
    var c, c' := s.core, s'.core;
    assert c.write.inserted + c.write.rest == c.write.inserted;
    assert MemLogOk(c', s'.logs);
    assert Accounted(c', DurableImm(s.imm, s.manifest.logNumber), s.manifest.lastSequence);
  }

  lemma EndWriteInv(s: State, s': State)
    requires Inv(s) && IsEndWrite(s, s')
    ensures Inv(s')
  {
    var c, c' := s.core, s'.core;
    GroupUnique(c, s.snapshots);
    assert SequenceInv(c', s.snapshots);
    CommitGoodView(c, c', s.snapshots, s.imm, s.version);
    CommitGoodView(c, c', s.snapshots, DurableImm(s.imm, s.manifest.logNumber), s.manifest.version);
    assert ReadersInv(c', s.readers) by {
      forall r | r in s.readers ensures ReaderOk(c', r) {
        CommitReaderOk(c, c', s.snapshots, r);
      }
    }
    CommitLogInv(s, s');
    CommitDurable(s, s');
  }

  // --- giving up a group -------------------------------------------------------------------

  /** Reads beyond every sequence number in the store are all alike. */
  lemma ReadAtTop(S: iset<Entry>, k: UserKey, s: nat, s': nat, r: Option<string>)
    requires forall e :: e in S ==> e.key.seqno <= s && e.key.seqno <= s'
    ensures Answers(S, k, s, r) <==> Answers(S, k, s', r)
  {
    assert forall e :: Newest(S, k, s, e) <==> Newest(S, k, s', e);
  }

  lemma HigherReads(S: iset<Entry>, T: iset<Entry>, lo: nat, hi: nat, hi': nat)
    requires SameReads(S, T, lo, hi) && lo <= hi <= hi' && forall e :: e in S + T ==> e.key.seqno <= hi
    ensures SameReads(S, T, lo, hi')
  {
    forall k: UserKey, s: nat, r | lo <= s <= hi' ensures Answers(S, k, s, r) <==> Answers(T, k, s, r) {
      if hi < s {
        ReadAtTop(S, k, hi, s, r);
        ReadAtTop(T, k, hi, s, r);
      }
    }
  }

  lemma FailGoodView(c: Core, c': Core, snapshots: multiset<nat>, imm: Option<nat>, V: set<Placed>)
    requires SequenceInv(c, snapshots) && GoodView(c, imm, V) && c.write.Writing? && !c.write.logged
    requires c' == c.(lastSequence := LastNumber(c), write := NoWrite)
    ensures GoodView(c', imm, V)
  {
    var S := ViewContent(c.mems[c.mem], ImmOf(c.mems, imm), V);
    forall e | e in S ensures e in c.history {
      assert Inserted(c, e);
    }
    HigherReads(S, c.history, c.floor, c.lastSequence, c'.lastSequence);
  }

  lemma FailReaderOk(c: Core, c': Core, snapshots: multiset<nat>, r: Reader)
    requires SequenceInv(c, snapshots) && ReaderOk(c, r) && c.write.Writing? && !c.write.logged
    requires c' == c.(lastSequence := LastNumber(c), write := NoWrite)
    ensures ReaderOk(c', r)
  {
  }

  lemma FailWriteInv(s: State, s': State)
    requires Inv(s) && IsFailWrite(s, s')
    ensures Inv(s')
  {
    hide GoodView, ReaderOk;
    FailGoodView(s.core, s'.core, s.snapshots, s.imm, s.version);
    FailGoodView(s.core, s'.core, s.snapshots, DurableImm(s.imm, s.manifest.logNumber), s.manifest.version);
    forall r | r in s.readers ensures ReaderOk(s'.core, r) {
      FailReaderOk(s.core, s'.core, s.snapshots, r);
    }
    FailDurable(s, s');
    assert LogInv(s') && DiskInv(s');
  }

  // --- a new memtable --------------------------------------------------------------------

  lemma SwitchGoodView(c: Core, c': Core, n: nat, V: set<Placed>)
    requires GoodView(c, None, V) && c.write.NoWrite? && n !in c.mems && c.mem < n
    requires c' == c.(mems := c.mems[n := iset{}], mem := n)
    ensures GoodView(c', Some(c.mem), V)
  {
    assert ViewContent(iset{}, c.mems[c.mem], V) == ViewContent(c.mems[c.mem], iset{}, V);
    assert ImmOf(c'.mems, Some(c.mem)) == c.mems[c.mem];
  }

  lemma SwitchReaderOk(c: Core, c': Core, n: nat, r: Reader)
    requires ReaderOk(c, r) && c.write.NoWrite? && n !in c.mems && c.mem < n
    requires c' == c.(mems := c.mems[n := iset{}], mem := n)
    ensures ReaderOk(c', r)
  {
    assert ImmOf(c'.mems, r.imm) == ImmOf(c.mems, r.imm);
  }

  lemma SwitchLogInv(s: State, s': State)
    requires LogInv(s) && IsSwitchMem(s, s')
    ensures LogInv(s')
  {
    var c, c' := s.core, s'.core;
    assert MemLogOk(c', s'.logs) by {
      assert LogContent([]) == iset{};
    }
    assert ImmLogOk(c', c.mem, s'.logs, s'.doomedLogs);
    assert LogFilesOk(s'.logs, s'.nextFile);
    assert Accounted(c', Some(c.mem), s.manifest.lastSequence);
  }

  lemma SwitchMemInv(s: State, s': State)
    requires Inv(s) && IsSwitchMem(s, s')
    ensures Inv(s')
  {
    var c, c' := s.core, s'.core;
    assert DurableImm(s.imm, s.manifest.logNumber) == None;
    SwitchGoodView(c, c', s.nextFile, s.version);
    SwitchGoodView(c, c', s.nextFile, s.manifest.version);
    assert ReadersInv(c', s.readers) by {
      forall r | r in s.readers ensures ReaderOk(c', r) {
        SwitchReaderOk(c, c', s.nextFile, r);
      }
    }
    SwitchLogInv(s, s');
    SwitchDurable(s, s');
  }

  lemma SnapshotInv(s: State, s': State)
    requires Inv(s) && IsTakeSnapshot(s, s')
    ensures Inv(s')
  {
  }

  lemma ReleaseInv(s: State, s': State, x: nat)
    requires Inv(s) && IsReleaseSnapshot(s, s', x)
    ensures Inv(s')
  {
  }

  lemma BeginReadInv(s: State, s': State, r: Reader)
    requires Inv(s) && IsBeginRead(s, s', r)
    ensures Inv(s')
  {
  }

  lemma EndReadInv(s: State, s': State, r: Reader)
    requires Inv(s) && IsEndRead(s, s', r)
    ensures Inv(s')
  {
  }

  /** Writing a table under a fresh number disturbs nothing on disk. */
  lemma NewTableDisk(s: State, s': State, f: File)
    requires DiskInv(s) && f.number == s.nextFile
    requires s' == s.(nextFile := s.nextFile + 1, pending := s.pending + {f.number},
                      tables := s.tables[f.number := f.entries], phase := s'.phase)
    requires s.phase.Idle? || s.phase.Compacting?
    requires !s'.phase.Installing? && FlushTableOk(s')
    ensures DiskInv(s')
  {
    assert forall V :: OnDisk(s.tables, s.doomedTables, V) ==> OnDisk(s'.tables, s'.doomedTables, V);
    assert f.number !in Numbers(s.version) by {
      forall p | p in s.version ensures p.file.number < s.nextFile {
        assert TableThere(s.tables, s.doomedTables, p.file);
      }
    }
  }

  lemma BuildOutputInv(s: State, s': State, f: File)
    requires Inv(s) && IsBuildOutput(s, s', f)
    ensures Inv(s')
  {
    NewTableDisk(s, s', f);
  }

  lemma GcMarkInv(s: State, s': State)
    requires Inv(s) && IsGcMark(s, s')
    ensures Inv(s')
  {
  }

  lemma GcTableDisk(s: State, s': State, n: nat)
    requires DiskInv(s) && IsGcTable(s, s', n)
    ensures DiskInv(s')
  {
    assert forall V :: OnDisk(s.tables, s.doomedTables, V) ==> OnDisk(s'.tables, s'.doomedTables, V);
  }

  lemma GcTableInv(s: State, s': State, n: nat)
    requires Inv(s) && IsGcTable(s, s', n)
    ensures Inv(s')
  {
    GcTableDisk(s, s', n);
  }

  lemma GcLogInv(s: State, s': State, n: nat)
    requires Inv(s) && IsGcLog(s, s', n)
    ensures Inv(s')
  {
    hide ViewOk, SameReads, TreeOk, JobOk, FlushedOk, LogContent, RecordsOk, TableThere, OnDisk, HistoryOk, WriteOk;
    hide Content, Inserted, GoodView, ReaderOk;
    assert n < s.manifest.logNumber;
    assert AnchorOf(s') == AnchorOf(s);
  }

  // --- flush ---------------------------------------------------------------------------------

  lemma FlushBuildInv(s: State, s': State, table: Option<File>)
    requires Inv(s) && IsFlushBuild(s, s', table)
    ensures Inv(s')
  {
    if table.Some? {
      forall p | p in s.version ensures p.file.number < s.nextFile {
        assert TableThere(s.tables, s.doomedTables, p.file);
      }
      NewTableDisk(s, s', table.value);
    }
  }

  /** Moving the immutable memtable's entries into a version leaves what a reader sees unchanged. */
  lemma FlushGoodView(c: Core, imm: Option<nat>, V: set<Placed>, table: Option<File>, level: nat)
    requires GoodView(c, imm, V) && FilesOk(V)
    requires table.None? ==> ImmOf(c.mems, imm) == iset{}
    requires table.Some? ==> Has(table.value) == ImmOf(c.mems, imm) && FlushOk(V, Placed(level, table.value))
    ensures GoodView(c, None, Flushed(V, table, level))
  {
    var V' := Flushed(V, table, level);
    var M, I := c.mems[c.mem], ImmOf(c.mems, imm);
    if table.Some? {
      var P := Placed(level, table.value);
      FlushKeepsTree(V, P);
      AddContent(V, P);
    }
    assert Content(V') == I + Content(V);
    assert ViewContent(M, iset{}, V') == ViewContent(M, I, V);
  }

  lemma AddContent(V: set<Placed>, P: Placed)
    ensures Content(V + {P}) == Content(V) + Has(P.file)
  {
    forall e ensures e in Content(V + {P}) <==> e in Content(V) || e in P.file.entries {
      if e in Content(V) {
        var q :| q in V && e in q.file.entries;
        InContent(V + {P}, q, e);
      }
      if e in P.file.entries {
        InContent(V + {P}, P, e);
      }
    }
  }

  /** The flushed table meets the conditions of FlushKeepsTree. */
  lemma FlushTableFits(s: State, level: nat)
    requires GoodView(s.core, s.imm, s.version) && FlushTableOk(s)
    requires s.phase.Flushing? && s.phase.table.Some? && FilesOk(s.version)
    requires FileOk(s.phase.table.value) && PlaceOk(s.version, Placed(level, s.phase.table.value))
    ensures FlushOk(s.version, Placed(level, s.phase.table.value))
  {
    var f := s.phase.table.value;
    forall q | q in s.version ensures q.file.number < f.number {
      assert q.file.number in Numbers(s.version);
    }
    var c := s.core;
    assert Newer(c.mems[c.mem] + ImmOf(c.mems, s.imm), Content(s.version));
    assert Newer(Has(f), Content(s.version));
  }

  lemma FlushDiskInv(s: State, s': State, level: nat)
    requires DiskInv(s) && IsFlushCommit(s, s', level)
    ensures DiskInv(s')
  {
    var V' := s'.manifest.version;
    forall p | p in V'
      ensures TableThere(s'.tables, s'.doomedTables, p.file)
      ensures p.file.number < s'.nextFile && p.file.number !in s'.pending
    {
      if p in s.version {
        assert TableThere(s.tables, s.doomedTables, p.file);
        assert p.file.number in Numbers(s.version);
      }
    }
  }

  lemma FlushLogInv(s: State, s': State, level: nat)
    requires SequenceInv(s.core, s.snapshots) && LogInv(s) && FlushTableOk(s) && IsFlushCommit(s, s', level)
    requires Named(s.core.mems, s.core.mem, s.imm)
    ensures LogInv(s')
  {
  }

  lemma ViewFacts(c: Core, imm: Option<nat>, V: set<Placed>)
    requires GoodView(c, imm, V)
    ensures Named(c.mems, c.mem, imm) && TreeOk(V) && FilesOk(V)
  {
  }

  /** What a job drops stays unseen when the immutable memtable moves into the version. */
  lemma FlushKeepsUnseen(V: set<Placed>, job: Job, V': set<Placed>, S: iset<Entry>, S': iset<Entry>, M: iset<Entry>,
                         I: iset<Entry>)
    requires FilesOk(job.base) && job.inputs <= V && DropsUnseen(V, S, job) && Content(V') == I + Content(V)
    requires Newer(M + I, Content(V)) && Unique(M + I + Content(V)) && S <= S' + I && S' <= M
    ensures DropsUnseen(V', S', job)
  {
    var A, B, U := Content(V), Content(V) - Drops(job), S' + I;
    SubsetUnique(U + A, M + I + A);
    SubsetUnique(U + B, M + I + A);
    LayerReads(S, U, A, B, job.floor, MAX_SEQUENCE);
    forall d | d in Drops(job) ensures d !in I {
      InputContent(V, job, d);
      assert !Later(d, d);
    }
    assert U + A == S' + Content(V') && U + B == S' + (Content(V') - Drops(job));
  }

  /** A running compaction survives the flush. */
  lemma FlushJobInv(s: State, s': State, level: nat, S: iset<Entry>, S': iset<Entry>)
    requires GoodView(s.core, s.imm, s.version) && FilesOk(s.version) && IsFlushCommit(s, s', level) && FlushTableOk(s)
    requires SequenceInv(s.core, s.snapshots)
    requires JobInv(s.phase.resume, s.version, S, s.core.lastSequence, s.snapshots)
    requires s.phase.table.Some? ==> FlushOk(s.version, Placed(level, s.phase.table.value))
    requires S <= S' + ImmOf(s.core.mems, s.imm) && S' <= s.core.mems[s.core.mem]
    ensures JobInv(s.phase.resume, s'.manifest.version, S', s.core.lastSequence, s.snapshots)
  {
    var c, V, V' := s.core, s.version, s'.manifest.version;
    if s.phase.resume.Some? {
      var job := s.phase.resume.value;
      var M, I := c.mems[c.mem], ImmOf(c.mems, s.imm);
      FlushedFits(s, s', level, job);
      FlushedContent(s, s', level);
      StoreUnique(c, s.snapshots, ViewContent(M, I, V));
      hide Fits, DropsUnseen, FlushOk, TreeOk, Content, FilesOk, IsFlushCommit;
      FlushKeepsUnseen(V, job, V', S, S', M, I);
    }
  }

  lemma FlushedFits(s: State, s': State, level: nat, job: Job)
    requires TreeOk(s.version) && FilesOk(s.version) && IsFlushCommit(s, s', level) && s.phase.resume == Some(job)
    requires s.phase.table.Some? ==> FlushOk(s.version, Placed(level, s.phase.table.value))
    requires Fits(s.version, job)
    ensures FilesOk(s'.manifest.version) && Fits(s'.manifest.version, job) && job.inputs <= s.version
  {
    if s.phase.table.Some? {
      FlushKeepsFits(s.version, job, Placed(level, s.phase.table.value));
    }
  }

  lemma FlushedContent(s: State, s': State, level: nat)
    requires IsFlushCommit(s, s', level) && FlushTableOk(s)
    ensures Content(s'.manifest.version) == ImmOf(s.core.mems, s.imm) + Content(s.version)
  {
    if s.phase.table.Some? {
      AddContent(s.version, Placed(level, s.phase.table.value));
    }
  }

  /** The flushed memtable's safe part is no longer needed; the current one's is as it was. */
  lemma FlushAnchor(s: State, s': State, level: nat)
    requires IsFlushCommit(s, s', level) && s.core.mem in s.core.mems
    requires ImmOfState(s) == s.imm && ImmOfState(s') == None
    ensures AnchorOf(s) <= AnchorOf(s') + ImmOf(s.core.mems, s.imm) && AnchorOf(s') <= s.core.mems[s.core.mem]
  {
  }

  lemma FlushDurable(s: State, s': State, level: nat)
    requires DurableInv(s) && IsFlushCommit(s, s', level) && SequenceInv(s.core, s.snapshots) && FlushTableOk(s)
    requires GoodView(s.core, s.imm, s.version) && s.manifest.version == s.version
    requires ImmOfState(s) == s.imm && ImmOfState(s') == None
    ensures DurableInv(s')
  {
    var c := s.core;
    var M, I, V, V' := c.mems[c.mem], ImmOf(c.mems, s.imm), s.version, s'.manifest.version;
    FlushedContent(s, s', level);
    OnlyCommitted(c, s.imm, AnchorOf(s), V);
    AllUnique(c, s.snapshots, ViewContent(M, I, V));
    FlushAnchor(s, s', level);
    FlushFlushed(c.history, M, I, AnchorOf(s), AnchorOf(s'), V, V');
    assert FlushedInv(s'.core, None, AnchorOf(s'), V');
  }

  lemma FlushCommitInv(s: State, s': State, level: nat)
    requires Inv(s) && IsFlushCommit(s, s', level)
    ensures Inv(s')
  {
    hide GoodView, ReadersInv, JobInv, FlushOk, TreeOk, DurableInv, Clear, SequenceInv;
    assert s.core.mem in s.core.mems by {
      ViewFacts(s.core, s.imm, s.version);
    }
    ViewFacts(s.core, s.imm, s.version);
    if s.phase.table.Some? {
      FlushTableFits(s, level);
    }
    FlushGoodView(s.core, s.imm, s.version, s.phase.table, level);
    FlushDiskInv(s, s', level);
    FlushLogInv(s, s', level);
    assert ImmOfState(s) == s.imm && ImmOfState(s') == None;
    FlushAnchor(s, s', level);
    FlushJobInv(s, s', level, AnchorOf(s), AnchorOf(s'));
    FlushDurable(s, s', level);
  }

  // --- compaction ------------------------------------------------------------------------------

  lemma CompactStartInv(s: State, s': State, job: Job, range: Range)
    requires Inv(s) && IsCompactStart(s, s', job, range)
    ensures Inv(s')
  {
    var c, S := s.core, AnchorOf(s);
    assert FloorOk(job, c.lastSequence, s.snapshots) && ImmOfState(s) == s.imm && s.manifest.version == s.version;
    AnchorIsInMems(s);
    hide DiskInv, LogInv, DurableInv, ReadersInv, AnchorOf;
    StartedJobOk(s, S, job, range);
    hide GoodView, JobOk, NoneReturns, Chosen, FilesOk;
    CompactStartRest(s, s', job, range);
  }

  lemma StartedJobOk(s: State, S: iset<Entry>, job: Job, range: Range)
    requires SequenceInv(s.core, s.snapshots) && GoodView(s.core, s.imm, s.version) && FilesOk(s.version)
    requires S <= s.core.mems[s.core.mem] + ImmOf(s.core.mems, s.imm)
    requires job.base == s.version && Chosen(s.version, job, range) && NoneReturns(s.version, S, job)
    requires job.floor <= s.core.lastSequence
    ensures JobOk(s.version, S, job)
  {
    var c, V := s.core, s.version;
    var M, I := c.mems[c.mem], ImmOf(c.mems, s.imm);
    StoreUnique(c, s.snapshots, ViewContent(M, I, V));
    SubsetUnique(S + Content(V), ViewContent(M, I, V));
    ChosenFits(V, job, range);
    DropsUnseenExact(V, S, job, range);
  }

  lemma CompactStartRest(s: State, s': State, job: Job, range: Range)
    requires DiskInv(s) && LogInv(s) && DurableInv(s) && IsCompactStart(s, s', job, range)
    ensures DiskInv(s') && LogInv(s') && DurableInv(s') && AnchorOf(s') == AnchorOf(s)
  {
  }

  lemma StoreUnique(c: Core, snapshots: multiset<nat>, S: iset<Entry>)
    requires SequenceInv(c, snapshots) && AllInserted(c, S)
    ensures Unique(S)
  {
    if c.write.Writing? {
      GroupUnique(c, snapshots);
    }
  }

  lemma CompactGoodView(c: Core, c': Core, snapshots: multiset<nat>, imm: Option<nat>, V: set<Placed>, S: iset<Entry>,
                        job: Job, O: set<Placed>)
    requires SequenceInv(c, snapshots) && GoodView(c, imm, V) && JobOk(V, S, job)
    requires S <= c.mems[c.mem] + ImmOf(c.mems, imm)
    requires FloorOk(job, c.lastSequence, snapshots)
    requires OutputsOk(job, O) && FreshNumbers(V - job.inputs, O)
    requires c' == c.(floor := if c.floor < job.floor then job.floor else c.floor)
    ensures GoodView(c', imm, V) && GoodView(c', imm, V - job.inputs + O)
  {
    var M, I := c.mems[c.mem], ImmOf(c.mems, imm);
    var V' := V - job.inputs + O;
    StoreUnique(c, snapshots, ViewContent(M, I, V));
    InstallKeepsTree(V, job, O);
    InstalledContent(V, job, O);
    UnseenUnderMore(V, S, M + I, job);
    SameReadsTrans(ViewContent(M, I, V'), ViewContent(M, I, V), c.history, job.floor, c.floor, c.lastSequence);
  }

  lemma CompactDurable(s: State, s': State, outputs: set<Placed>)
    requires DurableInv(s) && IsCompactCommit(s, s', outputs) && s.manifest.version == s.version
    requires s.manifest.logNumber == s.logNumber
    requires TreeOk(s.version) && JobOk(s.version, AnchorOf(s), s.phase.job) && s.phase.job.floor <= MAX_SEQUENCE
    ensures DurableInv(s')
  {
    var c, job, V, V', S := s.core, s.phase.job, s.version, s'.manifest.version, AnchorOf(s);
    InstalledContent(V, job, outputs);
    assert SameReads(S + Content(V'), S + Content(V), MAX_SEQUENCE, MAX_SEQUENCE);
    var imm := ImmOfState(s);
    var F := FlushedPart(c.history, c.mems[c.mem], ImmOf(c.mems, imm));
    SameReadsTrans(S + Content(V'), S + Content(V), S + F, MAX_SEQUENCE, MAX_SEQUENCE, MAX_SEQUENCE);
    assert AnchorOf(s') == S;
    assert FlushedInv(s'.core, imm, S, V');
  }

  lemma CompactDiskInv(s: State, s': State, outputs: set<Placed>)
    requires DiskInv(s) && IsCompactCommit(s, s', outputs)
    ensures DiskInv(s')
  {
    var V' := s'.manifest.version;
    forall p | p in V' ensures TableThere(s'.tables, s'.doomedTables, p.file) && p.file.number < s'.nextFile {
      if p in s.version {
        assert TableThere(s.tables, s.doomedTables, p.file);
      }
    }
  }

  lemma OutputsAreFresh(s: State, outputs: set<Placed>)
    requires DiskInv(s) && forall o :: o in outputs ==> o.file.number in s.pending
    ensures FreshNumbers(s.version, outputs)
  {
    forall g, o | g in s.version && o in outputs ensures g.file.number != o.file.number {
      assert g.file.number in Numbers(s.version);
    }
  }

  lemma CompactReaderOk(c: Core, c': Core, r: Reader)
    requires ReaderOk(c, r) && c' == c.(floor := c'.floor)
    ensures ReaderOk(c', r)
  {
  }

  lemma CompactCommitInv(s: State, s': State, outputs: set<Placed>)
    requires Inv(s) && IsCompactCommit(s, s', outputs)
    ensures Inv(s')
  {
    var c, c', job := s.core, s'.core, s.phase.job;
    OutputsAreFresh(s, outputs);
    assert DurableImm(s.imm, s.manifest.logNumber) == s.imm;
    AnchorIsInMems(s);
    CompactGoodView(c, c', s.snapshots, s.imm, s.version, AnchorOf(s), job, outputs);
    assert SequenceInv(c', s.snapshots);
    assert ReadersInv(c', s.readers) by {
      forall r | r in s.readers ensures ReaderOk(c', r) {
        CompactReaderOk(c, c', r);
      }
    }
    CompactDiskInv(s, s', outputs);
    CompactLogInv(s, s');
    CompactDurable(s, s', outputs);
  }

  /** A manifest record that keeps the log number keeps the log invariant. */
  lemma CompactLogInv(s: State, s': State)
    requires LogInv(s) && SequenceInv(s.core, s.snapshots) && !s.phase.Installing?
    requires s.manifest.logNumber == s.logNumber
    requires s' == s.(core := s.core.(floor := s'.core.floor), phase := Installing(false, None),
                      manifest := s'.manifest)
    requires s'.manifest.logNumber == s.logNumber && s'.manifest.lastSequence == s.core.lastSequence
    ensures LogInv(s')
  {
    var c, c' := s.core, s'.core;
    assert MemLogOk(c', s'.logs);
    assert LogsNeeded(c', s'.imm, s'.logs, s'.manifest.logNumber);
  }

  lemma MoveCommitInv(s: State, s': State, f: File)
    requires Inv(s) && IsMoveCommit(s, s', f)
    ensures Inv(s')
  {
    hide GoodView, ReadersInv, DropsUnseen, DurableInv;
    assert DurableImm(s.imm, s.manifest.logNumber) == s.imm;
    assert DurableImm(s'.imm, s'.manifest.logNumber) == s'.imm;
    MoveGoodView(s'.core, s'.imm, s.version, s.phase.job, f, s'.manifest.version);
    MoveDiskInv(s, s', f);
    CompactLogInv(s, s');
    MoveDurable(s, s', f);
    assert JobOfPhase(s'.phase) == None;
  }

  lemma MoveGoodView(c: Core, imm: Option<nat>, V: set<Placed>, job: Job, f: File, V': set<Placed>)
    requires GoodView(c, imm, V) && Fits(V, job) && job.inputs == {Placed(job.level, f)}
    requires V' == V - job.inputs + {Placed(job.level + 1, f)}
    ensures GoodView(c, imm, V')
  {
    MoveKeepsTree(V, job, f);
  }

  lemma MoveDurable(s: State, s': State, f: File)
    requires DurableInv(s) && IsMoveCommit(s, s', f) && s.manifest.version == s.version
    requires s.manifest.logNumber == s.logNumber
    requires GoodView(s.core, s.imm, s.version) && FilesOk(s.version) && Fits(s.version, s.phase.job)
    ensures DurableInv(s')
  {
    hide TreeOk, FilesOk, Fits, SameReads, SafePart, SolidPart, LogContent, ViewOk, Content;
    GoodViewTree(s.core, s.imm, s.version);
    MoveKeepsTree(s.version, s.phase.job, f);
  }

  lemma GoodViewTree(c: Core, imm: Option<nat>, V: set<Placed>)
    requires GoodView(c, imm, V)
    ensures TreeOk(V)
  {
  }

  lemma MoveDiskInv(s: State, s': State, f: File)
    requires DiskInv(s) && IsMoveCommit(s, s', f) && Placed(s.phase.job.level, f) in s.version
    ensures DiskInv(s')
  {
    var V' := s'.manifest.version;
    forall p | p in V' ensures TableThere(s'.tables, s'.doomedTables, p.file) && p.file.number < s'.nextFile {
      var q := if p in s.version then p else Placed(s.phase.job.level, f);
      assert q in s.version && q.file == p.file;
      assert TableThere(s.tables, s.doomedTables, q.file);
    }
  }

  lemma InstallInv(s: State, s': State)
    requires Inv(s) && IsInstallVersion(s, s')
    ensures Inv(s')
  {
  }
}
