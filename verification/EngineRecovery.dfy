/** The steps of recovery keep the engine's invariant. */
module EngineRecovery {
  import opened Keys
  import opened Spec
  import opened Versions
  import opened Selection
  import opened Install
  import opened Engine
  import opened EngineSteps
  import opened EngineDurable
  import opened EngineCrash

  lemma RecoverTableInv(s: State, s': State, n: nat, es: seq<Entry>)
    requires Inv(s) && IsRecoverTable(s, s', n, es)
    ensures Inv(s')
  {
    forall p | p in s.version ensures TableThere(s'.tables, s'.doomedTables, p.file) {
      assert TableThere(s.tables, s.doomedTables, p.file) && p.file.number in Numbers(s.version);
    }
    assert DiskInv(s');
  }

  lemma RecoverLogInv(s: State, s': State, n: nat)
    requires Inv(s) && IsRecoverLog(s, s', n)
    ensures Inv(s')
  {
    assert n != s.core.mem && Some(n) != s.imm && s.imm == ImmOfState(s);
    hide GoodView, ReadersInv, SequenceInv, LogInv, DurableInv, DiskInv;
    NewLogKeepsLogs(s, s', n);
    NewLogKeepsDurable(s, s', n);
    NewLogKeepsDisk(s, s', n);
  }

  lemma NewLogKeepsLogs(s: State, s': State, n: nat)
    requires LogInv(s) && IsRecoverLog(s, s', n) && n != s.core.mem && Some(n) != s.imm
    ensures LogInv(s')
  {
    hide LogContent, Accounted;
    assert LogFilesOk(s'.logs, s'.nextFile);
  }

  lemma NewLogKeepsDisk(s: State, s': State, n: nat)
    requires DiskInv(s) && IsRecoverLog(s, s', n)
    ensures DiskInv(s')
  {
  }

  lemma NewLogKeepsDurable(s: State, s': State, n: nat)
    requires DurableInv(s) && IsRecoverLog(s, s', n) && n != s.core.mem && Some(n) != s.imm && s.imm == ImmOfState(s)
    ensures DurableInv(s') && AnchorOf(s') == AnchorOf(s)
  {
    var mem, imm := s.core.mem, ImmOfState(s);
    NewLogParts(s, s', n, mem);
    if imm.Some? {
      NewLogParts(s, s', n, imm.value);
    }
    assert SafeLogs(s'.logs, s'.safe, s'.torn);
    hide LogContent, FlushedInv, ImmOf, SafePart, SolidPart, Solid, SafeLogs;
    assert AnchorOf(s') == AnchorOf(s);
  }

  lemma NewLogParts(s: State, s': State, n: nat, m: nat)
    requires IsRecoverLog(s, s', n) && m != n
    ensures SafePart(s'.logs, s'.safe, m) == SafePart(s.logs, s.safe, m)
    ensures SolidPart(s'.logs, s'.torn, m) == SolidPart(s.logs, s.torn, m)
  {
    hide LogContent;
  }

  // --- what the logs hold ---------------------------------------------------------------------

  /** What the needed logs of a dead database hold: its two memtables. */
  ghost function LogUnion(s: State): iset<Entry>
    requires s.core.mem in s.core.mems
  {
    s.core.mems[s.core.mem] + ImmOf(s.core.mems, s.imm)
  }

  /** A dead database in a state some run reaches. */
  ghost predicate DownInv(s: State) {
    && s.phase.Down? && SequenceInv(s.core, s.snapshots) && LogInv(s) && DownOk(s)
    && GoodView(s.core, s.imm, s.version) && s.version == s.manifest.version
    && Below(Numbers(s.manifest.version), s.manifest.nextFile) && OnDisk(s.tables, s.doomedTables, s.manifest.version)
  }

  lemma NeededLogs(s: State, e: Entry)
    requires DownInv(s)
    ensures InNeededLog(s, e) <==> e in LogUnion(s)
  {
    var c := s.core;
    assert InRecord(s.logs[c.mem], e) <==> e in LogContent(s.logs[c.mem]);
    if s.imm.Some? {
      assert ImmLogOk(c, s.imm.value, s.logs, s.doomedLogs);
      assert InRecord(s.logs[s.imm.value], e) <==> e in LogContent(s.logs[s.imm.value]);
    }
    if InNeededLog(s, e) {
      var n :| n in s.logs && n >= s.manifest.logNumber && InRecord(s.logs[n], e);
      assert n == c.mem || Some(n) == s.imm;
    }
    if e in LogUnion(s) {
      var n := if e in LogContent(s.logs[c.mem]) then c.mem else s.imm.value;
      assert n in s.logs && n >= s.manifest.logNumber && InRecord(s.logs[n], e);
    }
  }

  lemma RecoveredHolds(s: State, files: seq<File>, e: Entry)
    ensures e in Content(RecoveredVersion(s, files)) <==> e in Content(s.manifest.version) || InFiles(files, e)
  {
    var V := RecoveredVersion(s, files);
    if e in Content(V) {
      var p :| p in V && e in p.file.entries;
      if p in s.manifest.version {
        InContent(s.manifest.version, p, e);
      } else {
        assert p.file in files;
      }
    }
    if e in Content(s.manifest.version) {
      var p :| p in s.manifest.version && e in p.file.entries;
      InContent(V, p, e);
    }
    if InFiles(files, e) {
      var f :| f in files && e in f.entries;
      InContent(V, Placed(0, f), e);
    }
  }

  /** The recovered version holds what the memtables and the version of the manifest held. */
  lemma RecoveredContent(s: State, files: seq<File>)
    requires DownInv(s) && Rebuilt(s, files)
    ensures Content(RecoveredVersion(s, files))
            == ViewContent(s.core.mems[s.core.mem], ImmOf(s.core.mems, s.imm), s.version)
  {
    forall e ensures e in Content(RecoveredVersion(s, files)) <==> e in Content(s.version) || e in LogUnion(s) {
      NeededLogs(s, e);
      RecoveredHolds(s, files, e);
    }
  }

  /** Everything in the history has a sequence number at most the recovered one. */
  lemma RecoveredBound(s: State, last: nat)
    requires DownInv(s) && RecoveredLast(s, last)
    ensures forall e :: e in s.core.history ==> e.key.seqno <= last
    ensures last < MAX_SEQUENCE
  {
    var c := s.core;
    forall e | e in c.history ensures e.key.seqno <= last {
      NeededLogs(s, e);
    }
    if last != s.manifest.lastSequence {
      var e :| InNeededLog(s, e) && e.key.seqno == last;
      NeededLogs(s, e);
      assert e in ViewContent(c.mems[c.mem], ImmOf(c.mems, s.imm), s.version) && Inserted(c, e);
    }
  }

  // --- the recovered tree -----------------------------------------------------------------

  lemma RebuiltPair(s: State, files: seq<File>, p: Placed, f: File)
    requires DownInv(s) && Rebuilt(s, files) && p in s.manifest.version && f in files
    ensures PairOk(p, Placed(0, f)) && PairOk(Placed(0, f), p)
  {
    assert p.file.number in Numbers(s.manifest.version);
    forall x, y | x in Has(f) && y in Has(p.file) && x.key.user == y.key.user ensures Later(x, y) {
      assert InFiles(files, x);
      NeededLogs(s, x);
      InContent(s.manifest.version, p, y);
      assert Newer(LogUnion(s), Content(s.version));
    }
  }

  lemma RecoveredTree(s: State, files: seq<File>)
    requires DownInv(s) && Rebuilt(s, files)
    ensures TreeOk(RecoveredVersion(s, files))
  {
    var V := RecoveredVersion(s, files);
    assert TreeOk(s.manifest.version);
    forall p, q | p in V && q in V && p != q ensures PairOk(p, q) {
      if p in s.manifest.version && q in s.manifest.version {
      } else if p in s.manifest.version {
        RebuiltPair(s, files, p, q.file);
      } else if q in s.manifest.version {
        RebuiltPair(s, files, q, p.file);
      } else {
        RebuiltTwo(files, s.manifest.nextFile, p.file, q.file);
      }
    }
  }

  lemma RebuiltTwo(files: seq<File>, base: nat, f: File, g: File)
    requires RisingNumbers(files, base) && RisingSequences(files) && f in files && g in files && f != g
    ensures PairOk(Placed(0, f), Placed(0, g))
  {
    var i :| 0 <= i < |files| && files[i] == f;
    var j :| 0 <= j < |files| && files[j] == g;
    assert f.number > g.number ==> j < i;
    assert f.number != g.number;
    if f.number > g.number {
      forall x, y | x in Has(f) && y in Has(g) && x.key.user == y.key.user ensures Later(x, y) {
        assert Newer(Has(files[i]), Has(files[j]));
      }
    }
  }

  // --- the recovered state ------------------------------------------------------------------------

  lemma RecoveredDisk(s: State, s': State, files: seq<File>, log: nat, last: nat)
    requires DownInv(s) && IsRecovered(s, s', files, log, last)
    ensures DiskInv(s')
  {
    forall p | p in s'.version ensures TableThere(s'.tables, {}, p.file) && p.file.number < log {
      assert p.file.number in Numbers(s'.version);
      if p in s.manifest.version {
        assert p.file.number in Numbers(s.manifest.version);
        assert TableThere(s.tables, s.doomedTables, p.file);
      }
    }
    assert Below(Numbers(s'.version), log);
  }

  lemma RecoveredLogs(s: State, s': State, files: seq<File>, log: nat, last: nat)
    requires DownInv(s) && IsRecovered(s, s', files, log, last)
    ensures LogInv(s')
  {
    RecoveredBound(s, last);
    assert LogContent([]) == iset{};
    assert MemLogOk(s'.core, s'.logs);
  }

  lemma RecoveredView(s: State, s': State, files: seq<File>, log: nat, last: nat)
    requires DownInv(s) && IsRecovered(s, s', files, log, last)
    ensures GoodView(s'.core, None, s'.version) && FlushedInv(s'.core, None, iset{}, s'.version)
  {
    var c := s.core;
    RecoveredTree(s, files);
    RecoveredContent(s, files);
    RecoveredBound(s, last);
    FreshView(c, s'.core, ViewContent(c.mems[c.mem], ImmOf(c.mems, s.imm), s.version), s'.version);
  }

  /** With an empty memtable, a version alone is the view. */
  lemma FreshView(c: Core, c': Core, S: iset<Entry>, V: set<Placed>)
    requires c.floor <= c.lastSequence < MAX_SEQUENCE && SameReads(S, c.history, c.floor, c.lastSequence)
    requires AllInserted(c, S) && c.write.NoWrite? && forall e :: e in c.history ==> e.key.seqno <= c.lastSequence
    requires c'.mems == map[c'.mem := iset{}] && c'.write.NoWrite? && c'.history == c.history
    requires c'.floor == c'.lastSequence < MAX_SEQUENCE && forall e :: e in c.history ==> e.key.seqno <= c'.lastSequence
    requires TreeOk(V) && Content(V) == S
    ensures GoodView(c', None, V) && FlushedInv(c', None, iset{}, V)
  {
    forall e | e in S ensures e in c.history {
      assert Inserted(c, e);
    }
    assert ViewContent(iset{}, iset{}, V) == S && FlushedPart(c.history, iset{}, iset{}) == c.history;
    TopReads(S, c.history, c.lastSequence, c'.lastSequence);
    TopReads(S, c.history, c.lastSequence, MAX_SEQUENCE);
    assert iset{} + Content(V) == S && iset{} + c.history == c.history;
  }

  lemma RecoveredInv(s: State, s': State, files: seq<File>, log: nat, last: nat)
    requires Inv(s) && IsRecovered(s, s', files, log, last)
    ensures Inv(s')
  {
    assert DownInv(s);
    RecoveredBound(s, last);
    RecoveredView(s, s', files, log, last);
    RecoveredDisk(s, s', files, log, last);
    RecoveredLogs(s, s', files, log, last);
    assert DurableInv(s);
    hide GoodView, LogInv, DiskInv, FlushedInv, DurableInv, DownInv, Rebuilt, RecoveredLast, IsRecovered;
    RecoveredCore(s, s', files, log, last);
    RecoveredDurable(s, s', files, log, last);
  }

  lemma RecoveredCore(s: State, s': State, files: seq<File>, log: nat, last: nat)
    requires DownInv(s) && IsRecovered(s, s', files, log, last) && last < MAX_SEQUENCE
    requires forall e :: e in s.core.history ==> e.key.seqno <= last
    ensures SequenceInv(s'.core, s'.snapshots) && ImmOfState(s') == None && s'.imm == None && s'.phase.Idle?
    ensures s'.version == s'.manifest.version && ReadersInv(s'.core, s'.readers)
  {
    hide GoodView, LogInv, OnDisk, Rebuilt, RecoveredLast;
  }

  lemma RecoveredDurable(s: State, s': State, files: seq<File>, log: nat, last: nat)
    requires DurableInv(s) && IsRecovered(s, s', files, log, last)
    requires FlushedInv(s'.core, None, iset{}, s'.version)
    ensures DurableInv(s')
  {
    hide FlushedInv, Rebuilt, RecoveredLast, LogContent, RecoveredVersion;
    assert AnchorOf(s') == iset{};
  }
}
