/** What a crash would leave, through every step of the running engine. */
module EngineDurable {
  import opened Keys
  import opened Spec
  import opened Versions
  import opened Install
  import opened Exactness
  import opened Engine
  import opened EngineSteps

  // --- more of the memtables is safe ---------------------------------------------------------

  lemma UnseenUnderMore(V: set<Placed>, S: iset<Entry>, U: iset<Entry>, job: Job)
    requires FilesOk(job.base) && DropsUnseen(V, S, job) && S <= U && Newer(U, Content(V)) && Unique(U + Content(V))
    ensures DropsUnseen(V, U, job)
  {
    SubsetUnique(U + (Content(V) - Drops(job)), U + Content(V));
    LayerReads(S, U, Content(V), Content(V) - Drops(job), job.floor, MAX_SEQUENCE);
  }

  lemma FlushedUnderMore(H: iset<Entry>, M: iset<Entry>, I: iset<Entry>, S: iset<Entry>, U: iset<Entry>, V: set<Placed>)
    requires FlushedOk(H, M, I, S, V) && S <= U <= M + I && Newer(M + I, Content(V))
    requires Unique(U + Content(V)) && Unique(U + FlushedPart(H, M, I))
    ensures FlushedOk(H, M, I, U, V)
  {
    var F := FlushedPart(H, M, I);
    LayerReads(S, U, Content(V), F, MAX_SEQUENCE, MAX_SEQUENCE);
  }

  /** What the invariant says about the safe part of the memtables. */
  ghost predicate Anchored(c: Core, imm: Option<nat>, S: iset<Entry>, V: set<Placed>, job: Option<Job>) {
    && FlushedInv(c, imm, S, V)
    && (job.Some? ==> JobOk(V, S, job.value))
  }

  /** More of the memtables became safe. */
  lemma AnchorGrows(c: Core, imm: Option<nat>, S: iset<Entry>, U: iset<Entry>, V: set<Placed>, job: Option<Job>)
    requires Anchored(c, imm, S, V, job) && S <= U && GoodView(c, imm, V)
    requires U <= c.mems[c.mem] + ImmOf(c.mems, imm)
    requires Unique(ViewContent(c.mems[c.mem], ImmOf(c.mems, imm), V) + c.history)
    ensures Anchored(c, imm, U, V, job)
  {
    hide DropsUnseen, Fits, FilesOk;
    var M, I := c.mems[c.mem], ImmOf(c.mems, imm);
    var all := ViewContent(M, I, V) + c.history;
    SubsetUnique(U + Content(V), all);
    SubsetUnique(U + FlushedPart(c.history, M, I), all);
    FlushedUnderMore(c.history, M, I, S, U, V);
    if job.Some? {
      UnseenUnderMore(V, S, U, job.value);
    }
  }

  lemma AnchorBounds(c: Core, imm: Option<nat>, logs: map<nat, seq<seq<Entry>>>, safe: map<nat, nat>)
    requires c.mem in c.mems
    ensures Anchor(c, imm, logs, safe) <= c.mems[c.mem] + ImmOf(c.mems, imm)
  {
  }

  // --- logs --------------------------------------------------------------------------------------

  lemma WholeIsSafe(logs: map<nat, seq<seq<Entry>>>, safe: map<nat, nat>, n: nat)
    requires n in logs && n in safe && safe[n] == |logs[n]|
    ensures SafePart(logs, safe, n) == LogContent(logs[n])
  {
    assert logs[n][..safe[n]] == logs[n];
  }

  lemma PrefixHolds(log: seq<seq<Entry>>, k: nat, m: nat)
    requires k <= m <= |log|
    ensures LogContent(log[..k]) <= LogContent(log[..m]) <= LogContent(log)
  {
    forall e | InRecord(log[..k], e) ensures InRecord(log[..m], e) {
      var i :| 0 <= i < k && e in log[..k][i];
      assert e in log[..m][i];
    }
    forall e | InRecord(log[..m], e) ensures InRecord(log, e) {
      var i :| 0 <= i < m && e in log[..m][i];
      assert e in log[i];
    }
  }

  /** The log grew at the end: its synced part is still the same, and nothing old is newly solid. */
  lemma LogGrew(logs: map<nat, seq<seq<Entry>>>, logs': map<nat, seq<seq<Entry>>>, safe: map<nat, nat>,
                torn: map<nat, nat>, n: nat, rec: seq<Entry>)
    requires n in logs && n in safe && safe[n] <= |logs[n]| && logs' == logs[n := logs[n] + [rec]]
    requires n in torn ==> torn[n] <= |logs[n]|
    ensures forall m :: SafePart(logs', safe, m) == SafePart(logs, safe, m)
    ensures forall m :: SolidPart(logs', torn, m) <= SolidPart(logs, torn, m) + Elements(rec)
  {
    var log, log' := logs[n], logs'[n];
    assert log'[..safe[n]] == log[..safe[n]];
    var k, k' := Solid(torn, n, log), Solid(torn, n, log');
    forall e | InRecord(log'[..k'], e) ensures InRecord(log[..k], e) || e in rec {
      var i :| 0 <= i < k' && e in log'[..k'][i];
      assert i < |log| ==> e in log[..k][i];
    }
  }

  // --- writes ---------------------------------------------------------------------------------------

  ghost function ImmOfState(s: State): Option<nat> {
    DurableImm(s.imm, s.manifest.logNumber)
  }

  lemma LogWriteDurable(s: State, s': State)
    requires DurableInv(s) && IsLogWrite(s, s') && SequenceInv(s.core, s.snapshots)
    requires ImmOfState(s).Some? ==> ImmOfState(s).value in s.logs && ImmOfState(s).value != s.core.mem
    ensures DurableInv(s') && AnchorOf(s') == AnchorOf(s)
  {
    var c, rec := s.core, s.core.write.inserted + s.core.write.rest;
    LogGrew(s.logs, s'.logs, s.safe, s.torn, c.mem, rec);
    assert rec == c.write.rest && Numbered(rec, c.lastSequence);
    assert forall e :: e in c.history ==> e !in rec;
    assert SyncedOk(s'.core, ImmOfState(s'), s'.logs, s'.safe, s'.torn);
    assert SafeLogs(s'.logs, s'.safe, s'.torn);
  }

  lemma SyncLogSafe(s: State, s': State)
    requires DurableInv(s) && IsSyncLog(s, s') && MemLogOk(s.core, s.logs)
    requires ImmOfState(s).Some? ==> ImmOfState(s).value != s.core.mem
    ensures SafeLogs(s'.logs, s'.safe, s'.torn) && SyncedOk(s'.core, ImmOfState(s'), s'.logs, s'.safe, s'.torn)
    ensures GroupSynced(s'.core, s'.logs, s'.safe, s'.torn) && AnchorOf(s) <= AnchorOf(s')
  {
    var c := s.core;
    var log, k := s.logs[c.mem], Solid(s.torn, c.mem, s.logs[c.mem]);
    PrefixHolds(log, s.safe[c.mem], k);
    assert forall m :: m != c.mem ==> SafePart(s'.logs, s'.safe, m) == SafePart(s.logs, s.safe, m);
    assert SafePart(s'.logs, s'.safe, c.mem) == LogContent(log[..k]);
  }

  lemma InsertFlushed(s: State, s': State)
    requires DurableInv(s) && IsInsertOne(s, s') && SequenceInv(s.core, s.snapshots)
    requires GoodView(s.core, ImmOfState(s), s.manifest.version)
    ensures FlushedInv(s'.core, ImmOfState(s'), AnchorOf(s), s'.manifest.version)
  {
    var c, c', e := s.core, s'.core, s.core.write.rest[0];
    var imm, V := ImmOfState(s), s.manifest.version;
    var M, I := c.mems[c.mem], ImmOf(c.mems, imm);
    assert ImmOf(c'.mems, imm) == I && c'.mems[c'.mem] == M + iset{e};
    assert FlushedPart(c.history, M + iset{e}, I) == FlushedPart(c.history, M, I);
    forall x | x in I ensures Later(e, x) {
      assert x in ViewContent(M, I, V) && Inserted(c, x);
    }
  }

  lemma InsertSafe(s: State, s': State)
    requires DurableInv(s) && IsInsertOne(s, s') && SequenceInv(s.core, s.snapshots)
    requires Named(s.core.mems, s.core.mem, ImmOfState(s))
    ensures SyncedOk(s'.core, ImmOfState(s'), s'.logs, s'.safe, s'.torn) && AnchorOf(s) <= AnchorOf(s')
    ensures GroupSynced(s'.core, s'.logs, s'.safe, s'.torn) && GroupLogged(s'.core, s'.logs)
  {
    var c, c', e := s.core, s'.core, s.core.write.rest[0];
    assert ImmOf(c'.mems, ImmOfState(s)) == ImmOf(c.mems, ImmOfState(s));
    assert e !in c.history;
    assert c.write.inserted + c.write.rest == c'.write.inserted + c'.write.rest;
  }

  lemma CommitFlushed(c: Core, c': Core, imm: Option<nat>, S: iset<Entry>, V: set<Placed>)
    requires FlushedInv(c, imm, S, V) && GroupInMem(c) && c.write.Writing?
    requires c'.mems == c.mems && c'.mem == c.mem && c'.history == c.history + Elements(c.write.inserted)
    ensures FlushedInv(c', imm, S, V)
  {
    var M, I := c.mems[c.mem], ImmOf(c.mems, imm);
    assert FlushedPart(c'.history, M, I) == FlushedPart(c.history, M, I);
  }

  /** The group's record is the last of its log, behind a failed append if there was one. */
  lemma GroupNotSolid(c: Core, snapshots: multiset<nat>, logs: map<nat, seq<seq<Entry>>>, torn: map<nat, nat>, e: Entry)
    requires SequenceInv(c, snapshots) && GroupLogged(c, logs) && TornBefore(c, logs, torn) && c.mem in logs
    requires RecordsOk(logs[c.mem]) && c.write.Writing? && c.write.logged && c.mem in torn && e in c.write.inserted
    ensures e !in SolidPart(logs, torn, c.mem)
  {
    var log := logs[c.mem];
    var n := |log| - 1;
    assert e in log[n];
    forall i | 0 <= i < Solid(torn, c.mem, log) ensures e !in log[..Solid(torn, c.mem, log)][i] {
      assert AllLater(log[i], log[n]);
    }
  }

  lemma CommitSynced(s: State, s': State)
    requires DurableInv(s) && IsEndWrite(s, s') && LogInv(s) && GroupInMem(s.core) && SequenceInv(s.core, s.snapshots)
    ensures SyncedOk(s'.core, ImmOfState(s'), s'.logs, s'.safe, s'.torn)
  {
    var c, imm := s.core, ImmOfState(s);
    var N := Elements(c.write.inserted);
    forall e | e in N ensures e in c.mems[c.mem] && e !in ImmOf(c.mems, imm) {
      assert !Later(e, e);
    }
    if c.write.sync && c.write.inserted != [] {
      if c.mem in s.torn {
        forall e | e in N ensures e !in SolidPart(s.logs, s.torn, c.mem) {
          GroupNotSolid(c, s.snapshots, s.logs, s.torn, e);
        }
      } else {
        WholeIsSafe(s.logs, s.safe, c.mem);
      }
    }
  }

  lemma CommitDurable(s: State, s': State)
    requires DurableInv(s) && IsEndWrite(s, s') && LogInv(s) && GroupInMem(s.core) && SequenceInv(s.core, s.snapshots)
    ensures DurableInv(s') && AnchorOf(s') == AnchorOf(s)
  {
    CommitFlushed(s.core, s'.core, ImmOfState(s), AnchorOf(s), s.manifest.version);
    CommitSynced(s, s');
  }

  lemma FailDurable(s: State, s': State)
    requires DurableInv(s) && IsFailWrite(s, s')
    ensures DurableInv(s') && AnchorOf(s') == AnchorOf(s)
  {
    assert forall n :: n in s.logs ==> Solid(s'.torn, n, s.logs[n]) == Solid(s.torn, n, s.logs[n]);
    assert forall n :: SolidPart(s'.logs, s'.torn, n) == SolidPart(s.logs, s.torn, n);
  }

  lemma SwitchParts(s: State, s': State)
    requires DurableInv(s) && IsSwitchMem(s, s') && LogInv(s)
    ensures ImmOfState(s) == None && ImmOfState(s') == Some(s.core.mem) && AnchorOf(s') == AnchorOf(s)
    ensures SafePart(s'.logs, s'.safe, s.core.mem) == SafePart(s.logs, s.safe, s.core.mem)
    ensures SolidPart(s'.logs, s'.torn, s.core.mem) == SolidPart(s.logs, s.torn, s.core.mem)
    ensures ImmOf(s'.core.mems, Some(s.core.mem)) == s.core.mems[s.core.mem] && s'.core.mems[s'.core.mem] == iset{}
  {
  }

  lemma SwitchDurable(s: State, s': State)
    requires DurableInv(s) && IsSwitchMem(s, s') && LogInv(s)
    ensures DurableInv(s') && AnchorOf(s') == AnchorOf(s)
  {
    var c, c' := s.core, s'.core;
    SwitchParts(s, s');
    assert FlushedPart(c.history, iset{}, c.mems[c.mem]) == FlushedPart(c.history, c.mems[c.mem], iset{});
    assert FlushedInv(c', Some(c.mem), AnchorOf(s'), s'.manifest.version);
    assert SafeLogs(s'.logs, s'.safe, s'.torn);
    assert SyncedOk(c', Some(c.mem), s'.logs, s'.safe, s'.torn);
  }

  // --- manifest records ------------------------------------------------------------------

  /** The flushed memtable joins the flushed part of the history, and the version grows by the same operations. */
  lemma FlushFlushed(H: iset<Entry>, M: iset<Entry>, I: iset<Entry>, S: iset<Entry>, S': iset<Entry>, V: set<Placed>,
                     V': set<Placed>)
    requires FlushedOk(H, M, I, S, V) && Content(V') == I + Content(V) && I <= H
    requires Newer(M + I, Content(V)) && S <= S' + I && S' <= M && Unique(M + I + Content(V) + H)
    ensures FlushedOk(H, M, iset{}, S', V')
  {
    var F, all := FlushedPart(H, M, I), M + I + Content(V) + H;
    forall e | e in I ensures e !in M {
      assert !Later(e, e);
    }
    assert FlushedPart(H, M, iset{}) == I + F;
    SubsetUnique(S' + I + F, all);
    SubsetUnique(S' + I + Content(V), all);
    LayerReads(S, S' + I, Content(V), F, MAX_SEQUENCE, MAX_SEQUENCE);
    assert S' + I + Content(V) == S' + Content(V') && S' + I + F == S' + (I + F);
  }

  /** Nothing in the immutable memtable or the version belongs to the group being written. */
  lemma OnlyCommitted(c: Core, imm: Option<nat>, S: iset<Entry>, V: set<Placed>)
    requires GoodView(c, imm, V) && FlushedInv(c, imm, S, V)
    ensures ImmOf(c.mems, imm) <= c.history && Content(V) <= FlushedPart(c.history, c.mems[c.mem], ImmOf(c.mems, imm))
  {
    var M, I := c.mems[c.mem], ImmOf(c.mems, imm);
    forall e | e in I ensures e in c.history {
      assert e in ViewContent(M, I, V) && Inserted(c, e) && !Later(e, e);
    }
    forall e | e in Content(V) ensures e in FlushedPart(c.history, M, I) {
      assert e in ViewContent(M, I, V) && Inserted(c, e) && !Later(e, e);
    }
  }
}
