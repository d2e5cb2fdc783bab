/**
 What a crash takes (DBImpl::Write with and without `sync`, DBImpl::Recover): for every
 run, what survives, when what survives is a prefix of the commit order, and what the
 recovered database answers.
 */
module Durability {
  import opened Keys
  import opened Spec
  import opened Versions
  import opened Engine
  import opened EngineSteps
  import opened EngineDurable
  import opened EngineCrash
  import opened EngineMain
  import opened Runs

  // --- synced writes -------------------------------------------------------------------------

  /** `run` continues `past`, through any number of crashes and recoveries. */
  ghost predicate Follows(run: Run, past: Run) {
    run == past || (run.Then? && Follows(run.before, past))
  }

  lemma StepKeepsSynced(s: State, s': State, step: Step)
    requires Next(s, s', step)
    ensures s.core.synced <= s'.core.synced
  {
    hide Rebuilt, RecoveredLast, RecoveredVersion, Keeps, LeftHistory, LeftMems, CutLogs, LiveTable, SyncDone;
  }

  /** An operation acknowledged with `sync` is never lost, whatever happens afterwards. */
  lemma {:induction false} SyncedSurvive(run: Run, past: Run)
    requires IsRun(run) && Follows(run, past)
    ensures past.s.core.synced <= run.s.core.synced <= run.s.core.history
  {
    RunInv(run);
    if run != past {
      SyncedSurvive(run.before, past);
      StepKeepsSynced(run.before.s, run.s, run.step);
    }
  }

  /** The acknowledgement of a write with `sync` makes the whole group such, unless an append to its log failed. */
  lemma SyncedOnCommit(run: Run)
    requires IsRun(run) && run.Then? && run.step.EndWrite? && run.before.s.core.write.sync
    ensures BatchOf(run.before.s.core.write) <= run.s.core.promised
    ensures run.before.s.core.mem !in run.before.s.torn ==> BatchOf(run.before.s.core.write) <= run.s.core.synced
  {
    assert IsEndWrite(run.before.s, run.s);
    hide IsRun;
    var w := run.before.s.core.write;
    assert w.inserted + w.rest == w.inserted;
  }

  /** No append to a log has failed. */
  ghost predicate AllAppended(run: Run) {
    run.Then? ==> AllAppended(run.before) && !run.step.FailWrite?
  }

  /** Then everything acknowledged with `sync` is synced. */
  lemma {:induction false} PromiseKept(run: Run)
    requires IsRun(run) && AllAppended(run)
    ensures run.s.torn == map[] && run.s.core.promised <= run.s.core.synced
  {
    if run.Then? {
      PromiseKept(run.before);
      StepKeepsPromise(run.before.s, run.s, run.step);
    }
  }

  lemma StepKeepsPromise(s: State, s': State, step: Step)
    requires Next(s, s', step) && !step.FailWrite? && s.torn == map[] && s.core.promised <= s.core.synced
    ensures s'.torn == map[] && s'.core.promised <= s'.core.synced
  {
    hide Rebuilt, RecoveredLast, RecoveredVersion, Keeps, LeftHistory, LeftMems, CutLogs, LiveTable, SyncDone;
  }

  // --- what one crash takes --------------------------------------------------------------------

  /** Everything that had reached a log or a table. */
  ghost function Written(s: State): iset<Entry> {
    s.core.history + LoggedAhead(s.core.write)
  }

  /** `S` is `T` up to some point of the commit order. */
  ghost predicate IsPrefix(S: iset<Entry>, T: iset<Entry>) {
    S <= T && forall x, y {:trigger Later(x, y)} :: x in S && y in T && Later(x, y) ==> y in S
  }

  /** All of a record is left, or nothing of it. */
  ghost predicate WholeOrNone(rec: seq<Entry>, S: iset<Entry>) {
    Elements(rec) <= S || Elements(rec) !! S
  }

  /** What is left of a record: all of it or nothing. */
  lemma RecordIsLeft(log: seq<seq<Entry>>, kept: set<nat>, i: nat)
    requires RecordsOk(log) && i < |log|
    ensures i in kept ==> Elements(log[i]) <= LogContent(Kept(log, kept))
    ensures i !in kept ==> Elements(log[i]) !! LogContent(Kept(log, kept))
  {
    KeptContent(log, kept);
    if i !in kept {
      forall e | e in log[i] ensures !InKept(log, kept, e) {
        OnlyHere(log, i, e);
      }
    }
  }

  /** In a log in commit order no operation is in two records. */
  lemma OnlyHere(log: seq<seq<Entry>>, i: nat, e: Entry)
    requires RecordsOk(log) && i < |log| && e in log[i]
    ensures forall j :: 0 <= j < |log| && e in log[j] ==> j == i
  {
    forall j | 0 <= j < |log| && j != i ensures e !in log[j] {
      assert i < j ==> AllLater(log[i], log[j]);
      assert j < i ==> AllLater(log[j], log[i]);
    }
  }

  /** The three parts of what was written, in commit order: flushed, immutable, current. */
  lemma WrittenParts(s: State)
    requires Inv(s)
    ensures var I := ImmOf(s.core.mems, DurableImm(s.imm, s.manifest.logNumber));
      && Written(s) == FlushedHistory(s) + I + LogContent(s.logs[s.core.mem])
      && InOrder(FlushedHistory(s), I) && InOrder(FlushedHistory(s), LogContent(s.logs[s.core.mem]))
      && InOrder(I, LogContent(s.logs[s.core.mem]))
  {
    var c, imm, V := s.core, DurableImm(s.imm, s.manifest.logNumber), s.manifest.version;
    var M, I := c.mems[c.mem], ImmOf(c.mems, imm);
    assert FlushedInv(c, imm, AnchorOf(s), V) && MemLogOk(c, s.logs);
    LoggedIsNewer(c, s.snapshots);
    OnlyCommitted(c, imm, AnchorOf(s), V);
    InsertedIsLogged(c, s.snapshots, ViewContent(M, I, V));
  }

  /** A record of a needed log belongs to the current or to the immutable memtable. */
  lemma RecordOfPart(s: State, keep: map<nat, set<nat>>, n: nat, i: nat)
    requires Inv(s) && Keeps(s, keep) && n in s.logs && n >= s.manifest.logNumber && i < |s.logs[n]|
    ensures WholeOrNone(s.logs[n][i], LeftHistory(s, keep))
  {
    var imm := DurableImm(s.imm, s.manifest.logNumber);
    var I, L, rec := ImmOf(s.core.mems, imm), LogContent(s.logs[s.core.mem]), s.logs[n][i];
    WrittenParts(s);
    LeftIsLogged(s, keep);
    KeptContent(s.logs[s.core.mem], keep[s.core.mem]);
    KeptContent(s.logs[n], keep[n]);
    RecordIsLeft(s.logs[n], keep[n], i);
    forall e | e in rec ensures e in LogContent(s.logs[n]) {
    }
    assert n == s.core.mem || (Some(n) == imm && ImmLogOk(s.core, n, s.logs, s.doomedLogs));
    forall e | e in rec ensures e in LeftHistory(s, keep) <==> e in LeftIn(s, keep, n) {
      assert !Later(e, e);
    }
  }

  /** Nothing of any log is lost. */
  ghost predicate KeepsAll(s: State, keep: map<nat, set<nat>>) {
    forall n, i :: n in s.logs && n in keep && 0 <= i < |s.logs[n]| ==> i in keep[n]
  }

  /**
   A crash at any point of any run: what was flushed or synced stays; of every other
   group all or nothing stays; nothing else appears; and if no log loses a record,
   everything that was written stays.
   */
  lemma CrashKeeps(run: Run)
    requires IsRun(run) && run.Then? && run.step.Crash?
    ensures var s, s', keep := run.before.s, run.s, run.step.keep;
      && s.core.mem in s.core.mems
      && FlushedHistory(s) + s.core.synced <= s'.core.history <= Written(s)
      && (forall n, i :: n in s.logs && n >= s.manifest.logNumber && 0 <= i < |s.logs[n]| ==>
            WholeOrNone(s.logs[n][i], s'.core.history))
      && (s.core.write.Writing? ==> WholeOrNone(s.core.write.inserted + s.core.write.rest, s'.core.history))
      && (KeepsAll(s, keep) ==> s'.core.history == Written(s))
  {
    hide Inv, Written, FlushedHistory, LeftHistory, IsRun, IsCrash, Keeps, WholeOrNone, Next, KeepsAll;
    var s, s', keep := run.before.s, run.s, run.step.keep;
    LastCrash(run);
    CrashLeaves(s, s', keep);
    forall n, i | n in s.logs && n >= s.manifest.logNumber && 0 <= i < |s.logs[n]|
      ensures WholeOrNone(s.logs[n][i], s'.core.history)
    {
      RecordOfPart(s, keep, n, i);
    }
    if s.core.write.Writing? {
      GroupIsLeft(s, keep);
    }
    if KeepsAll(s, keep) {
      NothingCut(s, keep);
    }
  }

  lemma LastCrash(run: Run)
    requires IsRun(run) && run.Then? && run.step.Crash?
    ensures Inv(run.before.s) && Inv(run.s) && IsCrash(run.before.s, run.s, run.step.keep)
  {
    hide Inv, IsCrash;
    RunInv(run.before);
    RunInv(run);
  }

  lemma CrashLeaves(s: State, s': State, keep: map<nat, set<nat>>)
    requires Inv(s) && Inv(s') && IsCrash(s, s', keep)
    ensures Keeps(s, keep) && s.core.mem in s.core.mems && s'.core.history == LeftHistory(s, keep)
    ensures FlushedHistory(s) + s.core.synced <= s'.core.history <= Written(s)
  {
    LeftSubset(s, keep);
    assert SyncedOk(s'.core, DurableImm(s'.imm, s'.manifest.logNumber), s'.logs, s'.safe, s'.torn);
  }

  lemma GroupIsLeft(s: State, keep: map<nat, set<nat>>)
    requires Inv(s) && Keeps(s, keep) && s.core.write.Writing?
    ensures WholeOrNone(s.core.write.inserted + s.core.write.rest, LeftHistory(s, keep))
  {
    var c := s.core;
    var rec := c.write.inserted + c.write.rest;
    if c.write.logged {
      assert GroupLogged(c, s.logs);
      RecordOfPart(s, keep, c.mem, |s.logs[c.mem]| - 1);
    } else {
      LeftSubset(s, keep);
      assert Numbered(rec, c.lastSequence);
    }
  }

  lemma NothingCut(s: State, keep: map<nat, set<nat>>)
    requires Inv(s) && Keeps(s, keep) && KeepsAll(s, keep)
    ensures LeftHistory(s, keep) == Written(s)
  {
    WrittenParts(s);
    forall n | n in s.logs ensures LeftIn(s, keep, n) == LogContent(s.logs[n]) {
      assert forall e :: InKept(s.logs[n], keep[n], e) <==> InRecord(s.logs[n], e);
    }
    var imm := DurableImm(s.imm, s.manifest.logNumber);
    assert imm.Some? ==> ImmLogOk(s.core, imm.value, s.logs, s.doomedLogs);
  }

  // --- what a crash can take -------------------------------------------------------------------------

  ghost function FirstRecords(n: nat): (r: set<nat>)
    ensures forall i: nat :: i in r <==> i < n
  {
    if n == 0 then {} else FirstRecords(n - 1) + {n - 1}
  }

  /** A crash that takes all it can. */
  ghost function OnlySafe(s: State): map<nat, set<nat>>
    requires SafeLogs(s.logs, s.safe, s.torn)
  {
    map n | n in s.logs :: FirstRecords(s.safe[n])
  }

  lemma OnlySafeKeeps(s: State)
    requires SafeLogs(s.logs, s.safe, s.torn)
    ensures Keeps(s, OnlySafe(s))
    ensures forall n :: n in s.logs ==> LeftIn(s, OnlySafe(s), n) == SafePart(s.logs, s.safe, n)
  {
    var keep := OnlySafe(s);
    forall n | n in s.logs ensures LeftIn(s, keep, n) == SafePart(s.logs, s.safe, n) {
      var log, k := s.logs[n], s.safe[n];
      forall e ensures InKept(log, keep[n], e) <==> InRecord(log[..k], e) {
        if InKept(log, keep[n], e) {
          var i :| 0 <= i < |log| && i in keep[n] && e in log[i];
          assert e in log[..k][i];
        }
        if InRecord(log[..k], e) {
          var i :| 0 <= i < k && e in log[..k][i];
          assert e in log[i];
        }
      }
    }
  }

  /** A committed operation that some crash takes. */
  ghost predicate CanBeLost(s: State, e: Entry)
    requires s.core.mem in s.core.mems
  {
    exists keep :: Keeps(s, keep) && e !in LeftHistory(s, keep)
  }

  /** The committed operation `e` lies in a needed log behind a failed append. */
  ghost predicate BehindTear(s: State, e: Entry)
    requires s.core.mem in s.core.mems
  {
    var imm := DurableImm(s.imm, s.manifest.logNumber);
    || (e in s.core.mems[s.core.mem] && e !in SolidPart(s.logs, s.torn, s.core.mem))
    || (imm.Some? && e in ImmOf(s.core.mems, imm) && e !in SolidPart(s.logs, s.torn, imm.value))
  }

  /**
   An operation committed with a sync can be lost if and only if its log is still needed
   and an append to that log had failed before.
   */
  lemma SyncedLostExact(run: Run, e: Entry)
    requires IsRun(run) && e in run.s.core.promised
    ensures run.s.core.mem in run.s.core.mems && (CanBeLost(run.s, e) <==> BehindTear(run.s, e))
  {
    RunInv(run);
    LostExact(run.s, e);
  }

  lemma LostExact(s: State, e: Entry)
    requires Inv(s) && e in s.core.promised
    ensures CanBeLost(s, e) <==> BehindTear(s, e)
  {
    var c, imm := s.core, DurableImm(s.imm, s.manifest.logNumber);
    assert SafeLogs(s.logs, s.safe, s.torn) && SyncedOk(c, imm, s.logs, s.safe, s.torn);
    assert imm.Some? ==> ImmLogOk(c, imm.value, s.logs, s.doomedLogs);
    WrittenParts(s);
    if BehindTear(s, e) {
      OnlySafeKeeps(s);
      NotFlushed(s, e);
      assert e !in LeftHistory(s, OnlySafe(s));
    } else {
      forall keep | Keeps(s, keep) ensures e in LeftHistory(s, keep) {
        SafeStays(s, keep, e);
      }
    }
  }

  /** What lies behind a failed append is in no safe part and was not flushed. */
  lemma NotFlushed(s: State, e: Entry)
    requires Inv(s) && e in s.core.history && BehindTear(s, e)
    ensures e !in FlushedHistory(s) && e !in SafePart(s.logs, s.safe, s.core.mem)
    ensures var imm := DurableImm(s.imm, s.manifest.logNumber); imm.Some? ==> e !in SafePart(s.logs, s.safe, imm.value)
  {
    var c, imm := s.core, DurableImm(s.imm, s.manifest.logNumber);
    WrittenParts(s);
    assert imm.Some? ==> ImmLogOk(c, imm.value, s.logs, s.doomedLogs);
    forall n | n in s.logs
      ensures SafePart(s.logs, s.safe, n) <= SolidPart(s.logs, s.torn, n) <= LogContent(s.logs[n])
    {
      PrefixHolds(s.logs[n], s.safe[n], Solid(s.torn, n, s.logs[n]));
    }
    assert !Later(e, e);
  }

  lemma SafeStays(s: State, keep: map<nat, set<nat>>, e: Entry)
    requires Inv(s) && e in s.core.promised && !BehindTear(s, e) && Keeps(s, keep)
    ensures e in LeftHistory(s, keep)
  {
    var c, imm := s.core, DurableImm(s.imm, s.manifest.logNumber);
    assert SafeLogs(s.logs, s.safe, s.torn) && SyncedOk(c, imm, s.logs, s.safe, s.torn);
    assert imm.Some? ==> ImmLogOk(c, imm.value, s.logs, s.doomedLogs);
    forall n | n in s.logs ensures SafePart(s.logs, s.safe, n) <= LeftIn(s, keep, n) {
      SafeIsLeft(s, keep, n);
    }
  }

  lemma SafeIsLeft(s: State, keep: map<nat, set<nat>>, n: nat)
    requires Keeps(s, keep) && n in s.logs && SafeLogs(s.logs, s.safe, s.torn)
    ensures SafePart(s.logs, s.safe, n) <= LeftIn(s, keep, n)
  {
    var log, k := s.logs[n], s.safe[n];
    forall e | InRecord(log[..k], e) ensures InKept(log, keep[n], e) {
      var i :| 0 <= i < k && e in log[..k][i];
      assert e in log[i];
    }
  }

  // --- when a crash leaves a prefix of the commit order ----------------------------------------------

  /** What is left of one log is a prefix of it. */
  ghost predicate LeftInOrder(s: State, keep: map<nat, set<nat>>, n: nat)
    requires Keeps(s, keep)
  {
    n in s.logs ==> IsPrefix(LeftIn(s, keep, n), LogContent(s.logs[n]))
  }

  ghost predicate ImmInOrder(s: State, keep: map<nat, set<nat>>)
    requires Keeps(s, keep)
  {
    var imm := DurableImm(s.imm, s.manifest.logNumber);
    imm.Some? ==> LeftInOrder(s, keep, imm.value)
  }

  /**
   What one crash leaves is a prefix exactly if what it leaves of each needed log is one,
   and it spares the immutable memtable's log or takes all of the current one.
   */
  lemma PrefixExact(s: State, keep: map<nat, set<nat>>)
    requires Inv(s) && Keeps(s, keep)
    ensures IsPrefix(LeftHistory(s, keep), Written(s))
            <==> && LeftInOrder(s, keep, s.core.mem) && ImmInOrder(s, keep)
                 && (LeftImm(s, keep) == ImmOf(s.core.mems, DurableImm(s.imm, s.manifest.logNumber))
                     || LeftIn(s, keep, s.core.mem) == iset{})
  {
    var imm := DurableImm(s.imm, s.manifest.logNumber);
    var I, L := ImmOf(s.core.mems, imm), LogContent(s.logs[s.core.mem]);
    var I', L', F := LeftImm(s, keep), LeftIn(s, keep, s.core.mem), FlushedHistory(s);
    WrittenParts(s);
    LeftIsLogged(s, keep);
    KeptContent(s.logs[s.core.mem], keep[s.core.mem]);
    assert imm.Some? ==> ImmLogOk(s.core, imm.value, s.logs, s.doomedLogs);
    assert imm.None? ==> I == iset{} && I' == iset{};
    hide Inv, LeftIn, LeftImm, FlushedHistory, LogContent, ImmOf;
    ThreeParts(F, I, L, I', L');
  }

  /** Of parts that follow each other, beginnings of the last two with the first make a beginning of the whole. */
  lemma ThreeParts(F: iset<Entry>, I: iset<Entry>, L: iset<Entry>, I': iset<Entry>, L': iset<Entry>)
    requires InOrder(F, I) && InOrder(F, L) && InOrder(I, L) && I' <= I && L' <= L
    ensures IsPrefix(F + I' + L', F + I + L) <==> IsPrefix(L', L) && IsPrefix(I', I) && (I' == I || L' == iset{})
  {
    forall e | e in I ensures e !in F && e !in L {
      assert !Later(e, e);
    }
    forall e | e in L ensures e !in F {
      assert !Later(e, e);
    }
    if IsPrefix(F + I' + L', F + I + L) {
      if x :| x in L' {
        forall y | y in I ensures y in I' {
          assert Later(x, y);
        }
      }
    }
    if IsPrefix(L', L) && IsPrefix(I', I) && (I' == I || L' == iset{}) {
      PartsPrefix(F, I, L, I', L');
    }
  }

  lemma PartsPrefix(F: iset<Entry>, I: iset<Entry>, L: iset<Entry>, I': iset<Entry>, L': iset<Entry>)
    requires InOrder(F, I) && InOrder(F, L) && InOrder(I, L) && I' <= I && L' <= L
    requires IsPrefix(L', L) && IsPrefix(I', I) && (I' == I || L' == iset{})
    ensures IsPrefix(F + I' + L', F + I + L)
  {
    forall x, y | x in F + I' + L' && y in F + I + L && Later(x, y) ensures y in F + I' + L' {
      assert x in F && y in I + L ==> Later(y, x);
      assert x in I' && y in L ==> Later(y, x);
    }
  }

  /** Behind a failed append there is at most one record with operations. */
  ghost predicate Orderly(s: State, n: nat) {
    n in s.logs ==> forall i, j :: Solid(s.torn, n, s.logs[n]) <= i < j < |s.logs[n]| ==>
                                     s.logs[n][i] == [] || s.logs[n][j] == []
  }

  /** The immutable memtable's log was synced as far as it matters. */
  ghost predicate ImmSafe(s: State) {
    var imm := DurableImm(s.imm, s.manifest.logNumber);
    imm.Some? ==> ImmOf(s.core.mems, imm) <= SafePart(s.logs, s.safe, imm.value)
  }

  ghost predicate ImmOrderly(s: State) {
    var imm := DurableImm(s.imm, s.manifest.logNumber);
    imm.Some? ==> Orderly(s, imm.value)
  }

  lemma LaterRecord(log: seq<seq<Entry>>, i: nat, j: nat, x: Entry, y: Entry)
    requires RecordsOk(log) && i < |log| && j < |log| && x in log[i] && y in log[j]
    ensures i < j ==> Later(y, x)
  {
    if i < j {
      assert AllLater(log[i], log[j]);
    }
  }

  /** Without two records behind a failed append, every crash leaves a prefix of the log. */
  lemma OrderlyLeft(s: State, keep: map<nat, set<nat>>, n: nat)
    requires Keeps(s, keep) && n in s.logs && RecordsOk(s.logs[n]) && Orderly(s, n)
    ensures LeftInOrder(s, keep, n)
  {
    var log := s.logs[n];
    forall x, y | x in LeftIn(s, keep, n) && y in LogContent(log) && Later(x, y) ensures y in LeftIn(s, keep, n) {
      var i :| 0 <= i < |log| && i in keep[n] && x in log[i];
      var j :| 0 <= j < |log| && y in log[j];
      LaterRecord(log, i, j, x, y);
      assert j in keep[n];
    }
    KeptContent(log, keep[n]);
  }

  /** With two records behind a failed append, a crash can take the first and leave the second. */
  lemma DisorderlyLeft(s: State, n: nat) returns (keep: map<nat, set<nat>>)
    requires SafeLogs(s.logs, s.safe, s.torn) && n in s.logs && RecordsOk(s.logs[n]) && !Orderly(s, n)
    ensures Keeps(s, keep) && !LeftInOrder(s, keep, n)
  {
    var log := s.logs[n];
    var i, j :| Solid(s.torn, n, log) <= i < j < |log| && log[i] != [] && log[j] != [];
    keep := map m | m in s.logs :: FirstRecords(|s.logs[m]|) - (if m == n then {i} else {});
    assert Keeps(s, keep);
    var y, x := log[i][0], log[j][0];
    assert AllLater(log[i], log[j]) && x in log[j] && y in log[i];
    assert InKept(log, keep[n], x) && InRecord(log, y) && Later(x, y);
    OnlyHere(log, i, y);
    assert !InKept(log, keep[n], y);
  }

  /**
   Whatever a crash takes, a prefix of the commit order is left, if and only if no needed
   log has two records with operations behind a failed append, and the log of the
   immutable memtable is synced or the current log has no operation yet.
   */
  lemma AlwaysPrefixExact(s: State)
    requires Inv(s)
    ensures (forall keep :: Keeps(s, keep) ==> IsPrefix(LeftHistory(s, keep), Written(s)))
            <==> && Orderly(s, s.core.mem) && ImmOrderly(s)
                 && (ImmSafe(s) || LogContent(s.logs[s.core.mem]) == iset{})
  {
    var imm := DurableImm(s.imm, s.manifest.logNumber);
    assert imm.Some? ==> ImmLogOk(s.core, imm.value, s.logs, s.doomedLogs);
    var L := LogContent(s.logs[s.core.mem]);
    if Orderly(s, s.core.mem) && ImmOrderly(s) && (ImmSafe(s) || L == iset{}) {
      forall keep | Keeps(s, keep) ensures IsPrefix(LeftHistory(s, keep), Written(s)) {
        AllInOrder(s, keep);
        PrefixExact(s, keep);
      }
    } else {
      var keep := SomeDisorder(s);
      PrefixExact(s, keep);
    }
  }

  lemma AllInOrder(s: State, keep: map<nat, set<nat>>)
    requires Inv(s) && Keeps(s, keep) && Orderly(s, s.core.mem) && ImmOrderly(s)
    requires ImmSafe(s) || LogContent(s.logs[s.core.mem]) == iset{}
    ensures LeftInOrder(s, keep, s.core.mem) && ImmInOrder(s, keep)
    ensures LeftImm(s, keep) == ImmOf(s.core.mems, DurableImm(s.imm, s.manifest.logNumber))
            || LeftIn(s, keep, s.core.mem) == iset{}
  {
    var imm := DurableImm(s.imm, s.manifest.logNumber);
    assert imm.Some? ==> ImmLogOk(s.core, imm.value, s.logs, s.doomedLogs);
    OrderlyLeft(s, keep, s.core.mem);
    LeftIsLogged(s, keep);
    KeptContent(s.logs[s.core.mem], keep[s.core.mem]);
    if imm.Some? {
      OrderlyLeft(s, keep, imm.value);
      SafeIsLeft(s, keep, imm.value);
    }
  }

  lemma SomeDisorder(s: State) returns (keep: map<nat, set<nat>>)
    requires Inv(s)
    requires !(Orderly(s, s.core.mem) && ImmOrderly(s) && (ImmSafe(s) || LogContent(s.logs[s.core.mem]) == iset{}))
    ensures Keeps(s, keep)
    ensures !(&& LeftInOrder(s, keep, s.core.mem) && ImmInOrder(s, keep)
              && (LeftImm(s, keep) == ImmOf(s.core.mems, DurableImm(s.imm, s.manifest.logNumber))
                  || LeftIn(s, keep, s.core.mem) == iset{}))
  {
    var imm := DurableImm(s.imm, s.manifest.logNumber);
    assert imm.Some? ==> ImmLogOk(s.core, imm.value, s.logs, s.doomedLogs);
    assert SafeLogs(s.logs, s.safe, s.torn);
    if !Orderly(s, s.core.mem) {
      keep := DisorderlyLeft(s, s.core.mem);
    } else if !ImmOrderly(s) {
      keep := DisorderlyLeft(s, imm.value);
    } else {
      keep := TakesImm(s);
    }
  }

  lemma KeepAllOf(s: State, least: map<nat, set<nat>>, n: nat) returns (keep: map<nat, set<nat>>)
    requires Keeps(s, least) && n in s.logs
    ensures Keeps(s, keep) && LeftIn(s, keep, n) == LogContent(s.logs[n])
    ensures forall m :: m in s.logs && m != n ==> LeftIn(s, keep, m) == LeftIn(s, least, m)
  {
    var log := s.logs[n];
    keep := least[n := least[n] + FirstRecords(|log|)];
    forall e ensures InKept(log, keep[n], e) <==> InRecord(log, e) {
      if i :| 0 <= i < |log| && e in log[i] {
        assert i in keep[n];
      }
    }
  }

  /** All of the current log is left, and of the immutable memtable's only what is safe. */
  lemma TakesImm(s: State) returns (keep: map<nat, set<nat>>)
    requires Inv(s) && !ImmSafe(s) && LogContent(s.logs[s.core.mem]) != iset{}
    ensures Keeps(s, keep) && LeftIn(s, keep, s.core.mem) != iset{}
    ensures LeftImm(s, keep) != ImmOf(s.core.mems, DurableImm(s.imm, s.manifest.logNumber))
  {
    var imm, mem := DurableImm(s.imm, s.manifest.logNumber), s.core.mem;
    assert ImmLogOk(s.core, imm.value, s.logs, s.doomedLogs) && imm.value != mem;
    assert SafeLogs(s.logs, s.safe, s.torn) && mem in s.logs;
    assert SafePart(s.logs, s.safe, imm.value) != ImmOf(s.core.mems, imm);
    hide Inv, ImmLogOk, LogContent, ImmOf, SafePart, SafeLogs;
    OnlySafeKeeps(s);
    keep := KeepAllOf(s, OnlySafe(s), mem);
  }

  // --- a run in which an earlier write is lost and a later, synced one is not -----------------------

  /** Two operations, with a switch of memtables between them. */
  lemma TwoWrites(a: Entry, b: Entry) returns (run: Run)
    requires a.key.seqno == 1 && b.key.seqno == 2
    ensures IsRun(run) && run.s.imm == Some(3) && run.s.manifest.logNumber == 3
    ensures run.s.core.mem == 4 && run.s.core.mems == map[3 := iset{a}, 4 := iset{b}] && run.s.core.write.NoWrite?
    ensures run.s.core.history == iset{a, b} && run.s.core.synced == iset{b}
    ensures run.s.logs == map[3 := [[a]], 4 := [[b]]] && run.s.safe == map[3 := 0, 4 := 1]
  {
    hide IsRun;
    run := FirstRun();
    run := AppendOne(run, a, false);
    run := InsertAndEnd(run, a, false);
    run := Switched(run);
    run := AppendOne(run, b, true);
    run := InsertAndEnd(run, b, true);
    assert iset{} + iset{a} + iset{b} == iset{a, b} && iset{} + iset{b} == iset{b} && iset{} + iset{a} == iset{a};
    assert [] + [[a]] == [[a]] && [] + [[b]] == [[b]];
  }

  /**
   Syncing a write does not sync the log before the current one: when the memtable was
   switched in between, a crash can take the earlier write and leave the later.
   */
  lemma LaterSurvivesEarlier() returns (run: Run, a: Entry, b: Entry)
    ensures IsRun(run) && run.Then? && run.step.Crash?
    ensures a in run.before.s.core.history && b in run.before.s.core.synced && Later(b, a)
    ensures a !in run.s.core.history && b in run.s.core.history
    ensures !IsPrefix(run.s.core.history, Written(run.before.s))
  {
    hide IsRun;
    a, b := Entry(InternalKey(0.0, 1, Value), ""), Entry(InternalKey(1.0, 2, Value), "");
    var before := TwoWrites(a, b);
    var s, keep := before.s, map[3 := {}, 4 := {0}];
    run := CrashOf(before, keep);
    assert FlushedHistory(s) == iset{};
    assert InKept(s.logs[4], {0}, b);
    assert Later(b, a);
  }

  /**
   A failed append leaves the log as it is and the writer goes on behind it: a later write,
   synced and acknowledged, can be lost.
   */
  lemma TornLosesSynced() returns (run: Run, e: Entry)
    ensures IsRun(run) && run.Then? && run.step.Crash?
    ensures e in run.before.s.core.promised && e !in run.s.core.history
  {
    hide IsRun;
    var failed;
    failed, e := Entry(InternalKey(0.0, 1, Value), ""), Entry(InternalKey(1.0, 2, Value), "");
    run := FirstRun();
    run := Fails(run, failed);
    run := AppendOne(run, e, true);
    run := InsertAndEnd(run, e, true);
    run := CrashOf(run, map[3 := {}]);
  }

  // --- after recovery ---------------------------------------------------------------------------------

  /** With nothing in memory, the version alone answers. */
  lemma VersionAnswers(c: Core, V: set<Placed>, k: UserKey, r: Option<string>)
    requires GoodView(c, None, V) && c.mems == map[c.mem := iset{}] && c.floor == c.lastSequence
    ensures Answers(Content(V), k, c.lastSequence, r) <==> Answers(c.history, k, c.lastSequence, r)
  {
    assert ViewContent(iset{}, iset{}, V) == Content(V);
  }

  /**
   When recovery ends, however often it was cut short before, nothing of what the last
   crash left is lost, and the tables alone, read at the recovered last sequence number,
   answer as that history does.
   */
  lemma RecoveredAnswers(run: Run, k: UserKey, r: Option<string>)
    requires IsRun(run) && run.Then? && run.step.Recovered?
    ensures var s, s' := run.before.s, run.s;
      && s'.core.history == s.core.history
      && (forall e :: e in s'.core.history ==> e.key.seqno <= s'.core.lastSequence)
      && (Answers(Content(s'.version), k, s'.core.lastSequence, r)
          <==> Answers(s.core.history, k, s'.core.lastSequence, r))
  {
    hide GoodView, ReadersInv, DiskInv, LogInv, DurableInv;
    RunInv(run);
    VersionAnswers(run.s.core, run.s.version, k, r);
  }
}
