/** A crash at any point of any run keeps the engine's invariant, whatever it takes of the unsynced logs. */
module EngineCrash {
  import opened Keys
  import opened Spec
  import opened Versions
  import opened Engine
  import opened EngineSteps
  import opened EngineDurable
  import opened EngineProof

  // --- what the logs still hold ---------------------------------------------------------------

  lemma LastRecord(log: seq<seq<Entry>>, last: seq<seq<Entry>>, e: Entry)
    requires |last| <= 1
    ensures InRecord(log + last, e) <==> InRecord(log, e) || (last != [] && e in last[0])
  {
    var all := log + last;
    if i :| 0 <= i < |log| && e in log[i] {
      assert e in all[i];
    }
    if i :| 0 <= i < |all| && e in all[i] {
      assert i < |log| ==> e in log[i];
    }
    if last != [] && e in last[0] {
      assert e in all[|log|];
    }
  }

  lemma {:induction false} KeptHolds(log: seq<seq<Entry>>, kept: set<nat>, e: Entry)
    ensures InRecord(Kept(log, kept), e) <==> InKept(log, kept, e)
  {
    if log != [] {
      var n := |log| - 1;
      var front, cut := log[..n], Kept(log[..n], kept);
      KeptHolds(front, kept, e);
      var last := if n in kept then [log[n]] else [];
      assert Kept(log, kept) == cut + last;
      hide Kept;
      LastRecord(cut, last, e);
      if InKept(front, kept, e) {
        var k :| 0 <= k < n && k in kept && e in front[k];
        assert e in log[k];
      }
      if InKept(log, kept, e) {
        var k :| 0 <= k <= n && k in kept && e in log[k];
        assert k < n ==> e in front[k];
      }
    }
  }

  lemma KeptContent(log: seq<seq<Entry>>, kept: set<nat>)
    ensures LogContent(Kept(log, kept)) <= LogContent(log)
    ensures LogContent(Kept(log, kept)) == iset e | InKept(log, kept, e)
  {
    forall e ensures InRecord(Kept(log, kept), e) <==> InKept(log, kept, e) {
      KeptHolds(log, kept, e);
    }
    forall e | InKept(log, kept, e) ensures InRecord(log, e) {
      var i :| 0 <= i < |log| && i in kept && e in log[i];
    }
  }

  /** What is left of a log in commit order is in commit order. */
  lemma {:induction false} KeptOk(log: seq<seq<Entry>>, kept: set<nat>)
    requires RecordsOk(log)
    ensures RecordsOk(Kept(log, kept))
  {
    if log != [] {
      var n := |log| - 1;
      var front, cut := log[..n], Kept(log[..n], kept);
      assert RecordsOk(front) by {
        forall i, j | 0 <= i < j < n ensures AllLater(front[i], front[j]) {
          assert AllLater(log[i], log[j]);
        }
      }
      KeptOk(front, kept);
      forall x, y | x in LogContent(cut) && y in log[n] ensures x.key.seqno < y.key.seqno {
        KeptHolds(front, kept, x);
        var k :| 0 <= k < n && k in kept && x in front[k];
        assert AllLater(log[k], log[n]);
      }
      if n in kept {
        LogAppend(cut, log[n]);
      } else {
        assert Kept(log, kept) == cut;
      }
    }
  }

  /** The first `m` records are left: the log still begins with them. */
  lemma {:induction false} KeptPrefix(log: seq<seq<Entry>>, kept: set<nat>, m: nat)
    requires m <= |log| && forall i :: 0 <= i < m ==> i in kept
    ensures log[..m] <= Kept(log, kept)
    decreases |log|
  {
    if log != [] {
      var n := |log| - 1;
      if m == |log| {
        KeptPrefix(log[..n], kept, n);
        assert log[..n][..n] == log[..n] && log == log[..n] + [log[n]];
        assert |Kept(log[..n], kept)| <= n by {
          KeptShort(log[..n], kept);
        }
      } else {
        KeptPrefix(log[..n], kept, m);
        assert log[..n][..m] == log[..m];
      }
    }
  }

  lemma {:induction false} KeptShort(log: seq<seq<Entry>>, kept: set<nat>)
    ensures |Kept(log, kept)| <= |log|
  {
    if log != [] {
      KeptShort(log[..|log| - 1], kept);
    }
  }

  /** Nothing from `m` on is left. */
  lemma {:induction false} KeptNone(log: seq<seq<Entry>>, kept: set<nat>, m: nat)
    requires m <= |log| && forall i :: m <= i < |log| ==> i !in kept
    ensures Kept(log, kept) == Kept(log[..m], kept)
    decreases |log|
  {
    if m < |log| {
      var n := |log| - 1;
      KeptNone(log[..n], kept, m);
      assert log[..n][..m] == log[..m];
    } else {
      assert log[..m] == log;
    }
  }

  /** Up to the first failed append, what is left is a beginning of what there was. */
  lemma KeptSolid(log: seq<seq<Entry>>, safe: nat, solid: nat, kept: set<nat>)
    requires safe <= solid <= |log| && KeepsOf(log, safe, solid, kept)
    ensures safe <= |Kept(log, kept)| && Kept(log, kept)[..safe] == log[..safe]
    ensures var cut := Kept(log, kept); cut[..if solid < |cut| then solid else |cut|] <= log[..solid]
  {
    KeptPrefix(log, kept, safe);
    if i :| 0 <= i < solid && i !in kept {
      var m := FirstMissing(kept, i);
      KeptPrefix(log, kept, m);
      KeptNone(log, kept, m);
      KeptShort(log[..m], kept);
      assert Kept(log, kept) == log[..m];
    } else {
      KeptPrefix(log, kept, solid);
    }
  }

  lemma {:induction false} FirstMissing(kept: set<nat>, i: nat) returns (m: nat)
    requires i !in kept
    ensures m <= i && m !in kept && forall j :: 0 <= j < m ==> j in kept
    decreases i
  {
    if j :| 0 <= j < i && j !in kept {
      m := FirstMissing(kept, j);
    } else {
      m := i;
    }
  }

  /** The logs hold the memtables, and at most the group being written beyond them. */
  lemma LeftIsLogged(s: State, keep: map<nat, set<nat>>)
    requires LogInv(s) && Keeps(s, keep)
    ensures LeftIn(s, keep, s.core.mem) <= s.core.mems[s.core.mem] + LoggedAhead(s.core.write)
    ensures LeftImm(s, keep) <= ImmOf(s.core.mems, DurableImm(s.imm, s.manifest.logNumber))
  {
    var imm := DurableImm(s.imm, s.manifest.logNumber);
    KeptContent(s.logs[s.core.mem], keep[s.core.mem]);
    if imm.Some? {
      assert ImmLogOk(s.core, imm.value, s.logs, s.doomedLogs);
      KeptContent(s.logs[imm.value], keep[imm.value]);
    }
  }

  lemma LeftMemsAre(s: State, keep: map<nat, set<nat>>)
    requires Keeps(s, keep) && Named(s.core.mems, s.core.mem, DurableImm(s.imm, s.manifest.logNumber))
    ensures Named(LeftMems(s, keep), s.core.mem, DurableImm(s.imm, s.manifest.logNumber))
    ensures LeftMems(s, keep)[s.core.mem] == LeftIn(s, keep, s.core.mem)
    ensures ImmOf(LeftMems(s, keep), DurableImm(s.imm, s.manifest.logNumber)) == LeftImm(s, keep)
  {
  }

  /** The group being written has sequence numbers of its own, beyond everything committed. */
  lemma LoggedIsNewer(c: Core, snapshots: multiset<nat>)
    requires SequenceInv(c, snapshots)
    ensures forall e :: e in LoggedAhead(c.write) ==> c.lastSequence < e.key.seqno <= LastNumber(c)
    ensures Unique(c.history + LoggedAhead(c.write)) && LastNumber(c) < MAX_SEQUENCE
  {
    var N := LoggedAhead(c.write);
    if c.write.Writing? && c.write.logged {
      var all := c.write.inserted + c.write.rest;
      assert Numbered(all, c.lastSequence);
      forall a, b | a in c.history + N && b in c.history + N && SameNumber(a, b) ensures a == b {
      }
    }
  }

  lemma InsertedIsLogged(c: Core, snapshots: multiset<nat>, D: iset<Entry>)
    requires AllInserted(c, D) && SequenceInv(c, snapshots)
    ensures D <= c.history + LoggedAhead(c.write)
  {
    forall e | e in D ensures e in c.history + LoggedAhead(c.write) {
      assert Inserted(c, e);
      assert c.write.Writing? && e in c.write.inserted ==> e in BatchOf(c.write);
    }
  }

  /** What is left was committed, or belongs to the logged group. */
  lemma LeftSubset(s: State, keep: map<nat, set<nat>>)
    requires SequenceInv(s.core, s.snapshots) && LogInv(s) && Keeps(s, keep)
    requires GoodView(s.core, DurableImm(s.imm, s.manifest.logNumber), s.manifest.version)
    ensures LeftHistory(s, keep) <= s.core.history + LoggedAhead(s.core.write)
  {
    var c, imm := s.core, DurableImm(s.imm, s.manifest.logNumber);
    LeftIsLogged(s, keep);
    InsertedIsLogged(c, s.snapshots, ViewContent(c.mems[c.mem], ImmOf(c.mems, imm), s.manifest.version));
  }

  // --- the invariant ----------------------------------------------------------------------------

  lemma CrashSequence(s: State, s': State, keep: map<nat, set<nat>>)
    requires SequenceInv(s.core, s.snapshots) && LogInv(s) && IsCrash(s, s', keep)
    requires GoodView(s.core, DurableImm(s.imm, s.manifest.logNumber), s.manifest.version)
    ensures SequenceInv(s'.core, s'.snapshots)
  {
    LeftSubset(s, keep);
    LoggedIsNewer(s.core, s.snapshots);
    SubsetUnique(s'.core.history, s.core.history + LoggedAhead(s.core.write));
  }

  /** The flushed part stays the same; what is left of the memtables is still later. */
  lemma LeftFlushed(H: iset<Entry>, M: iset<Entry>, I: iset<Entry>, S: iset<Entry>, A: iset<Entry>, M': iset<Entry>,
                    I': iset<Entry>, V: set<Placed>)
    requires FlushedOk(H, M, I, S, V) && I <= H && InOrder(H, A) && M' <= M + A && I' <= I
    ensures FlushedOk(FlushedPart(H, M, I) + I' + M', M', I', S, V)
    ensures FlushedPart(FlushedPart(H, M, I) + I' + M', M', I') == FlushedPart(H, M, I)
  {
    var F := FlushedPart(H, M, I);
    forall e | e in F ensures e !in M' && e !in I' {
      assert !Later(e, e);
    }
    assert FlushedPart(F + I' + M', M', I') == F;
  }

  lemma TopReads(S: iset<Entry>, T: iset<Entry>, s: nat, s': nat)
    requires SameReads(S, T, s, s) && forall e :: e in S + T ==> e.key.seqno <= s && e.key.seqno <= s'
    ensures SameReads(S, T, s', s')
  {
    forall k: UserKey, x: nat, r | s' <= x <= s' ensures Answers(S, k, x, r) <==> Answers(T, k, x, r) {
      ReadAtTop(S, k, s, x, r);
      ReadAtTop(T, k, s, x, r);
    }
  }

  /** With what is left of the memtables on top, the version answers as what is left of the history. */
  lemma LeftReads(H: iset<Entry>, M: iset<Entry>, I: iset<Entry>, S: iset<Entry>, V: set<Placed>, last: nat)
    requires FlushedOk(H, M, I, S, V) && S <= M + I && M <= H && I <= H && Content(V) <= H
    requires Newer(M + I, Content(V)) && Unique(H)
    requires last < MAX_SEQUENCE && forall e :: e in H ==> e.key.seqno <= last
    ensures SameReads(ViewContent(M, I, V), H, last, last)
  {
    var F := FlushedPart(H, M, I);
    SubsetUnique(M + I + F, H);
    SubsetUnique(M + I + Content(V), H);
    LayerReads(S, M + I, Content(V), F, MAX_SEQUENCE, MAX_SEQUENCE);
    assert M + I + F == H;
    TopReads(ViewContent(M, I, V), H, MAX_SEQUENCE, last);
  }

  lemma LeftNewer(s: State, keep: map<nat, set<nat>>)
    requires SequenceInv(s.core, s.snapshots) && LogInv(s) && Keeps(s, keep)
    requires GoodView(s.core, DurableImm(s.imm, s.manifest.logNumber), s.manifest.version)
    ensures Newer(LeftIn(s, keep, s.core.mem) + LeftImm(s, keep), Content(s.manifest.version))
  {
    var c, imm, V := s.core, DurableImm(s.imm, s.manifest.logNumber), s.manifest.version;
    var M, I := c.mems[c.mem], ImmOf(c.mems, imm);
    LeftIsLogged(s, keep);
    forall x, y | x in LeftIn(s, keep, c.mem) + LeftImm(s, keep) && y in Content(V) && x.key.user == y.key.user
      ensures Later(x, y)
    {
      if x !in M + I {
        assert y in ViewContent(M, I, V) && Inserted(c, y);
        assert x in c.write.rest;
        GroupIsNewer(c, s.snapshots, y, x);
      }
    }
  }

  /** The safe part of the memtables is left, and is what is safe of what is left. */
  lemma CrashAnchor(s: State, s': State, keep: map<nat, set<nat>>)
    requires LogInv(s) && IsCrash(s, s', keep) && SafeLogs(s.logs, s.safe, s.torn)
    requires Named(s.core.mems, s.core.mem, ImmOfState(s))
    ensures s'.core.mem in s'.core.mems && AnchorOf(s) <= AnchorOf(s') && ImmOfState(s') == s'.imm == ImmOfState(s)
    ensures AnchorOf(s') <= LeftIn(s, keep, s.core.mem) + LeftImm(s, keep)
  {
    LeftMemsAre(s, keep);
    assert ImmOfState(s').Some? ==> ImmLogOk(s.core, ImmOfState(s').value, s.logs, s.doomedLogs);
    forall n | n in s.logs ensures SafePart(s.logs, s.safe, n) == SafePart(s'.logs, s'.safe, n) <= LeftIn(s, keep, n) {
      SafeIsKept(s, s', keep, n);
    }
  }

  lemma SafeIsKept(s: State, s': State, keep: map<nat, set<nat>>, n: nat)
    requires IsCrash(s, s', keep) && SafeLogs(s.logs, s.safe, s.torn) && n in s.logs
    ensures SafePart(s'.logs, s'.safe, n) == SafePart(s.logs, s.safe, n) <= LeftIn(s, keep, n)
    ensures SolidPart(s'.logs, s'.torn, n) <= SolidPart(s.logs, s.torn, n)
    ensures s.safe[n] <= Solid(s.torn, n, s'.logs[n])
  {
    var log, safe, solid := s.logs[n], s.safe[n], Solid(s.torn, n, s.logs[n]);
    var cut := Kept(log, keep[n]);
    KeptSolid(log, safe, solid, keep[n]);
    KeptContent(log, keep[n]);
    PrefixHolds(cut, safe, |cut|);
    assert cut[..|cut|] == cut;
    var k := Solid(s.torn, n, cut);
    assert k == if solid < |cut| then solid else |cut| by {
      KeptShort(log, keep[n]);
    }
    PrefixIsPart(cut[..k], log[..solid]);
  }

  lemma PrefixIsPart(a: seq<seq<Entry>>, b: seq<seq<Entry>>)
    requires a <= b
    ensures LogContent(a) <= LogContent(b)
  {
    forall e | InRecord(a, e) ensures InRecord(b, e) {
      var i :| 0 <= i < |a| && e in a[i];
      assert e in b[i];
    }
  }

  lemma CrashFlushed(s: State, s': State, keep: map<nat, set<nat>>)
    requires SequenceInv(s.core, s.snapshots) && LogInv(s) && IsCrash(s, s', keep) && SafeLogs(s.logs, s.safe, s.torn)
    requires GoodView(s.core, ImmOfState(s), s.manifest.version)
    requires FlushedInv(s.core, ImmOfState(s), AnchorOf(s), s.manifest.version)
    ensures FlushedInv(s'.core, s'.imm, AnchorOf(s), s'.version)
    ensures Content(s'.version) <= s'.core.history
  {
    var c, imm := s.core, ImmOfState(s);
    LeftMemsAre(s, keep);
    LeftIsLogged(s, keep);
    LoggedIsNewer(c, s.snapshots);
    CrashAnchor(s, s', keep);
    hide AnchorOf;
    OnlyCommitted(c, imm, AnchorOf(s), s.manifest.version);
    LeftFlushed(c.history, c.mems[c.mem], ImmOf(c.mems, imm), AnchorOf(s), LoggedAhead(c.write), LeftIn(s, keep, c.mem),
                LeftImm(s, keep), s.manifest.version);
  }

  lemma CrashView(s: State, s': State, keep: map<nat, set<nat>>, S: iset<Entry>)
    requires SequenceInv(s.core, s.snapshots) && LogInv(s) && IsCrash(s, s', keep) && SequenceInv(s'.core, s'.snapshots)
    requires GoodView(s.core, DurableImm(s.imm, s.manifest.logNumber), s.manifest.version)
    requires FlushedInv(s'.core, s'.imm, S, s'.version) && Content(s'.version) <= s'.core.history
    ensures GoodView(s'.core, s'.imm, s'.version)
  {
    var c' := s'.core;
    LeftMemsAre(s, keep);
    LeftNewer(s, keep);
    var M, I := LeftIn(s, keep, c'.mem), LeftImm(s, keep);
    LeftReads(c'.history, M, I, S, s'.version, c'.lastSequence);
    assert Newer(M, I);
  }

  lemma CrashDisk(s: State, s': State, keep: map<nat, set<nat>>)
    requires DiskInv(s) && IsCrash(s, s', keep)
    ensures DiskInv(s')
  {
    forall p | p in s'.version ensures TableThere(s'.tables, s'.doomedTables, p.file) {
      assert TableThere(s.tables, s.doomedTables, p.file);
    }
  }

  lemma CrashAccounted(s: State, s': State, keep: map<nat, set<nat>>)
    requires LogInv(s) && IsCrash(s, s', keep)
    requires Named(s.core.mems, s.core.mem, DurableImm(s.imm, s.manifest.logNumber))
    ensures Accounted(s'.core, s'.imm, s.manifest.lastSequence)
  {
    LeftMemsAre(s, keep);
  }

  lemma CrashLogs(s: State, s': State, keep: map<nat, set<nat>>)
    requires LogInv(s) && IsCrash(s, s', keep)
    requires Named(s.core.mems, s.core.mem, DurableImm(s.imm, s.manifest.logNumber))
    ensures LogInv(s')
  {
    forall n | n in s.logs
      ensures RecordsOk(s'.logs[n]) && LogContent(s'.logs[n]) == LeftIn(s, keep, n)
      ensures s.logs[n] == [] ==> s'.logs[n] == []
    {
      KeptOk(s.logs[n], keep[n]);
      KeptContent(s.logs[n], keep[n]);
    }
    CrashAccounted(s, s', keep);
    LeftMemsAre(s, keep);
    hide Accounted, RecordsOk, Kept, LeftIn;
    assert MemLogOk(s'.core, s'.logs);
    if s'.imm.Some? {
      assert ImmLogOk(s.core, s'.imm.value, s.logs, s.doomedLogs);
      assert ImmLogOk(s'.core, s'.imm.value, s'.logs, s'.doomedLogs);
    }
    assert LogsNeeded(s'.core, s'.imm, s'.logs, s'.manifest.logNumber);
  }

  /** No synced operation is lost, and each stays in the synced part of its log. */
  lemma CrashSynced(s: State, s': State, keep: map<nat, set<nat>>)
    requires SequenceInv(s.core, s.snapshots) && LogInv(s) && IsCrash(s, s', keep) && SafeLogs(s.logs, s.safe, s.torn)
    requires Named(s.core.mems, s.core.mem, ImmOfState(s))
    requires SyncedOk(s.core, ImmOfState(s), s.logs, s.safe, s.torn)
    ensures SafeLogs(s'.logs, s'.safe, s'.torn) && SyncedOk(s'.core, s'.imm, s'.logs, s'.safe, s'.torn)
  {
    var c, imm := s.core, ImmOfState(s);
    LeftMemsAre(s, keep);
    LeftIsLogged(s, keep);
    LoggedIsNewer(c, s.snapshots);
    assert imm.Some? ==> ImmLogOk(c, imm.value, s.logs, s.doomedLogs);
    forall n | n in s.logs
      ensures SafePart(s'.logs, s'.safe, n) == SafePart(s.logs, s.safe, n) <= LeftIn(s, keep, n)
      ensures SolidPart(s'.logs, s'.torn, n) <= SolidPart(s.logs, s.torn, n)
      ensures s.safe[n] <= Solid(s.torn, n, s'.logs[n])
    {
      SafeIsKept(s, s', keep, n);
    }
    hide SafePart, SolidPart, LeftIn, Kept, LogInv, SequenceInv;
    assert SyncedOk(s'.core, s'.imm, s'.logs, s'.safe, s'.torn);
  }

  lemma CrashInv(s: State, s': State, keep: map<nat, set<nat>>)
    requires Inv(s) && IsCrash(s, s', keep)
    ensures Inv(s')
  {
    assert Named(s.core.mems, s.core.mem, ImmOfState(s));
    hide GoodView, LogInv, DiskInv, SequenceInv, FlushedInv, SyncedOk, SafeLogs, IsCrash, AnchorOf;
    assert DurableInv(s);
    CrashSequence(s, s', keep);
    CrashFlushed(s, s', keep);
    CrashView(s, s', keep, AnchorOf(s));
    CrashDisk(s, s', keep);
    CrashLogs(s, s', keep);
    CrashSynced(s, s', keep);
    CrashDown(s, s', keep);
    CrashAnchor(s, s', keep);
    Reanchored(s, s');
  }

  lemma CrashDown(s: State, s': State, keep: map<nat, set<nat>>)
    requires IsCrash(s, s', keep)
    ensures s'.phase.Down? && DownOk(s') && s'.imm == DurableImm(s'.imm, s'.manifest.logNumber)
    ensures s'.version == s'.manifest.version
    ensures ReadersInv(s'.core, s'.readers) && JobOfPhase(s'.phase) == None
    ensures GroupSynced(s'.core, s'.logs, s'.safe, s'.torn) && GroupLogged(s'.core, s'.logs)
  {
  }
}
