/**
 The writer queue drives the engine: every step of DBImpl::Write's protocol is matched
 by the engine's write steps, so what the queue acknowledges is what the engine commits.
 */
module GroupRefinement {
  import opened Keys
  import opened Spec
  import opened Versions
  import opened Engine
  import opened EngineSteps
  import opened EngineMain
  import opened Durability
  import opened Runs
  import G = GroupCommit

  function EntryOf(s: G.Stored): Entry {
    Entry(InternalKey(s.op.user, s.seqno, s.op.kind), s.op.value)
  }

  function EntriesOf(ss: seq<G.Stored>): (es: seq<Entry>)
    ensures |es| == |ss| && forall i :: 0 <= i < |ss| ==> es[i] == EntryOf(ss[i])
  {
    seq(|ss|, i requires 0 <= i < |ss| => EntryOf(ss[i]))
  }

  /** The operations of a group, numbered from `base` on. */
  ghost function Batch(ops: seq<G.Op>, base: nat): seq<Entry> {
    EntriesOf(G.Numbered(ops, base))
  }

  ghost function GroupBatch(g: G.State, pc: G.Pc): seq<Entry>
    requires G.HasGroup(pc) && pc.n <= |g.queue|
  {
    Batch(G.GroupOps(g, pc.n), pc.base)
  }

  ghost function Leader(g: G.State): G.Pc {
    G.HeadPc(g.pc, g.queue)
  }

  ghost predicate LeaderSyncs(g: G.State) {
    g.queue != [] && g.writers(g.queue[0]).sync
  }

  /** The engine's write, as the leader's progress says. */
  ghost predicate WriteMatches(g: G.State, w: Write, last: nat) {
    var pc := Leader(g);
    if g.bgError then
      !G.HasGroup(pc) && w.Writing? && w.inserted == [] && w.logged && last + |w.rest| == g.last
    else if !G.HasGroup(pc) then
      w.NoWrite? && last == g.last
    else
      && pc.n <= |g.queue| && last == g.last
      && var batch := GroupBatch(g, pc);
         match pc
         case Appending(_, _) => w == Writing([], batch, false, LeaderSyncs(g))
         case Syncing(_, _) => w == Writing([], batch, true, true) && LeaderSyncs(g)
         case Inserting(_, _, i) => i <= |batch| && w == Writing(batch[..i], batch[i..], true, LeaderSyncs(g))
         case Failed(_, _, syncError) => w == Writing([], batch, syncError, LeaderSyncs(g))
         case _ => false
  }

  ghost predicate HistoryMatches(g: G.State, c: Core) {
    c.history == Elements(EntriesOf(G.Applied(g.writers, g.past)))
  }

  /** Every successful writer that asked for a sync has its batch among the operations committed with one. */
  ghost predicate SyncedMatches(g: G.State, promised: iset<Entry>) {
    forall k :: 0 <= k < |g.past| && g.past[k].ok && g.writers(g.past[k].id).sync ==>
      Elements(Batch(G.Ops(g.writers(g.past[k].id)), g.past[k].base)) <= promised
  }

  /** A group that asks for a sync is inserted after it. */
  ghost predicate SafeMatches(g: G.State, s: State) {
    !g.bgError && Leader(g).Inserting? && LeaderSyncs(g) ==>
      SyncDone(s.core.mem, s.logs, s.safe, s.torn)
  }

  ghost predicate Matches(g: G.State, s: State) {
    && !s.phase.Down? && WriteMatches(g, s.core.write, s.core.lastSequence)
    && HistoryMatches(g, s.core) && SyncedMatches(g, s.core.promised) && SafeMatches(g, s)
  }

  /** The largest sequence number handed out, also to a group that is still being written. */
  ghost function Highest(g: G.State): nat {
    g.last + if G.HasGroup(Leader(g)) && Leader(g).n <= |g.queue| then |G.GroupOps(g, Leader(g).n)| else 0
  }

  // --- steps in which only the queue moves ----------------------------------------------------

  ghost predicate SameFront(a: seq<nat>, b: seq<nat>, n: nat) {
    0 < n <= |a| && n <= |b| && a[0] == b[0] && a[..n] == b[..n]
  }

  /** The leader's place, the group and the results are unchanged. */
  ghost predicate SameWork(g: G.State, g': G.State) {
    && g'.writers == g.writers && g'.past == g.past && g'.last == g.last && g'.bgError == g.bgError
    && (Leader(g') == Leader(g) || (!G.HasGroup(Leader(g)) && !G.HasGroup(Leader(g'))))
    && (G.HasGroup(Leader(g)) ==> SameFront(g.queue, g'.queue, Leader(g).n))
  }

  lemma SameWorkMatches(g: G.State, g': G.State, s: State)
    requires Matches(g, s) && SameWork(g, g')
    ensures Matches(g', s)
  {
    hide G.Applied, EntriesOf, G.GroupOps;
    if G.HasGroup(Leader(g)) {
      SameOps(g, g', Leader(g).n);
    }
  }

  lemma SameOps(g: G.State, g': G.State, n: nat)
    requires n <= |g.queue| && n <= |g'.queue| && g'.queue[..n] == g.queue[..n] && g'.writers == g.writers
    ensures G.GroupOps(g', n) == G.GroupOps(g, n)
  {
  }

  lemma QueueStep(g: G.State, g': G.State, step: G.Step)
    requires G.Inv(g) && G.Next(g, g', step) && (step.Enqueue? || step.Lead? || step.Return? || step.TakeSnapshot?)
    ensures SameWork(g, g')
  {
    match step
    case Enqueue(id) =>
      assert g.queue != [] ==> g.queue[0] in g.arrivals;
      assert Leader(g') == Leader(g) || g.queue == [];
    case Lead(id) =>
    case Return(id) =>
      G.NotQueued(g, id);
    case TakeSnapshot =>
  }

  // --- steps of the leader ------------------------------------------------------------------------

  lemma LeaderIs(g: G.State, s: State, id: nat)
    requires G.Inv(g) && Matches(g, s) && id in g.pc && G.HasGroup(g.pc[id])
    ensures g.queue != [] && g.queue[0] == id && Leader(g) == g.pc[id] && !g.bgError
    ensures 0 < g.pc[id].n <= |g.queue| && g.pc[id].base == g.last + 1
  {
    G.HeadIs(g, id);
  }

  lemma Collected(g: G.State, g': G.State, id: nat) returns (n: nat)
    requires G.Inv(g) && G.IsRoom(g, g', id, true) && g.writers(id).batch.Some?
    ensures g' == g.(pc := g'.pc) && Leader(g') == G.Appending(n, g.last + 1) && n <= |g'.queue|
    ensures !G.HasGroup(Leader(g)) && !g.bgError
  {
    G.HeadIs(g, id);
    n :| G.IsGroup(G.WritersOf(g.writers, g.queue), n) && g' == g.(pc := g.pc[id := G.Appending(n, g.last + 1)]);
  }

  /** The group has been collected: it is given its numbers. */
  lemma CollectMatches(g: G.State, g': G.State, s: State, id: nat) returns (s': State)
    requires G.Inv(g) && G.IsRoom(g, g', id, true) && g.writers(id).batch.Some? && Matches(g, s)
    requires Highest(g') < MAX_SEQUENCE
    ensures s'.core.write.Writing? && IsBeginWrite(s, s', s'.core.write.rest, s'.core.write.sync) && Matches(g', s')
  {
    hide G.Applied, G.GroupOps, EntriesOf, G.IsGroup, G.Inv, G.IsRoom;
    var n := Collected(g, g', id);
    var batch := GroupBatch(g', Leader(g'));
    s' := s.(core := s.core.(write := Writing([], batch, false, LeaderSyncs(g'))));
    assert Numbered(batch, s.core.lastSequence);
  }

  lemma AppendMatches(g: G.State, g': G.State, s: State, id: nat) returns (s': State)
    requires G.Inv(g) && G.IsAppend(g, g', id, true) && Matches(g, s) && s.core.mem in s.logs
    ensures IsLogWrite(s, s') && Matches(g', s')
  {
    LeaderIs(g, s, id);
    assert Leader(g') == g'.pc[id];
    SameOps(g, g', g.pc[id].n);
    hide G.Applied, G.GroupOps, EntriesOf;
    var w := s.core.write;
    s' := s.(core := s.core.(write := w.(logged := true)),
             logs := s.logs[s.core.mem := s.logs[s.core.mem] + [w.inserted + w.rest]]);
    var batch := GroupBatch(g, g.pc[id]);
    assert batch[..0] == [] && batch[0..] == batch;
  }

  lemma SyncMatches(g: G.State, g': G.State, s: State, id: nat) returns (s': State)
    requires G.Inv(g) && G.IsSync(g, g', id, true) && Matches(g, s) && s.core.mem in s.logs
    ensures IsSyncLog(s, s') && Matches(g', s')
  {
    LeaderIs(g, s, id);
    assert Leader(g') == g'.pc[id];
    SameOps(g, g', g.pc[id].n);
    hide G.Applied, G.GroupOps, EntriesOf;
    s' := s.(safe := s.safe[s.core.mem := Solid(s.torn, s.core.mem, s.logs[s.core.mem])]);
    var batch := GroupBatch(g, g.pc[id]);
    assert batch[..0] == [] && batch[0..] == batch;
  }

  /** AddRecord or Sync failed; the leader has not given up the group yet. */
  lemma FailedMatches(g: G.State, g': G.State, s: State, id: nat)
    requires G.Inv(g) && (G.IsAppend(g, g', id, false) || G.IsSync(g, g', id, false)) && Matches(g, s)
    ensures Matches(g', s)
  {
    LeaderIs(g, s, id);
    assert Leader(g') == g'.pc[id];
    SameOps(g, g', g.pc[id].n);
    hide G.Applied, G.GroupOps, EntriesOf;
  }

  lemma InsertMatches(g: G.State, g': G.State, s: State, id: nat) returns (s': State)
    requires G.Inv(g) && G.IsInsert(g, g', id) && Matches(g, s) && s.core.mem in s.core.mems
    ensures IsInsertOne(s, s') && Matches(g', s')
  {
    LeaderIs(g, s, id);
    assert Leader(g') == g'.pc[id];
    SameOps(g, g', g.pc[id].n);
    hide G.Applied, G.GroupOps, EntriesOf;
    var w, i, batch := s.core.write, g.pc[id].i, GroupBatch(g, g.pc[id]);
    assert |batch| == |G.GroupOps(g, g.pc[id].n)| && w.rest[0] == batch[i];
    assert batch[..i + 1] == batch[..i] + [batch[i]] && batch[i..][1..] == batch[i + 1..];
    s' := s.(core := s.core.(mems := s.core.mems[s.core.mem := s.core.mems[s.core.mem] + iset{w.rest[0]}],
                             write := w.(inserted := w.inserted + [w.rest[0]], rest := w.rest[1..])));
  }

  // --- the group is done ----------------------------------------------------------------------------

  lemma EntriesConcat(a: seq<G.Stored>, b: seq<G.Stored>)
    ensures EntriesOf(a + b) == EntriesOf(a) + EntriesOf(b)
    ensures Elements(EntriesOf(a + b)) == Elements(EntriesOf(a)) + Elements(EntriesOf(b))
  {
    assert EntriesOf(a + b) == EntriesOf(a) + EntriesOf(b);
  }

  /** The history grows by the group if it succeeded, and by nothing if not. */
  lemma DoneHistory(g: G.State, g': G.State, c: Core, c': Core, ids: seq<nat>, ok: bool, base: nat)
    requires HistoryMatches(g, c) && g'.writers == g.writers && g'.past == g.past + G.Outcome(g.writers, ids, ok, base)
    requires c'.history == c.history + (if ok then Elements(Batch(G.OpsOf(g.writers, ids), base)) else iset{})
    ensures HistoryMatches(g', c')
  {
    hide G.Applied, EntriesOf, G.OpsOf, G.Numbered, G.Outcome;
    G.AppliedOutcome(g.writers, g.past, ids, ok, base);
    var done := G.Applied(g.writers, g.past);
    if ok {
      EntriesConcat(done, G.Numbered(G.OpsOf(g.writers, ids), base));
    } else {
      assert done + [] == done;
    }
  }

  /** The batch of one member is part of the group's. */
  lemma MemberBatch(writers: nat -> G.Writer, ids: seq<nat>, base: nat, k: nat)
    requires k < |ids|
    ensures Elements(Batch(G.Ops(writers(ids[k])), base + |G.OpsOf(writers, ids[..k])|))
            <= Elements(Batch(G.OpsOf(writers, ids), base))
  {
    hide G.OpsOf, G.Ops, Batch;
    G.Share(writers, ids, k, |ids|);
    assert ids[..|ids|] == ids;
    BatchPart(G.OpsOf(writers, ids), |G.OpsOf(writers, ids[..k])|, G.Ops(writers(ids[k])), base);
  }

  lemma BatchPart(all: seq<G.Op>, at: nat, own: seq<G.Op>, base: nat)
    requires at + |own| <= |all| && all[at..at + |own|] == own
    ensures Elements(Batch(own, base + at)) <= Elements(Batch(all, base))
  {
    forall e | e in Batch(own, base + at) ensures e in Batch(all, base) {
      var i :| 0 <= i < |own| && e == Batch(own, base + at)[i];
      assert all[at..at + |own|][i] == own[i] && Batch(all, base)[at + i] == e;
    }
  }

  lemma DoneSynced(g: G.State, g': G.State, promised: iset<Entry>, promised': iset<Entry>, ids: seq<nat>, ok: bool,
                   base: nat)
    requires SyncedMatches(g, promised) && promised <= promised'
    requires g'.writers == g.writers && g'.past == g.past + G.Outcome(g.writers, ids, ok, base)
    requires ok ==> forall j :: 0 <= j < |ids| && g.writers(ids[j]).sync ==>
               Elements(Batch(G.OpsOf(g.writers, ids), base)) <= promised'
    ensures SyncedMatches(g', promised')
  {
    hide G.OpsOf, G.Outcome, Batch;
    var cs := G.Outcome(g.writers, ids, ok, base);
    forall j | 0 <= j < |ids| && cs[j].ok && g.writers(cs[j].id).sync
      ensures Elements(Batch(G.Ops(g.writers(cs[j].id)), cs[j].base)) <= promised'
    {
      G.OutcomeAt(g.writers, ids, ok, base, j);
      MemberBatch(g.writers, ids, base, j);
    }
    forall j | 0 <= j < |ids| ensures cs[j].ok == ok {
      G.OutcomeAt(g.writers, ids, ok, base, j);
    }
  }

  lemma NextLeader(g: G.State, g': G.State, id: nat, n: nat, ok: bool, base: nat, last: nat, bgError: bool)
    requires G.Inv(g) && G.IsDone(g, g', id, n, ok, base, last, bgError) && g.queue[0] == id && id in g.pc
    ensures !G.HasGroup(Leader(g'))
  {
    G.DoneQueue(g, g', id, n, ok, base, last, bgError);
  }

  /** A leader without a batch, or without room, leaves alone. */
  lemma AloneMatches(g: G.State, g': G.State, s: State, id: nat, ok: bool)
    requires G.Inv(g) && G.IsRoom(g, g', id, ok) && !(ok && g.writers(id).batch.Some?) && Matches(g, s)
    ensures Matches(g', s)
  {
    hide G.Applied, G.OpsOf, EntriesOf, Batch, G.Outcome, G.Inv, G.IsGroup;
    G.HeadIs(g, id);
    assert g.queue[..1] == [id];
    NextLeader(g, g', id, 1, ok, g.last + 1, g.last, g.bgError);
    G.AloneInv(g, id, ok);
    NoEntries(g.last + 1);
    DoneHistory(g, g', s.core, s.core, [id], ok, g.last + 1);
    DoneSynced(g, g', s.core.promised, s.core.promised, [id], ok, g.last + 1);
  }

  lemma NoEntries(base: nat)
    ensures Elements(Batch([], base)) == iset{}
  {
  }

  /** When all operations are inserted, the inserted part is the whole batch. */
  lemma GroupIsWhole(g: G.State, id: nat)
    requires G.Inv(g) && id in g.pc && g.pc[id].Inserting? && 0 < g.pc[id].n <= |g.queue|
    requires g.pc[id].i == |G.GroupOps(g, g.pc[id].n)|
    ensures var pc, batch := g.pc[id], GroupBatch(g, g.pc[id]);
      && |batch| == pc.i && batch[..pc.i] == batch && G.SyncRespected(g.writers, g.queue[..pc.n])
      && g.queue[..pc.n][0] == id
  {
    hide G.OpsOf, G.Applied, G.LogInv, G.NumberInv, G.SnapshotInv, G.StatusInv, G.OrderInv;
    G.HeadIs(g, id);
  }

  lemma EndMatches(g: G.State, g': G.State, s: State, id: nat) returns (s': State)
    requires G.Inv(g) && G.IsFinish(g, g', id) && g.pc[id].Inserting? && Matches(g, s)
    ensures IsEndWrite(s, s') && Matches(g', s')
  {
    hide G.Applied, G.OpsOf, EntriesOf, Batch, G.Outcome, G.Inv;
    LeaderIs(g, s, id);
    var pc := g.pc[id];
    var ids, batch := g.queue[..pc.n], GroupBatch(g, pc);
    NextLeader(g, g', id, pc.n, true, pc.base, g'.last, g'.bgError);
    GroupIsWhole(g, id);
    s' := s.(core := s.core.(lastSequence := s.core.lastSequence + |batch|, history := s.core.history + Elements(batch),
                             promised := if s.core.write.sync then s.core.promised + Elements(batch)
                                         else s.core.promised,
                             synced := if s.core.write.sync && s.core.mem !in s.torn
                                       then s.core.synced + Elements(batch) else s.core.synced,
                             write := NoWrite));
    DoneHistory(g, g', s.core, s'.core, ids, true, pc.base);
    DoneSynced(g, g', s.core.promised, s'.core.promised, ids, true, pc.base);
  }

  lemma BatchLength(g: G.State, pc: G.Pc)
    requires G.HasGroup(pc) && pc.n <= |g.queue|
    ensures |GroupBatch(g, pc)| == |G.GroupOps(g, pc.n)|
  {
  }

  /** A group whose record was not written gives up its numbers. */
  lemma GiveUpMatches(g: G.State, g': G.State, s: State, id: nat) returns (s': State)
    requires G.Inv(g) && G.IsFinish(g, g', id) && g.pc[id].Failed? && !g.pc[id].syncError && Matches(g, s)
    requires s.core.mem in s.logs
    ensures IsFailWrite(s, s') && Matches(g', s')
  {
    hide G.Applied, G.OpsOf, EntriesOf, Batch, G.Outcome, G.Inv, G.GroupOps, SyncedMatches, HistoryMatches;
    LeaderIs(g, s, id);
    var pc := g.pc[id];
    NextLeader(g, g', id, pc.n, false, pc.base, g'.last, g'.bgError);
    BatchLength(g, pc);
    s' := s.(core := s.core.(lastSequence := LastNumber(s.core), write := NoWrite),
             torn := if s.core.mem in s.torn then s.torn else s.torn[s.core.mem := |s.logs[s.core.mem]|]);
    DoneHistory(g, g', s.core, s'.core, g.queue[..pc.n], false, pc.base);
    DoneSynced(g, g', s.core.promised, s'.core.promised, g.queue[..pc.n], false, pc.base);
  }

  /** After a failed sync the engine stays where it is: nothing is written any more. */
  lemma StuckMatches(g: G.State, g': G.State, s: State, id: nat)
    requires G.Inv(g) && G.IsFinish(g, g', id) && g.pc[id].Failed? && g.pc[id].syncError && Matches(g, s)
    ensures Matches(g', s)
  {
    hide G.Applied, G.OpsOf, EntriesOf, Batch, G.Outcome, G.Inv, G.GroupOps, SyncedMatches, HistoryMatches;
    LeaderIs(g, s, id);
    var pc := g.pc[id];
    NextLeader(g, g', id, pc.n, false, pc.base, g'.last, g'.bgError);
    BatchLength(g, pc);
    DoneHistory(g, g', s.core, s.core, g.queue[..pc.n], false, pc.base);
    DoneSynced(g, g', s.core.promised, s.core.promised, g.queue[..pc.n], false, pc.base);
  }

  // --- the simulation ----------------------------------------------------------------------------------

  /** The engine takes one write step, or none. */
  ghost predicate Moves(s: State, s': State, move: Option<Step>) {
    if move.None? then s' == s else IsWriteStep(move.value) && !move.value.SwitchMem? && Next(s, s', move.value)
  }

  /** A leader whose append failed gives up its group. */
  ghost predicate GivesUp(g: G.State, step: G.Step) {
    step.Finish? && step.id in g.pc && g.pc[step.id].Failed? && !g.pc[step.id].syncError
  }

  lemma Simulate(g: G.State, g': G.State, step: G.Step, s: State) returns (move: Option<Step>, s': State)
    requires G.Inv(g) && G.Next(g, g', step) && Matches(g, s) && Highest(g') < MAX_SEQUENCE
    requires s.core.mem in s.logs && s.core.mem in s.core.mems
    ensures Moves(s, s', move) && Matches(g', s') && (move == Some(FailWrite) ==> GivesUp(g, step))
  {
    hide G.Inv, Matches, G.IsEnqueue, G.IsLead, G.IsRoom, G.IsAppend, G.IsSync, G.IsInsert, G.IsFinish, G.IsReturn;
    hide G.IsTakeSnapshot;
    hide IsBeginWrite, IsLogWrite, IsSyncLog, IsInsertOne, IsEndWrite, IsFailWrite;
    move, s' := None, s;
    match step
    case Room(id, ok) =>
      if ok && g.writers(id).batch.Some? {
        s' := CollectMatches(g, g', s, id);
        move := Some(BeginWrite(s'.core.write.rest, s'.core.write.sync));
      } else {
        AloneMatches(g, g', s, id, ok);
      }
    case Append(id, ok) =>
      if ok {
        s' := AppendMatches(g, g', s, id);
        move := Some(LogWrite);
      } else {
        FailedMatches(g, g', s, id);
      }
    case Sync(id, ok) =>
      if ok {
        s' := SyncMatches(g, g', s, id);
        move := Some(SyncLog);
      } else {
        FailedMatches(g, g', s, id);
      }
    case Insert(id) =>
      s' := InsertMatches(g, g', s, id);
      move := Some(InsertOne);
    case Finish(id) =>
      move, s' := SimulateFinish(g, g', s, id);
    case Enqueue(_) => QueueMatches(g, g', step, s);
    case Lead(_) => QueueMatches(g, g', step, s);
    case Return(_) => QueueMatches(g, g', step, s);
    case TakeSnapshot => QueueMatches(g, g', step, s);
  }

  lemma QueueMatches(g: G.State, g': G.State, step: G.Step, s: State)
    requires G.Inv(g) && G.Next(g, g', step) && (step.Enqueue? || step.Lead? || step.Return? || step.TakeSnapshot?)
    requires Matches(g, s)
    ensures Matches(g', s)
  {
    hide G.Inv, Matches, G.Next;
    QueueStep(g, g', step);
    SameWorkMatches(g, g', s);
  }

  lemma FinishKinds(g: G.State, g': G.State, id: nat)
    requires G.IsFinish(g, g', id)
    ensures id in g.pc && (g.pc[id].Inserting? || g.pc[id].Failed?)
  {
  }

  lemma SimulateFinish(g: G.State, g': G.State, s: State, id: nat) returns (move: Option<Step>, s': State)
    requires G.Inv(g) && G.IsFinish(g, g', id) && Matches(g, s) && s.core.mem in s.logs
    ensures Moves(s, s', move) && Matches(g', s') && (move == Some(FailWrite) ==> GivesUp(g, G.Finish(id)))
  {
    hide G.Inv, Matches, G.IsFinish, IsEndWrite, IsFailWrite;
    FinishKinds(g, g', id);
    move, s' := None, s;
    if g.pc[id].Inserting? {
      s' := EndMatches(g, g', s, id);
      move := Some(EndWrite);
    } else if g.pc[id].syncError {
      StuckMatches(g, g', s, id);
    } else {
      s' := GiveUpMatches(g, g', s, id);
      move := Some(FailWrite);
    }
  }

  /** What a match depends on. */
  ghost predicate SameWrite(s: State, s': State) {
    && s'.core.history == s.core.history && s'.core.promised == s.core.promised && s'.core.write == s.core.write
    && s'.core.lastSequence == s.core.lastSequence && !s'.phase.Down?
    && (s.core.write.Writing? && s.core.mem in s.logs && s.core.mem in s.safe ==>
          s'.core.mem == s.core.mem && s.core.mem in s'.logs && s'.logs[s.core.mem] == s.logs[s.core.mem]
          && s.core.mem in s'.safe && s'.safe[s.core.mem] == s.safe[s.core.mem] && s'.torn == s.torn)
  }

  lemma OthersSameWrite(s: State, s': State, step: Step)
    requires !s.phase.Down? && LogInv(s) && Next(s, s', step) && !step.Crash? && (IsWriteStep(step) ==> step.SwitchMem?)
    ensures SameWrite(s, s')
  {
    hide LogFilesOk, MemLogOk, LogsNeeded, Accounted, Rebuilt, RecoveredLast;
  }

  lemma SameWriteMatches(g: G.State, s: State, s': State)
    requires Matches(g, s) && SameWrite(s, s')
    ensures Matches(g, s')
  {
    hide G.Applied, EntriesOf, GroupBatch, SyncedMatches;
  }

  /** Whatever else the engine does between crashes leaves the match as it is. */
  lemma OthersKeep(g: G.State, s: State, s': State, step: Step)
    requires Matches(g, s) && Inv(s) && Next(s, s', step) && !step.Crash? && (IsWriteStep(step) ==> step.SwitchMem?)
    ensures Matches(g, s')
  {
    OthersSameWrite(s, s', step);
    hide Inv, Next, SameWrite;
    SameWriteMatches(g, s, s');
  }

  // --- runs -----------------------------------------------------------------------------------------------

  /** A step of the queue, in the middle of any run of the engine that matches so far. */
  lemma StepInRun(g: G.State, g': G.State, step: G.Step, run: Run) returns (run': Run)
    requires G.Inv(g) && G.Next(g, g', step) && IsRun(run) && Matches(g, run.s) && Highest(g') < MAX_SEQUENCE
    ensures IsRun(run') && Continues(run', run) && Matches(g', run'.s)
    ensures AllAppended(run) && !GivesUp(g, step) ==> AllAppended(run')
  {
    hide IsRun, G.Inv, G.Next, Matches, Moves, Highest, GivesUp;
    LogIsThere(run);
    var move, s' := Simulate(g, g', step, run.s);
    run' := Moved(run, move, s');
  }

  lemma LogIsThere(run: Run)
    requires IsRun(run)
    ensures run.s.core.mem in run.s.logs && run.s.core.mem in run.s.core.mems
  {
    hide IsRun;
    RunInv(run);
    assert LogInv(run.s);
  }

  lemma Moved(run: Run, move: Option<Step>, s': State) returns (run': Run)
    requires IsRun(run) && Moves(run.s, s', move)
    ensures IsRun(run') && Continues(run', run) && run'.s == s'
    ensures AllAppended(run) && move != Some(FailWrite) ==> AllAppended(run')
  {
    hide Next;
    run' := if move.Some? then Then(run, move.value, s') else run;
  }

  lemma HighestRises(g: G.State, g': G.State, step: G.Step)
    requires G.Inv(g) && G.Next(g, g', step)
    ensures Highest(g) <= Highest(g')
  {
    hide G.Inv, G.Next, Highest;
    if step.Enqueue? || step.Lead? || step.Return? || step.TakeSnapshot? {
      QueueStep(g, g', step);
      SameWorkHighest(g, g');
    } else {
      LeaderHighest(g, g', step);
    }
  }

  lemma SameWorkHighest(g: G.State, g': G.State)
    requires SameWork(g, g')
    ensures Highest(g') == Highest(g)
  {
    hide G.GroupOps;
    if G.HasGroup(Leader(g)) {
      SameOps(g, g', Leader(g).n);
    }
  }

  lemma LeaderHighest(g: G.State, g': G.State, step: G.Step)
    requires G.Inv(g) && G.Next(g, g', step)
    requires step.Room? || step.Append? || step.Sync? || step.Insert? || step.Finish?
    ensures Highest(g) <= Highest(g')
  {
    hide G.MemInv, G.NumberInv, G.SnapshotInv, G.LogInv, G.LastRecordInv, G.StatusInv, G.OrderInv, G.OpsOf, G.Outcome;
    hide G.IsGroup, G.SyncRespected;
    G.HeadIs(g, step.id);
    assert g'.queue == g.queue ==> Leader(g') == g'.pc[step.id];
  }

  /** No append to the log has failed. */
  ghost predicate NoneFailed(past: G.Run) {
    past.Then? ==> NoneFailed(past.before) && !(past.step.Append? && !past.step.ok)
  }

  lemma {:induction false} NoneGivesUp(past: G.Run)
    requires G.IsRun(past) && NoneFailed(past)
    ensures forall id :: id in past.s.pc && past.s.pc[id].Failed? ==> past.s.pc[id].syncError
  {
    if past.Then? {
      NoneGivesUp(past.before);
      StepFails(past.before.s, past.s, past.step);
    }
  }

  lemma StepFails(g: G.State, g': G.State, step: G.Step)
    requires G.Next(g, g', step) && !(step.Append? && !step.ok)
    ensures forall id :: id in g'.pc && g'.pc[id].Failed? && !g'.pc[id].syncError ==>
              id in g.pc && g'.pc[id] == g.pc[id]
  {
    hide G.GroupOps, G.Outcome;
  }

  /**
   Every run of the writer queue is, step by step, a run of the engine; and without a
   failed append in the one there is none in the other.
   */
  lemma {:induction false} EveryGroupRun(past: G.Run) returns (run: Run)
    requires G.IsRun(past) && Highest(past.s) < MAX_SEQUENCE
    ensures IsRun(run) && Matches(past.s, run.s) && (NoneFailed(past) ==> AllAppended(run))
    decreases past
  {
    match past
    case Start(g) =>
      run := FirstQueueRun(g);
    case Then(before, step, g) =>
      hide IsRun, Matches, G.Inv, G.Next, Highest, AllAppended;
      G.RunInv(before);
      HighestRises(before.s, g, step);
      run := EveryGroupRun(before);
      if NoneFailed(before) {
        NoneGivesUp(before);
      }
      run := StepInRun(before.s, g, step, run);
  }

  lemma FirstQueueRun(g: G.State) returns (run: Run)
    requires G.Init(g)
    ensures IsRun(run) && Matches(g, run.s) && AllAppended(run)
  {
    run := FirstRun();
    assert Elements([]) == iset{};
  }

  /** Everything a writer that was told "ok" had in its batch is committed, whatever the engine did meanwhile. */
  lemma AcknowledgedIsCommitted(past: G.Run, id: nat, run: Run) returns (base: nat)
    requires G.IsRun(past) && Matches(past.s, run.s) && id in past.s.pc && past.s.pc[id] == G.Returned(true)
    ensures Elements(Batch(G.Ops(past.s.writers(id)), base)) <= run.s.core.history
    ensures past.s.writers(id).sync ==> Elements(Batch(G.Ops(past.s.writers(id)), base)) <= run.s.core.promised
  {
    var g := past.s;
    var k := G.AcknowledgedIsApplied(past, id);
    base := g.past[k].base;
    G.AppliedShare(g.writers, g.past, k, |g.past|);
    assert g.past[..|g.past|] == g.past;
    SliceIsPart(G.Applied(g.writers, g.past), |G.Applied(g.writers, g.past[..k])|,
                G.Numbered(G.Ops(g.writers(id)), base));
  }

  lemma SliceIsPart(all: seq<G.Stored>, at: nat, part: seq<G.Stored>)
    requires at + |part| <= |all| && all[at..at + |part|] == part
    ensures Elements(EntriesOf(part)) <= Elements(EntriesOf(all))
  {
    forall e | e in EntriesOf(part) ensures e in EntriesOf(all) {
      var i :| 0 <= i < |part| && e == EntriesOf(part)[i];
      assert all[at..at + |part|][i] == all[at + i] && EntriesOf(all)[at + i] == e;
    }
  }

  /**
   A write acknowledged with `sync` survives every crash that may follow, as a whole,
   unless an append to the log had failed before it (`Durability.SyncedLostExact`).
   */
  lemma AcknowledgedSurvives(past: G.Run, id: nat, run: Run, later: Run) returns (base: nat)
    requires G.IsRun(past) && Matches(past.s, run.s) && id in past.s.pc && past.s.pc[id] == G.Returned(true)
    requires past.s.writers(id).sync
    requires IsRun(run) && AllAppended(run) && IsRun(later) && Follows(later, run)
    ensures Elements(Batch(G.Ops(past.s.writers(id)), base)) <= later.s.core.history
  {
    hide Matches, G.IsRun, IsRun, Follows, AllAppended;
    base := AcknowledgedIsCommitted(past, id, run);
    PromiseKept(run);
    SyncedSurvive(later, run);
  }
}
