/**
 The writer queue (DBImpl::Write, DBImpl::BuildBatchGroup): a protocol between the
 threads that call Write.

 Each thread queues itself; the one at the front becomes the leader, commits a group
 of queued batches outside the mutex, and wakes the others.  Log appends and syncs
 may fail.
 */
module GroupCommit {
  import opened Keys
  import opened Spec

  datatype Op = Op(user: UserKey, kind: Kind, value: string)

  /** One call of Write: no batch asks for a memtable switch only. */
  datatype Writer = Writer(batch: Option<seq<Op>>, size: nat, sync: bool)

  /** An operation in the memtable with the sequence number it was given. */
  datatype Stored = Stored(seqno: nat, op: Op)

  function Ops(w: Writer): seq<Op> {
    if w.batch.Some? then w.batch.value else []
  }

  function AllOps(ws: seq<Writer>): seq<Op> {
    if ws == [] then [] else AllOps(ws[..|ws| - 1]) + Ops(ws[|ws| - 1])
  }

  // --- BuildBatchGroup ---------------------------------------------------------------

  const GROUP_LIMIT: nat := 0x10_0000
  const SMALL_BATCH: nat := 0x2_0000

  function MaxSize(first: nat): nat {
    if first <= SMALL_BATCH then first + SMALL_BATCH else GROUP_LIMIT
  }

  function TotalSize(ws: seq<Writer>): nat {
    if ws == [] then 0
    else TotalSize(ws[..|ws| - 1]) + (if ws[|ws| - 1].batch.Some? then ws[|ws| - 1].size else 0)
  }

  /** Writer `i` may join the group that `ws[0]` leads. */
  predicate MayJoin(ws: seq<Writer>, i: nat)
    requires 0 < i < |ws|
  {
    && (ws[i].sync ==> ws[0].sync)
    && (ws[i].batch.Some? ==> TotalSize(ws[..i + 1]) <= MaxSize(ws[0].size))
  }

  /** The leader's group: the longest run of writers at the front of the queue that may join. */
  ghost predicate IsGroup(ws: seq<Writer>, n: nat) {
    && 0 < n <= |ws| && ws[0].batch.Some?
    && (forall i :: 0 < i < n ==> MayJoin(ws, i))
    && (n < |ws| ==> !MayJoin(ws, n))
  }

  /** Collects the leader's group: how many writers, and their operations in queue order. */
  method BuildBatchGroup(ws: seq<Writer>) returns (n: nat, result: seq<Op>)
    requires ws != [] && ws[0].batch.Some?
    ensures IsGroup(ws, n) && result == AllOps(ws[..n])
  {
    var size := ws[0].size;
    var maxSize := if size <= SMALL_BATCH then size + SMALL_BATCH else GROUP_LIMIT;
    result := ws[0].batch.value;
    n := 1;
    assert ws[..1] == [ws[0]] && ws[..0] == [];
    while n < |ws|
      invariant 1 <= n <= |ws|
      invariant size == TotalSize(ws[..n]) && maxSize == MaxSize(ws[0].size)
      invariant result == AllOps(ws[..n])
      invariant forall i :: 0 < i < n ==> MayJoin(ws, i)
    {
      var w := ws[n];
      assert ws[..n + 1][..n] == ws[..n];
      if w.sync && !ws[0].sync {
        break;
      }
      if w.batch.Some? {
        size := size + w.size;
        if size > maxSize {
          break;
        }
        result := result + w.batch.value;
      }
      n := n + 1;
    }
  }

  /** The group does not depend on how it is found, and no sync write joins a leader that does not sync. */
  lemma GroupUnique(ws: seq<Writer>, m: nat, n: nat)
    requires IsGroup(ws, m) && IsGroup(ws, n)
    ensures m == n && forall i :: 0 <= i < n && ws[i].sync ==> ws[0].sync
  {
    forall i | 0 <= i < n && ws[i].sync ensures ws[0].sync {
      assert i > 0 ==> MayJoin(ws, i);
    }
  }

  // --- state ---------------------------------------------------------------------------

  /** Where a thread is in Write. */
  datatype Pc =
    | Waiting
    | MakingRoom
    | Appending(n: nat, base: nat)
    | Syncing(n: nat, base: nat)
    | Inserting(n: nat, base: nat, i: nat)
    | Failed(n: nat, base: nat, syncError: bool)
    | Returned(ok: bool)

  /** A finished writer: whether it succeeded, and its first sequence number. */
  datatype Commit = Commit(id: nat, ok: bool, base: nat)

  datatype Record = Record(base: nat, ops: seq<Op>, durable: bool)

  datatype State = State(
    writers: nat -> Writer,    // what each call of Write asks for
    pc: map<nat, Pc>,
    queue: seq<nat>,
    status: map<nat, bool>,    // done and status, as set by a leader for its followers
    last: nat,                 // versions_->LastSequence()
    log: seq<Record>,
    mem: seq<Stored>,
    bgError: bool,
    arrivals: seq<nat>,        // order of arrival
    past: seq<Commit>,         // order of completion
    snapshots: set<nat>)

  predicate Leading(pc: Pc) {
    !pc.Waiting? && !pc.Returned?
  }

  predicate HasGroup(pc: Pc) {
    pc.Appending? || pc.Syncing? || pc.Inserting? || pc.Failed?
  }

  function WritersOf(writers: nat -> Writer, ids: seq<nat>): (ws: seq<Writer>)
    ensures |ws| == |ids| && forall i :: 0 <= i < |ids| ==> ws[i] == writers(ids[i])
  {
    seq(|ids|, i requires 0 <= i < |ids| => writers(ids[i]))
  }

  function OpsOf(writers: nat -> Writer, ids: seq<nat>): seq<Op> {
    AllOps(WritersOf(writers, ids))
  }

  function Numbered(ops: seq<Op>, base: nat): (r: seq<Stored>)
    ensures |r| == |ops| && forall i :: 0 <= i < |ops| ==> r[i] == Stored(base + i, ops[i])
  {
    seq(|ops|, i requires 0 <= i < |ops| => Stored(base + i, ops[i]))
  }

  /** What each member of a finished group is told, and the numbers its batch got. */
  function Outcome(writers: nat -> Writer, ids: seq<nat>, ok: bool, base: nat): (cs: seq<Commit>)
    ensures |cs| == |ids|
  {
    if ids == [] then [] else
      var front := ids[..|ids| - 1];
      Outcome(writers, front, ok, base) + [Commit(ids[|ids| - 1], ok, base + |OpsOf(writers, front)|)]
  }

  // --- steps ------------------------------------------------------------------------------

  datatype Step =
    | Enqueue(id: nat)
    | Lead(id: nat)
    | Room(id: nat, ok: bool)
    | Append(id: nat, ok: bool)
    | Sync(id: nat, ok: bool)
    | Insert(id: nat)
    | Finish(id: nat)
    | Return(id: nat)
    | TakeSnapshot

  ghost predicate IsEnqueue(s: State, s': State, id: nat) {
    && id !in s.pc && id !in s.arrivals
    && s' == s.(pc := s.pc[id := Waiting], queue := s.queue + [id], arrivals := s.arrivals + [id])
  }

  /** The loop around `cv.Wait` ends because the thread is at the front of the queue. */
  ghost predicate IsLead(s: State, s': State, id: nat) {
    && id in s.pc && s.pc[id].Waiting? && id !in s.status && s.queue != [] && s.queue[0] == id
    && s' == s.(pc := s.pc[id := MakingRoom])
  }

  /** The leader pops its group, tells the followers, and returns. */
  ghost predicate IsDone(s: State, s': State, id: nat, n: nat, ok: bool, base: nat, last: nat, bgError: bool) {
    && 0 < n <= |s.queue|
    && s' == s.(pc := s.pc[id := Returned(ok)], queue := s.queue[n..],
                status := s.status + (map m | m in s.queue[..n] && m != id :: ok),
                last := last, bgError := bgError, past := s.past + Outcome(s.writers, s.queue[..n], ok, base))
  }

  /** MakeRoomForWrite returns; a successful leader with a batch collects its group. */
  ghost predicate IsRoom(s: State, s': State, id: nat, ok: bool) {
    && id in s.pc && s.pc[id].MakingRoom? && (s.bgError ==> !ok)
    && if ok && s.writers(id).batch.Some? then
         exists n :: IsGroup(WritersOf(s.writers, s.queue), n) && s' == s.(pc := s.pc[id := Appending(n, s.last + 1)])
       else
         IsDone(s, s', id, 1, ok, s.last + 1, s.last, s.bgError)
  }

  ghost function GroupOps(s: State, n: nat): seq<Op>
    requires n <= |s.queue|
  {
    OpsOf(s.writers, s.queue[..n])
  }

  /** AddRecord. */
  ghost predicate IsAppend(s: State, s': State, id: nat, ok: bool) {
    && id in s.pc && s.pc[id].Appending? && s.pc[id].n <= |s.queue|
    && var n, base := s.pc[id].n, s.pc[id].base;
       if ok then
         s' == s.(log := s.log + [Record(base, GroupOps(s, n), false)],
                  pc := s.pc[id := if s.writers(id).sync then Syncing(n, base) else Inserting(n, base, 0)])
       else
         s' == s.(pc := s.pc[id := Failed(n, base, false)])
  }

  /** Sync of the log file. */
  ghost predicate IsSync(s: State, s': State, id: nat, ok: bool) {
    && id in s.pc && s.pc[id].Syncing? && s.log != []
    && var n, base, k := s.pc[id].n, s.pc[id].base, |s.log| - 1;
       if ok then
         s' == s.(log := s.log[k := s.log[k].(durable := true)], pc := s.pc[id := Inserting(n, base, 0)])
       else
         s' == s.(pc := s.pc[id := Failed(n, base, true)])
  }

  /** InsertInto adds one operation. */
  ghost predicate IsInsert(s: State, s': State, id: nat) {
    && id in s.pc && s.pc[id].Inserting? && s.pc[id].n <= |s.queue| && s.pc[id].i < |GroupOps(s, s.pc[id].n)|
    && var n, base, i := s.pc[id].n, s.pc[id].base, s.pc[id].i;
       s' == s.(mem := s.mem + [Stored(base + i, GroupOps(s, n)[i])], pc := s.pc[id := Inserting(n, base, i + 1)])
  }

  /** Back under the mutex: SetLastSequence, then wake the group. */
  ghost predicate IsFinish(s: State, s': State, id: nat) {
    && id in s.pc && (s.pc[id].Inserting? || s.pc[id].Failed?) && s.pc[id].n <= |s.queue| && s.pc[id].base > 0
    && (s.pc[id].Inserting? ==> s.pc[id].i == |GroupOps(s, s.pc[id].n)|)
    && var n, base := s.pc[id].n, s.pc[id].base;
       IsDone(s, s', id, n, s.pc[id].Inserting?, base, base - 1 + |GroupOps(s, n)|,
              s.bgError || (s.pc[id].Failed? && s.pc[id].syncError))
  }

  /** A follower wakes up and finds itself done. */
  ghost predicate IsReturn(s: State, s': State, id: nat) {
    && id in s.pc && s.pc[id].Waiting? && id in s.status
    && s' == s.(pc := s.pc[id := Returned(s.status[id])])
  }

  ghost predicate IsTakeSnapshot(s: State, s': State) {
    s' == s.(snapshots := s.snapshots + {s.last})
  }

  ghost predicate Next(s: State, s': State, step: Step) {
    match step
    case Enqueue(id) => IsEnqueue(s, s', id)
    case Lead(id) => IsLead(s, s', id)
    case Room(id, ok) => IsRoom(s, s', id, ok)
    case Append(id, ok) => IsAppend(s, s', id, ok)
    case Sync(id, ok) => IsSync(s, s', id, ok)
    case Insert(id) => IsInsert(s, s', id)
    case Finish(id) => IsFinish(s, s', id)
    case Return(id) => IsReturn(s, s', id)
    case TakeSnapshot => IsTakeSnapshot(s, s')
  }

  ghost predicate Init(s: State) {
    s == State(s.writers, map[], [], map[], 0, [], [], false, [], [], {})
  }

  // --- invariant ----------------------------------------------------------------------------

  function Ids(cs: seq<Commit>): (ids: seq<nat>)
    ensures |ids| == |cs| && forall i :: 0 <= i < |cs| ==> ids[i] == cs[i].id
  {
    seq(|cs|, i requires 0 <= i < |cs| => cs[i].id)
  }

  ghost predicate NoRepeat(ids: seq<nat>) {
    forall i, j :: 0 <= i < j < |ids| ==> ids[i] != ids[j]
  }

  /** Writers finish in the order in which they came. */
  ghost predicate OrderInv(arrivals: seq<nat>, past: seq<Commit>, queue: seq<nat>) {
    arrivals == Ids(past) + queue && NoRepeat(arrivals)
  }

  /** Threads that are not at the front of the queue wait, or are done. */
  ghost predicate LeaderInv(pc: map<nat, Pc>, queue: seq<nat>) {
    forall id :: id in pc && Leading(pc[id]) ==> queue != [] && queue[0] == id
  }

  /** `c` tells the thread what it will return. */
  ghost predicate Told(past: seq<Commit>, id: nat, ok: bool) {
    exists k :: 0 <= k < |past| && past[k].id == id && past[k].ok == ok
  }

  ghost predicate StatusInv(s: State) {
    && (forall id :: id in s.arrivals <==> id in s.pc)
    && (forall id :: id in s.status ==> Told(s.past, id, s.status[id]))
    && (forall id :: id in s.pc && s.pc[id].Returned? ==> Told(s.past, id, s.pc[id].ok))
  }

  /** Where the thread at the front of the queue is. */
  function HeadPc(pc: map<nat, Pc>, queue: seq<nat>): Pc {
    if queue != [] && queue[0] in pc then pc[queue[0]] else Waiting
  }

  ghost predicate SyncRespected(writers: nat -> Writer, group: seq<nat>) {
    forall j :: 0 <= j < |group| && writers(group[j]).sync ==> writers(group[0]).sync
  }

  /** The leader's group is a front part of the queue that respects syncing. */
  ghost predicate GroupInv(writers: nat -> Writer, queue: seq<nat>, last: nat, pc: Pc) {
    HasGroup(pc) ==>
      && 0 < pc.n <= |queue| && pc.base == last + 1
      && SyncRespected(writers, queue[..pc.n])
      && (pc.Inserting? ==> pc.i <= |OpsOf(writers, queue[..pc.n])|)
  }

  /** What finished writers have put into the memtable. */
  function Applied(writers: nat -> Writer, past: seq<Commit>): seq<Stored> {
    if past == [] then [] else
      var c := past[|past| - 1];
      Applied(writers, past[..|past| - 1]) + (if c.ok then Numbered(Ops(writers(c.id)), c.base) else [])
  }

  /** What the leader has put there so far. */
  ghost function Partial(writers: nat -> Writer, queue: seq<nat>, pc: Pc): seq<Stored> {
    if pc.Inserting? && pc.n <= |queue| && pc.i <= |OpsOf(writers, queue[..pc.n])|
    then Numbered(OpsOf(writers, queue[..pc.n])[..pc.i], pc.base) else []
  }

  ghost predicate MemInv(writers: nat -> Writer, past: seq<Commit>, queue: seq<nat>, pc: Pc, mem: seq<Stored>) {
    mem == Applied(writers, past) + Partial(writers, queue, pc)
  }

  function Size(writers: nat -> Writer, c: Commit): nat {
    |Ops(writers(c.id))|
  }

  /** Successful batches got disjoint, ascending runs of sequence numbers, all of them accounted for in `last`. */
  ghost predicate NumberInv(writers: nat -> Writer, past: seq<Commit>, last: nat) {
    && (forall k :: 0 <= k < |past| && past[k].ok ==>
          0 < past[k].base && past[k].base + Size(writers, past[k]) <= last + 1)
    && (forall j, k :: 0 <= j < k < |past| && past[j].ok && past[k].ok
          ==> past[j].base + Size(writers, past[j]) <= past[k].base)
  }

  /** Snapshot `x` sees all of the batch of `c` or nothing of it. */
  predicate Whole(writers: nat -> Writer, c: Commit, x: nat) {
    c.base + Size(writers, c) <= x + 1 || x < c.base
  }

  ghost predicate SnapshotInv(writers: nat -> Writer, past: seq<Commit>, last: nat, snapshots: set<nat>) {
    && (forall x :: x in snapshots ==> x <= last)
    && forall x, k :: x in snapshots && 0 <= k < |past| && past[k].ok ==> Whole(writers, past[k], x)
  }

  /** The record holds the whole batch of `c`, under the numbers it was given. */
  ghost predicate Holds(writers: nat -> Writer, r: Record, c: Commit) {
    && r.base <= c.base && c.base + Size(writers, c) <= r.base + |r.ops|
    && r.ops[c.base - r.base..c.base - r.base + Size(writers, c)] == Ops(writers(c.id))
  }

  ghost predicate Logged(writers: nat -> Writer, log: seq<Record>, c: Commit) {
    exists i :: 0 <= i < |log| && Holds(writers, log[i], c) && (writers(c.id).sync ==> log[i].durable)
  }

  /** Every successful batch is in the log, and durable if its writer asked for that. */
  ghost predicate LogInv(writers: nat -> Writer, log: seq<Record>, past: seq<Commit>) {
    forall k :: 0 <= k < |past| && past[k].ok && writers(past[k].id).batch.Some? ==> Logged(writers, log, past[k])
  }

  /** The last record is that of the group being synced or inserted. */
  ghost predicate LastRecordInv(writers: nat -> Writer, queue: seq<nat>, log: seq<Record>, pc: Pc) {
    pc.Syncing? || pc.Inserting? ==>
      && log != [] && 0 < pc.n <= |queue|
      && log[|log| - 1].base == pc.base && log[|log| - 1].ops == OpsOf(writers, queue[..pc.n])
      && (pc.Inserting? && writers(queue[0]).sync ==> log[|log| - 1].durable)
  }

  ghost predicate Inv(s: State) {
    && OrderInv(s.arrivals, s.past, s.queue) && LeaderInv(s.pc, s.queue) && StatusInv(s)
    && GroupInv(s.writers, s.queue, s.last, HeadPc(s.pc, s.queue))
    && MemInv(s.writers, s.past, s.queue, HeadPc(s.pc, s.queue), s.mem)
    && NumberInv(s.writers, s.past, s.last) && SnapshotInv(s.writers, s.past, s.last, s.snapshots)
    && LogInv(s.writers, s.log, s.past)
    && LastRecordInv(s.writers, s.queue, s.log, HeadPc(s.pc, s.queue))
  }

  // --- the group as a sequence of batches -------------------------------------------------------

  lemma OpsSnoc(writers: nat -> Writer, ids: seq<nat>, k: nat)
    requires k < |ids|
    ensures OpsOf(writers, ids[..k + 1]) == OpsOf(writers, ids[..k]) + Ops(writers(ids[k]))
  {
    assert WritersOf(writers, ids[..k + 1])[..k] == WritersOf(writers, ids[..k]);
  }

  lemma {:induction false} OutcomeAt(writers: nat -> Writer, ids: seq<nat>, ok: bool, base: nat, k: nat)
    requires k < |ids|
    ensures Outcome(writers, ids, ok, base)[k] == Commit(ids[k], ok, base + |OpsOf(writers, ids[..k])|)
  {
    var front := ids[..|ids| - 1];
    if k < |front| {
      OutcomeAt(writers, front, ok, base, k);
      assert front[..k] == ids[..k];
    }
  }

  lemma NumberedConcat(a: seq<Op>, b: seq<Op>, base: nat)
    ensures Numbered(a + b, base) == Numbered(a, base) + Numbered(b, base + |a|)
  {
  }

  lemma AppliedSnoc(writers: nat -> Writer, past: seq<Commit>, c: Commit)
    ensures Applied(writers, past + [c])
            == Applied(writers, past) + (if c.ok then Numbered(Ops(writers(c.id)), c.base) else [])
  {
    assert (past + [c])[..|past|] == past;
  }

  lemma Regroup<T>(a: seq<T>, b: seq<T>, c: seq<T>)
    ensures (a + b) + c == a + (b + c)
  {
  }

  /** Finishing a group applies its batches, in queue order, under consecutive numbers; or nothing. */
  lemma {:induction false} AppliedOutcome(writers: nat -> Writer, past: seq<Commit>, ids: seq<nat>, ok: bool, base: nat)
    ensures Applied(writers, past + Outcome(writers, ids, ok, base))
            == Applied(writers, past) + (if ok then Numbered(OpsOf(writers, ids), base) else [])
  {
    hide Applied, Numbered, OpsOf;
    if ids == [] {
      assert past + Outcome(writers, ids, ok, base) == past;
      NothingNumbered(writers, base);
    } else {
      var front, last := ids[..|ids| - 1], ids[|ids| - 1];
      var ops, c := OpsOf(writers, front), Commit(last, ok, base + |OpsOf(writers, front)|);
      AppliedOutcome(writers, past, front, ok, base);
      Regroup(past, Outcome(writers, front, ok, base), [c]);
      AppliedSnoc(writers, past + Outcome(writers, front, ok, base), c);
      OpsSnoc(writers, ids, |front|);
      assert ids[..|ids|] == ids && ids[..|front|] == front;
      NumberedConcat(ops, Ops(writers(last)), base);
      Regroup(Applied(writers, past), Numbered(ops, base), Numbered(Ops(writers(last)), c.base));
    }
  }

  lemma NothingNumbered(writers: nat -> Writer, base: nat)
    ensures Numbered(OpsOf(writers, []), base) == []
  {
  }

  /** A member's share of the group lies inside it. */
  lemma {:induction false} Share(writers: nat -> Writer, ids: seq<nat>, k: nat, n: nat)
    requires k < n <= |ids|
    ensures |OpsOf(writers, ids[..k])| + |Ops(writers(ids[k]))| <= |OpsOf(writers, ids[..n])|
    ensures OpsOf(writers, ids[..n])[|OpsOf(writers, ids[..k])|..|OpsOf(writers, ids[..k])| + |Ops(writers(ids[k]))|]
            == Ops(writers(ids[k]))
  {
    OpsSnoc(writers, ids, n - 1);
    if k < n - 1 {
      Share(writers, ids, k, n - 1);
    }
  }

  // --- every step keeps the invariant ---------------------------------------------------------------

  lemma InitInv(s: State)
    requires Init(s)
    ensures Inv(s)
  {
  }

  lemma EnqueueInv(s: State, s': State, id: nat)
    requires Inv(s) && IsEnqueue(s, s', id)
    ensures Inv(s')
  {
    var pc := HeadPc(s.pc, s.queue);
    assert s.queue != [] ==> s.queue[0] in s.arrivals;
    assert HeadPc(s'.pc, s'.queue) == pc;
    if HasGroup(pc) {
      assert s'.queue[..pc.n] == s.queue[..pc.n];
    }
    assert OrderInv(s'.arrivals, s'.past, s'.queue) by {
      Regroup(Ids(s.past), s.queue, [id]);
    }
  }

  /** Only the leader moved. */
  lemma MoveHead(s: State, s': State, id: nat, pc: Pc)
    requires LeaderInv(s.pc, s.queue) && StatusInv(s) && id in s.pc && s.queue != [] && s.queue[0] == id && Leading(pc)
    requires s'.pc == s.pc[id := pc] && s'.queue == s.queue && s'.arrivals == s.arrivals && s'.past == s.past
    requires s'.status == s.status
    ensures LeaderInv(s'.pc, s'.queue) && StatusInv(s') && HeadPc(s'.pc, s'.queue) == pc
  {
  }

  lemma HeadIs(s: State, id: nat)
    requires Inv(s) && id in s.pc && Leading(s.pc[id])
    ensures s.queue != [] && s.queue[0] == id && HeadPc(s.pc, s.queue) == s.pc[id]
  {
  }

  lemma LeadInv(s: State, s': State, id: nat)
    requires Inv(s) && IsLead(s, s', id)
    ensures Inv(s')
  {
    MoveHead(s, s', id, MakingRoom);
    hide LeaderInv, StatusInv, OrderInv, NumberInv, SnapshotInv, LogInv, Applied;
  }

  lemma AppendInv(s: State, s': State, id: nat, ok: bool)
    requires Inv(s) && IsAppend(s, s', id, ok)
    ensures Inv(s')
  {
    hide LeaderInv, StatusInv, OrderInv, NumberInv, SnapshotInv, LogInv, Applied, OpsOf, SyncRespected, HeadPc;
    HeadIs(s, id);
    MoveHead(s, s', id, s'.pc[id]);
    LogGrows(s, s');
    assert s'.log != s.log ==> s'.log[|s'.log| - 1] == Record(s.pc[id].base, GroupOps(s, s.pc[id].n), false);
  }

  lemma LogGrows(s: State, s': State)
    requires LogInv(s.writers, s.log, s.past) && s'.writers == s.writers && s'.past == s.past
    requires |s.log| <= |s'.log| && forall i :: 0 <= i < |s.log| ==>
               s'.log[i].base == s.log[i].base && s'.log[i].ops == s.log[i].ops
    requires forall i :: 0 <= i < |s.log| && s.log[i].durable ==> s'.log[i].durable
    ensures LogInv(s'.writers, s'.log, s'.past)
  {
    forall k | 0 <= k < |s.past| && s.past[k].ok && s.writers(s.past[k].id).batch.Some?
      ensures Logged(s.writers, s'.log, s.past[k])
    {
      var c := s.past[k];
      var i :| 0 <= i < |s.log| && Holds(s.writers, s.log[i], c) && (s.writers(c.id).sync ==> s.log[i].durable);
      assert Holds(s.writers, s'.log[i], c);
    }
  }

  lemma SyncInv(s: State, s': State, id: nat, ok: bool)
    requires Inv(s) && IsSync(s, s', id, ok)
    ensures Inv(s')
  {
    hide LeaderInv, StatusInv, OrderInv, NumberInv, SnapshotInv, LogInv, Applied, OpsOf, SyncRespected, HeadPc;
    HeadIs(s, id);
    MoveHead(s, s', id, s'.pc[id]);
    LogGrows(s, s');
    assert ok ==> s'.log[|s'.log| - 1] == s.log[|s.log| - 1].(durable := true);
  }

  lemma InsertInv(s: State, s': State, id: nat)
    requires Inv(s) && IsInsert(s, s', id)
    ensures Inv(s')
  {
    hide LeaderInv, StatusInv, OrderInv, NumberInv, SnapshotInv, LogInv, MemInv, OpsOf, SyncRespected, HeadPc;
    var pc := s.pc[id];
    HeadIs(s, id);
    MoveHead(s, s', id, Inserting(pc.n, pc.base, pc.i + 1));
    MemStep(s.writers, s.past, s.queue, pc, s.mem);
  }

  lemma MemStep(writers: nat -> Writer, past: seq<Commit>, queue: seq<nat>, pc: Pc, mem: seq<Stored>)
    requires MemInv(writers, past, queue, pc, mem) && pc.Inserting? && pc.n <= |queue|
    requires pc.i < |OpsOf(writers, queue[..pc.n])|
    ensures MemInv(writers, past, queue, Inserting(pc.n, pc.base, pc.i + 1),
                   mem + [Stored(pc.base + pc.i, OpsOf(writers, queue[..pc.n])[pc.i])])
  {
    var ops := OpsOf(writers, queue[..pc.n]);
    hide Applied, OpsOf;
    var e := Stored(pc.base + pc.i, ops[pc.i]);
    assert Numbered(ops[..pc.i + 1], pc.base) == Numbered(ops[..pc.i], pc.base) + [e];
    Regroup(Applied(writers, past), Numbered(ops[..pc.i], pc.base), [e]);
  }

  lemma ReturnInv(s: State, s': State, id: nat)
    requires Inv(s) && IsReturn(s, s', id)
    ensures Inv(s')
  {
    NotQueued(s, id);
  }

  /** A thread that was told its result has left the queue. */
  lemma NotQueued(s: State, id: nat)
    requires Inv(s) && id in s.status
    ensures id !in s.queue
  {
    var k :| 0 <= k < |s.past| && s.past[k].id == id;
    assert s.arrivals[k] == id;
    forall j | 0 <= j < |s.queue| ensures s.queue[j] != id {
      assert s.arrivals[|s.past| + j] == s.queue[j];
    }
  }

  lemma SnapshotTakenInv(s: State, s': State)
    requires Inv(s) && IsTakeSnapshot(s, s')
    ensures Inv(s')
  {
  }

  // --- finishing a group ---------------------------------------------------------------------------

  lemma {:induction false} OutcomeIds(writers: nat -> Writer, ids: seq<nat>, ok: bool, base: nat)
    ensures Ids(Outcome(writers, ids, ok, base)) == ids
  {
    forall k | 0 <= k < |ids| ensures Ids(Outcome(writers, ids, ok, base))[k] == ids[k] {
      OutcomeAt(writers, ids, ok, base, k);
    }
  }

  lemma DoneOrder(arrivals: seq<nat>, past: seq<Commit>, queue: seq<nat>, n: nat, cs: seq<Commit>)
    requires OrderInv(arrivals, past, queue) && n <= |queue| && Ids(cs) == queue[..n]
    ensures OrderInv(arrivals, past + cs, queue[n..])
  {
    assert Ids(past + cs) == Ids(past) + Ids(cs);
    assert queue == queue[..n] + queue[n..];
    Regroup(Ids(past), queue[..n], queue[n..]);
  }

  lemma DoneNumbers(writers: nat -> Writer, past: seq<Commit>, last: nat, ids: seq<nat>, ok: bool, last': nat,
                    snapshots: set<nat>)
    requires NumberInv(writers, past, last) && SnapshotInv(writers, past, last, snapshots) && last <= last'
    requires ok ==> last' == last + |OpsOf(writers, ids)|
    ensures NumberInv(writers, past + Outcome(writers, ids, ok, last + 1), last')
    ensures SnapshotInv(writers, past + Outcome(writers, ids, ok, last + 1), last', snapshots)
  {
    hide OpsOf, Outcome, Applied;
    var cs := Outcome(writers, ids, ok, last + 1);
    forall k | 0 <= k < |ids|
      ensures cs[k].ok == ok && cs[k].id == ids[k]
      ensures ok ==> last + 1 <= cs[k].base && cs[k].base + Size(writers, cs[k]) <= last' + 1
    {
      OutcomeAt(writers, ids, ok, last + 1, k);
      Share(writers, ids, k, |ids|);
      assert ids[..|ids|] == ids;
    }
    forall j, k | 0 <= j < k < |ids| && ok ensures cs[j].base + Size(writers, cs[j]) <= cs[k].base {
      OutcomeAt(writers, ids, ok, last + 1, j);
      OutcomeAt(writers, ids, ok, last + 1, k);
      Share(writers, ids, j, k);
    }
  }

  lemma DoneLogged(writers: nat -> Writer, log: seq<Record>, past: seq<Commit>, ids: seq<nat>, ok: bool, base: nat)
    requires LogInv(writers, log, past)
    requires ok && (exists j :: 0 <= j < |ids| && writers(ids[j]).batch.Some?) ==>
               log != [] && log[|log| - 1].base == base && log[|log| - 1].ops == OpsOf(writers, ids)
    requires ok ==> forall j :: 0 <= j < |ids| && writers(ids[j]).batch.Some? && writers(ids[j]).sync ==>
               log[|log| - 1].durable
    ensures LogInv(writers, log, past + Outcome(writers, ids, ok, base))
  {
    var cs := Outcome(writers, ids, ok, base);
    forall k | 0 <= k < |ids| && cs[k].ok && writers(cs[k].id).batch.Some? ensures Logged(writers, log, cs[k]) {
      OutcomeAt(writers, ids, ok, base, k);
      Share(writers, ids, k, |ids|);
      assert ids[..|ids|] == ids;
      assert Holds(writers, log[|log| - 1], cs[k]);
    }
  }

  lemma DoneStatus(s: State, s': State, id: nat, n: nat, ok: bool, base: nat, last: nat, bgError: bool)
    requires StatusInv(s) && IsDone(s, s', id, n, ok, base, last, bgError) && s.queue[0] == id && id in s.pc
    ensures StatusInv(s')
  {
    var ids := s.queue[..n];
    var cs := Outcome(s.writers, ids, ok, base);
    forall j | 0 <= j < n ensures Told(s'.past, ids[j], ok) {
      OutcomeAt(s.writers, ids, ok, base, j);
      assert s'.past[|s.past| + j] == cs[j];
    }
    forall x, b | Told(s.past, x, b) ensures Told(s'.past, x, b) {
      var k :| 0 <= k < |s.past| && s.past[k].id == x && s.past[k].ok == b;
      assert s'.past[k] == s.past[k];
    }
    assert ids[0] == id;
    forall x | x in s'.status ensures Told(s'.past, x, s'.status[x]) {
      if x in ids && x != id {
        var j :| 0 <= j < n && ids[j] == x;
      }
    }
  }

  lemma DoneQueue(s: State, s': State, id: nat, n: nat, ok: bool, base: nat, last: nat, bgError: bool)
    requires OrderInv(s.arrivals, s.past, s.queue) && LeaderInv(s.pc, s.queue) && StatusInv(s)
    requires IsDone(s, s', id, n, ok, base, last, bgError) && s.queue[0] == id && id in s.pc
    ensures OrderInv(s'.arrivals, s'.past, s'.queue) && LeaderInv(s'.pc, s'.queue) && StatusInv(s')
    ensures !Leading(HeadPc(s'.pc, s'.queue))
  {
    hide OrderInv, StatusInv, LeaderInv, Outcome, Ids;
    OutcomeIds(s.writers, s.queue[..n], ok, base);
    DoneOrder(s.arrivals, s.past, s.queue, n, Outcome(s.writers, s.queue[..n], ok, base));
    DoneStatus(s, s', id, n, ok, base, last, bgError);
    NewHead(s, s', id, n);
  }

  lemma DoneMem(writers: nat -> Writer, past: seq<Commit>, ids: seq<nat>, ok: bool, base: nat, mem: seq<Stored>,
                queue: seq<nat>, pc: Pc)
    requires mem == Applied(writers, past) + (if ok then Numbered(OpsOf(writers, ids), base) else []) && !Leading(pc)
    ensures MemInv(writers, past + Outcome(writers, ids, ok, base), queue, pc, mem)
  {
    hide OpsOf, Outcome, Applied, Numbered;
    AppliedOutcome(writers, past, ids, ok, base);
  }

  /** Leaving the queue: the first `n` writers finish with `ok`. */
  lemma DoneInv(s: State, s': State, id: nat, n: nat, ok: bool, last: nat, bgError: bool)
    requires Inv(s) && IsDone(s, s', id, n, ok, s.last + 1, last, bgError) && s.queue[0] == id && id in s.pc
    requires s.last <= last && (ok ==> last == s.last + |OpsOf(s.writers, s.queue[..n])|)
    requires s.mem
             == Applied(s.writers, s.past) + (if ok then Numbered(OpsOf(s.writers, s.queue[..n]), s.last + 1) else [])
    requires LogInv(s.writers, s.log, s.past + Outcome(s.writers, s.queue[..n], ok, s.last + 1))
    ensures Inv(s')
  {
    hide OpsOf, Outcome, Applied, Numbered, LogInv, NumberInv, SnapshotInv, OrderInv, StatusInv, LeaderInv, MemInv;
    hide SyncRespected, HeadPc;
    DoneQueue(s, s', id, n, ok, s.last + 1, last, bgError);
    DoneNumbers(s.writers, s.past, s.last, s.queue[..n], ok, last, s.snapshots);
    DoneMem(s.writers, s.past, s.queue[..n], ok, s.last + 1, s.mem, s'.queue, HeadPc(s'.pc, s'.queue));
  }

  /** The thread that comes to the front has not started. */
  lemma NewHead(s: State, s': State, id: nat, n: nat)
    requires OrderInv(s.arrivals, s.past, s.queue) && LeaderInv(s.pc, s.queue) && id in s.pc && s.queue != []
    requires s.queue[0] == id
    requires 0 < n <= |s.queue| && s'.queue == s.queue[n..] && exists ok :: s'.pc == s.pc[id := Returned(ok)]
    ensures LeaderInv(s'.pc, s'.queue) && !Leading(HeadPc(s'.pc, s'.queue))
  {
    if s'.queue != [] {
      assert s.arrivals[|s.past|] == id && s.arrivals[|s.past| + n] == s'.queue[0];
    }
  }

  lemma RoomInv(s: State, s': State, id: nat, ok: bool)
    requires Inv(s) && IsRoom(s, s', id, ok)
    ensures Inv(s')
  {
    if ok && s.writers(id).batch.Some? {
      var ws := WritersOf(s.writers, s.queue);
      var n: nat :| IsGroup(ws, n) && s' == s.(pc := s.pc[id := Appending(n, s.last + 1)]);
      GroupSyncs(s.writers, s.queue, n);
      MoveHead(s, s', id, Appending(n, s.last + 1));
      hide LeaderInv, StatusInv, OrderInv, NumberInv, SnapshotInv, LogInv, Applied, OpsOf, SyncRespected, IsGroup;
      hide IsDone;
    } else {
      var ids := s.queue[..1];
      assert s.queue[0] == id && ids == [id];
      AloneInv(s, id, ok);
      DoneInv(s, s', id, 1, ok, s.last, s.bgError);
    }
  }

  lemma GroupSyncs(writers: nat -> Writer, queue: seq<nat>, n: nat)
    requires IsGroup(WritersOf(writers, queue), n)
    ensures n <= |queue| && SyncRespected(writers, queue[..n])
  {
    GroupUnique(WritersOf(writers, queue), n, n);
  }

  lemma AloneInv(s: State, id: nat, ok: bool)
    requires Inv(s) && id in s.pc && s.pc[id].MakingRoom? && (ok ==> s.writers(id).batch.None?) && s.queue[..1] == [id]
    ensures ok ==> OpsOf(s.writers, s.queue[..1]) == []
    ensures s.mem
            == Applied(s.writers, s.past) + (if ok then Numbered(OpsOf(s.writers, s.queue[..1]), s.last + 1) else [])
    ensures LogInv(s.writers, s.log, s.past + Outcome(s.writers, s.queue[..1], ok, s.last + 1))
  {
    assert [id][..1] == [id] && [id][..0] == [];
    OpsSnoc(s.writers, [id], 0);
    DoneLogged(s.writers, s.log, s.past, [id], ok, s.last + 1);
  }

  lemma FinishInv(s: State, s': State, id: nat)
    requires Inv(s) && IsFinish(s, s', id)
    ensures Inv(s')
  {
    hide Inv, OpsOf, Outcome, Applied, Numbered, LogInv, LastRecordInv, SyncRespected;
    var pc := s.pc[id];
    FinishHead(s, id);
    FinishLogged(s.writers, s.log, s.past, s.queue, pc);
    DoneInv(s, s', id, pc.n, pc.Inserting?, pc.base - 1 + |GroupOps(s, pc.n)|,
            s.bgError || (pc.Failed? && pc.syncError));
  }

  lemma FinishHead(s: State, id: nat)
    requires Inv(s) && id in s.pc && (s.pc[id].Inserting? || s.pc[id].Failed?) && s.pc[id].n <= |s.queue|
    requires s.pc[id].Inserting? ==> s.pc[id].i == |GroupOps(s, s.pc[id].n)|
    ensures s.queue != [] && s.queue[0] == id && s.pc[id].base == s.last + 1
    ensures 0 < s.pc[id].n && SyncRespected(s.writers, s.queue[..s.pc[id].n])
    ensures LastRecordInv(s.writers, s.queue, s.log, s.pc[id])
    ensures LogInv(s.writers, s.log, s.past)
    ensures var pc := s.pc[id];
      s.mem == Applied(s.writers, s.past)
               + (if pc.Inserting? then Numbered(OpsOf(s.writers, s.queue[..pc.n]), s.last + 1) else [])
  {
    hide OpsOf, Applied, Numbered, LogInv, NumberInv, SnapshotInv, StatusInv, OrderInv, SyncRespected, LastRecordInv;
    var pc := s.pc[id];
    assert s.queue[0] == id && HeadPc(s.pc, s.queue) == pc;
    if pc.Inserting? {
      var ops := OpsOf(s.writers, s.queue[..pc.n]);
      assert ops[..pc.i] == ops;
    }
  }

  lemma FinishLogged(writers: nat -> Writer, log: seq<Record>, past: seq<Commit>, queue: seq<nat>, pc: Pc)
    requires LogInv(writers, log, past) && LastRecordInv(writers, queue, log, pc) && (pc.Inserting? || pc.Failed?)
    requires 0 < pc.n <= |queue| && SyncRespected(writers, queue[..pc.n])
    ensures LogInv(writers, log, past + Outcome(writers, queue[..pc.n], pc.Inserting?, pc.base))
  {
    assert queue[..pc.n][0] == queue[0];
    DoneLogged(writers, log, past, queue[..pc.n], pc.Inserting?, pc.base);
  }

  lemma NextInv(s: State, s': State, step: Step)
    requires Inv(s) && Next(s, s', step)
    ensures Inv(s')
  {
    hide Inv;
    match step
    case Enqueue(id) => EnqueueInv(s, s', id);
    case Lead(id) => LeadInv(s, s', id);
    case Room(id, ok) => RoomInv(s, s', id, ok);
    case Append(id, ok) => AppendInv(s, s', id, ok);
    case Sync(id, ok) => SyncInv(s, s', id, ok);
    case Insert(id) => InsertInv(s, s', id);
    case Finish(id) => FinishInv(s, s', id);
    case Return(id) => ReturnInv(s, s', id);
    case TakeSnapshot => SnapshotTakenInv(s, s');
  }

  // --- every run ---------------------------------------------------------------------------------------

  datatype Run = Start(s: State) | Then(before: Run, step: Step, s: State)

  ghost predicate IsRun(run: Run) {
    match run
    case Start(s) => Init(s)
    case Then(before, step, s) => IsRun(before) && Next(before.s, s, step)
  }

  lemma {:induction false} RunInv(run: Run)
    requires IsRun(run)
    ensures Inv(run.s)
  {
    match run
    case Start(s) => InitInv(s);
    case Then(before, step, s) =>
      RunInv(before);
      NextInv(before.s, s, step);
  }

  /** At most one thread is ever past the queue and not yet back. */
  lemma OneLeader(run: Run, a: nat, b: nat)
    requires IsRun(run) && a in run.s.pc && b in run.s.pc && Leading(run.s.pc[a]) && Leading(run.s.pc[b])
    ensures a == b
  {
    RunInv(run);
  }

  /** The whole batch of `id` is in the memtable from position `at` on, under consecutive sequence numbers. */
  ghost predicate AppliedAt(s: State, id: nat, at: nat, base: nat) {
    at + |Ops(s.writers(id))| <= |s.mem| && s.mem[at..at + |Ops(s.writers(id))|] == Numbered(Ops(s.writers(id)), base)
  }

  lemma {:induction false} AppliedShare(writers: nat -> Writer, past: seq<Commit>, k: nat, m: nat)
    requires k < m <= |past| && past[k].ok
    ensures var at, all := |Applied(writers, past[..k])|, Applied(writers, past[..m]);
            && at + Size(writers, past[k]) <= |all|
            && all[at..at + Size(writers, past[k])] == Numbered(Ops(writers(past[k].id)), past[k].base)
  {
    assert past[..m][..m - 1] == past[..m - 1];
    if k < m - 1 {
      AppliedShare(writers, past, k, m - 1);
    }
  }

  /**
   Every write that was acknowledged is in the memtable once, as a whole, at the place
   its arrival gives it: after exactly the successful batches that came before it.
   */
  lemma AcknowledgedIsApplied(run: Run, id: nat) returns (k: nat)
    requires IsRun(run) && id in run.s.pc && run.s.pc[id] == Returned(true)
    ensures k < |run.s.past| && k < |run.s.arrivals| && run.s.arrivals[k] == id && run.s.past[k].id == id
    ensures run.s.past[k].ok
    ensures AppliedAt(run.s, id, |Applied(run.s.writers, run.s.past[..k])|, run.s.past[k].base)
  {
    RunInv(run);
    k := PastOf(run.s, id);
    SlotOf(run.s, k);
  }

  lemma PastOf(s: State, id: nat) returns (k: nat)
    requires Inv(s) && id in s.pc && s.pc[id] == Returned(true)
    ensures k < |s.past| && k < |s.arrivals| && s.arrivals[k] == id && s.past[k].id == id && s.past[k].ok
  {
    hide GroupInv, MemInv, NumberInv, SnapshotInv, LogInv, LastRecordInv;
    k :| 0 <= k < |s.past| && s.past[k].id == id && s.past[k].ok;
  }

  lemma SlotOf(s: State, k: nat)
    requires MemInv(s.writers, s.past, s.queue, HeadPc(s.pc, s.queue), s.mem) && k < |s.past| && s.past[k].ok
    ensures AppliedAt(s, s.past[k].id, |Applied(s.writers, s.past[..k])|, s.past[k].base)
  {
    AppliedShare(s.writers, s.past, k, |s.past|);
    assert s.past[..|s.past|] == s.past;
    hide Applied, Numbered, Partial;
  }

  /** With no group being inserted, the memtable holds the successful batches in arrival order and nothing else. */
  lemma NothingElseIsApplied(run: Run)
    requires IsRun(run) && !HeadPc(run.s.pc, run.s.queue).Inserting?
    ensures run.s.mem == Applied(run.s.writers, run.s.past) && run.s.arrivals == Ids(run.s.past) + run.s.queue
  {
    RunInv(run);
  }

  /** No two successful batches share a sequence number, and later arrivals get larger ones. */
  lemma NumbersAreDisjoint(run: Run, j: nat, k: nat)
    requires IsRun(run) && j < k < |run.s.past| && run.s.past[j].ok && run.s.past[k].ok
    ensures run.s.past[j].base + Size(run.s.writers, run.s.past[j]) <= run.s.past[k].base
    ensures run.s.past[k].base + Size(run.s.writers, run.s.past[k]) <= run.s.last + 1
  {
    RunInv(run);
  }

  /** A snapshot taken at any time sees each batch whole or not at all. */
  lemma SnapshotsSeeWholeBatches(run: Run, x: nat, k: nat)
    requires IsRun(run) && x in run.s.snapshots && k < |run.s.past| && run.s.past[k].ok
    ensures var batch := Numbered(Ops(run.s.writers(run.s.past[k].id)), run.s.past[k].base);
            (forall e :: e in batch ==> e.seqno <= x) || (forall e :: e in batch ==> e.seqno > x)
  {
    RunInv(run);
    assert Whole(run.s.writers, run.s.past[k], x);
  }

  /** An acknowledged write is in the log, and if it asked for syncing its record was synced. */
  lemma AcknowledgedIsLogged(run: Run, id: nat) returns (i: nat)
    requires IsRun(run) && id in run.s.pc && run.s.pc[id] == Returned(true) && run.s.writers(id).batch.Some?
    ensures i < |run.s.log| && (run.s.writers(id).sync ==> run.s.log[i].durable)
    ensures exists k ::
              0 <= k < |run.s.past| && run.s.past[k].id == id && Holds(run.s.writers, run.s.log[i], run.s.past[k])
  {
    RunInv(run);
    var s := run.s;
    var k :| 0 <= k < |s.past| && s.past[k].id == id && s.past[k].ok;
    assert Logged(s.writers, s.log, s.past[k]);
    i :| 0 <= i < |s.log| && Holds(s.writers, s.log[i], s.past[k]) && (s.writers(id).sync ==> s.log[i].durable);
  }
}
