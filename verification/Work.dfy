/**
 The background thread's algorithms and the engine's steps: what PickCompaction,
 DoCompactionWork and CompactMemTable compute in a reachable state is what the
 engine's compaction and flush steps ask for.
 */
module Work {
  import opened Keys
  import opened Spec
  import opened Versions
  import opened Inputs
  import opened Selection
  import opened CompactionLoop
  import opened Install
  import opened Flush
  import opened Exactness
  import opened Engine
  import opened EngineSteps
  import opened EngineProof
  import opened RecoverLogs

  // --- starting a compaction ---------------------------------------------------------------

  lemma VersionParts(s: State)
    requires Inv(s)
    ensures TreeOk(s.version) && FilesOk(s.version) && Unique(Content(s.version))
  {
    var S := ViewContent(s.core.mems[s.core.mem], ImmOf(s.core.mems, s.imm), s.version);
    StoreUnique(s.core, s.snapshots, S);
    SubsetUnique(Content(s.version), S);
  }

  lemma ChosenFilesOk(V: set<Placed>, job: Job, range: Range)
    requires FilesOk(V) && Chosen(V, job, range)
    ensures FilesOk(job.inputs)
  {
  }

  /**
   PickCompaction in a reachable state.  Its choice is a compaction the engine may
   start exactly if no deleted value comes back, as none does when no file left out of
   the output level continues one that was chosen.  Flushes stay clear of it.
   */
  method StartCompaction(ghost s: State, levels: seq<seq<File>>, why: Reason, ghost floor: nat, maxFileSize: nat)
      returns (c: Compaction, ghost job: Job)
    requires Inv(s) && s.phase.Idle? && s.imm.None? && Listing(levels, s.version) && IsSmallestSnapshot(s, floor)
    requires why.level + 1 < NUM_LEVELS && levels[why.level] != [] && (why.SeekOf? ==> why.file in levels[why.level])
    ensures job == JobOf(s.version, c, floor) && FilesOk(s.version) && FilesOk(job.inputs) && JobNoGaps(job)
    ensures NoneReturns(s.version, AnchorOf(s), job)
            <==> IsCompactStart(s, s.(phase := Compacting(job)), job, c.range)
    ensures BoundaryClean(s.version, job) ==> NoneReturns(s.version, AnchorOf(s), job)
  {
    VersionParts(s);
    assert s.core.mem in s.core.mems;
    ListedLevelsOk(levels, s.version);
    LevelAllOk(levels, why.level);
    hide Inv, Listing, TreeOk, Chosen, LevelsOk, Complete, NoGaps, BoundaryClean, NoneReturns, JobNoGaps, AnchorOf;
    hide IsSmallestSnapshot, Picked, GrandparentsOf, LargestKey;
    var grandparents, pointer;
    ghost var picked;
    c, grandparents, pointer, picked := PickCompaction(levels, why, maxFileSize);
    job := JobOf(s.version, c, floor);
    CompleteIsChosen(levels, s.version, c, floor);
    ChosenFilesOk(s.version, job, c.range);
    CompleteParts(levels, c);
    PickedJobNoGaps(s.version, c, floor);
    if BoundaryClean(s.version, job) {
      CleanNeverReturns(s.version, AnchorOf(s), job, c.range);
    }
  }

  lemma LevelAllOk(levels: seq<seq<File>>, l: nat)
    requires LevelsOk(levels) && l < NUM_LEVELS
    ensures AllOk(levels[l])
  {
    assert l >= 1 ==> DisjointSorted(levels[l]);
  }

  /** When IsTrivialMove holds, the job consists of one file, and moving it down is a step of the engine. */
  lemma TrivialMoveIsStep(s: State, c: Compaction, floor: nat, grandparentBytes: nat, maxFileSize: nat)
    requires s.phase == Compacting(JobOf(s.version, c, floor)) && IsTrivialMove(c, grandparentBytes, maxFileSize)
    ensures var job, f := s.phase.job, c.inputs0[0];
      IsMoveCommit(s, s.(manifest := Manifest(s.version - job.inputs + {Placed(job.level + 1, f)}, s.logNumber,
                                              s.core.lastSequence, s.nextFile),
                         phase := Installing(false, None)), f)
  {
    var f := c.inputs0[0];
    assert c.inputs0 == [f] && c.inputs1 == [];
    assert s.phase.job.inputs == {Placed(c.level, f)};
  }

  // --- the compaction itself ---------------------------------------------------------------

  /** One file per table, under consecutive numbers. */
  method NameTables(outputs: seq<seq<Entry>>, number: nat, sizeOf: seq<Entry> -> nat) returns (files: seq<File>)
    requires forall i :: 0 <= i < |outputs| ==> outputs[i] != []
    ensures |files| == |outputs|
    ensures forall i :: 0 <= i < |files| ==>
              files[i].number == number + i && files[i].entries == outputs[i] && RecordsRange(files[i])
  {
    files := [];
    for i := 0 to |outputs|
      invariant |files| == i
      invariant forall j :: 0 <= j < i ==>
                  files[j].number == number + j && files[j].entries == outputs[j] && RecordsRange(files[j])
    {
      var es := outputs[i];
      files := files + [File(number + i, sizeOf(es), es[0].key, es[|es| - 1].key, es)];
    }
  }

  /**
   DoCompactionWork: the loop over the merged inputs, with the levels of the input
   version to look for deeper files, writes exactly the outputs the job promises.
   */
  method DoCompactionWork(levels: seq<seq<File>>, ghost job: Job, level: nat, floor: nat, input: seq<Entry>,
                          stopBefore: seq<bool>, full: seq<bool>, number: nat, sizeOf: seq<Entry> -> nat)
      returns (files: seq<File>)
    requires Listing(levels, job.base) && TreeOk(job.base) && job.inputs <= job.base && Unique(Content(job.base))
    requires job.level == level && level + 1 < NUM_LEVELS && job.floor == floor < MAX_SEQUENCE
    requires Sorted(input) && Elements(input) == Content(job.inputs) && |stopBefore| == |full| == |input|
    ensures FilesOk(job.base) && OutputsOk(job, PlacedAt(files, level + 1))
    ensures forall i :: 0 <= i < |files| ==> files[i].number == number + i
  {
    hide LevelsOk, Listing, TreeOk, Sorted, Dropped, CompactionLoop.TablesOk, InTables, RecordsRange, OutputsOk;
    ListedLevelsOk(levels, job.base);
    DeeperSorted(levels, level);
    InputFacts(job, input);
    var cursor := new BaseLevelCursor(levels[level + 2..]);
    var outputs := Compact(input, floor, cursor, stopBefore, full);
    NoneEmpty(outputs);
    files := NameTables(outputs, number, sizeOf);
    LoopOutputsOk(levels, job.base, job, input, outputs, files);
  }

  lemma InputFacts(job: Job, input: seq<Entry>)
    requires TreeOk(job.base) && job.inputs <= job.base && Unique(Content(job.base))
    requires Elements(input) == Content(job.inputs)
    ensures FilesOk(job.base) && Unique(Elements(input)) && forall e :: e in input ==> e.key.seqno <= MAX_SEQUENCE
  {
    forall e | e in input ensures e in Content(job.base) && e.key.seqno <= MAX_SEQUENCE {
      assert e in Elements(input);
      var p :| p in job.inputs && e in p.file.entries;
      InContent(job.base, p, e);
    }
    SubsetUnique(Elements(input), Content(job.base));
  }

  // --- flushing ----------------------------------------------------------------------------------

  /**
   WriteLevel0Table for a flush: the table built from the immutable memtable, and the
   level picked for it, are those of the engine's two flush steps, unless the table would
   lie in a gap of a running compaction.  One that PickCompaction set up has no gaps.
   */
  method FlushMemTable(ghost s: State, levels: seq<seq<File>>, mem: seq<Entry>, number: nat, sizeOf: seq<Entry> -> nat,
                       maxFileSize: nat)
      returns (table: Option<File>, level: nat, ghost mid: State, ghost end: State)
    requires Inv(s) && (s.phase.Idle? || s.phase.Compacting?) && s.imm.Some? && Listing(levels, s.version)
    requires Sorted(mem) && Elements(mem) == ImmOf(s.core.mems, s.imm) && number == s.nextFile
    ensures IsFlushBuild(s, mid, table)
    ensures table.Some? ==> Picks(s.version, Placed(level, table.value), maxFileSize)
    ensures IsFlushCommit(mid, end, level) <==> ClearOfPhase(s.phase, table, level)
    ensures NoGapsOfPhase(s.phase) ==> ClearOfPhase(s.phase, table, level)
  {
    VersionParts(s);
    ImmBounded(s);
    ListedLevelsOk(levels, s.version);
    table := WriteLevel0Table(mem, number, sizeOf);
    level := 0;
    if table.Some? {
      level := PickLevelForMemTableOutput(levels, table.value.smallest.user, table.value.largest.user, maxFileSize);
      PickedExact(levels, s.version, table.value, level, maxFileSize);
      PickedPlaceOk(s.version, Placed(level, table.value), maxFileSize);
    }
    mid := Built(s, table);
    end := Committed(mid, level);
    FlushSteps(s, mem, table, level);
    if NoGapsOfPhase(s.phase) && s.phase.Compacting? && table.Some? {
      PickedStaysClear(s, table.value, level);
    }
  }

  /** The flushed table stays clear of the compaction under way, if there is one. */
  ghost predicate ClearOfPhase(p: Phase, table: Option<File>, level: nat) {
    p.Compacting? && table.Some? ==> FileOk(table.value) && Clear(p.job, Placed(level, table.value))
  }

  ghost predicate NoGapsOfPhase(p: Phase) {
    p.Compacting? ==> FilesOk(p.job.inputs) && JobNoGaps(p.job)
  }

  lemma PickedStaysClear(s: State, f: File, level: nat)
    requires Inv(s) && s.phase.Compacting? && FilesOk(s.phase.job.inputs) && JobNoGaps(s.phase.job)
    requires FilesOk(s.version)
    requires FileOk(f) && f.number == s.nextFile && Has(f) == ImmOf(s.core.mems, s.imm)
    requires PlaceOk(s.version, Placed(level, f))
    ensures Clear(s.phase.job, Placed(level, f))
  {
    var P := Placed(level, f);
    forall q | q in s.version ensures q.file.number < f.number {
      assert TableThere(s.tables, s.doomedTables, q.file);
    }
    assert FlushOk(s.version, P);
    if P.level >= s.phase.job.level + 1 {
      FlushMissesJob(s.version, s.phase.job, P);
    }
  }

  ghost function Built(s: State, table: Option<File>): State {
    match table
    case None => s.(phase := Flushing(None, JobOfPhase(s.phase)))
    case Some(f) => s.(phase := Flushing(table, JobOfPhase(s.phase)), nextFile := s.nextFile + 1,
                       pending := s.pending + {f.number}, tables := s.tables[f.number := f.entries])
  }

  ghost function Committed(s: State, level: nat): State
    requires s.phase.Flushing?
  {
    s.(manifest := Manifest(Flushed(s.version, s.phase.table, level), s.core.mem, s.core.lastSequence, s.nextFile),
       pending := s.pending - (if s.phase.table.Some? then {s.phase.table.value.number} else {}),
       phase := Installing(true, s.phase.resume))
  }

  lemma ImmBounded(s: State)
    requires Inv(s) && s.imm.Some?
    ensures RecoverLogs.Bounded(ImmOf(s.core.mems, s.imm))
  {
  }

  lemma FlushSteps(s: State, mem: seq<Entry>, table: Option<File>, level: nat)
    requires (s.phase.Idle? || s.phase.Compacting?) && s.imm.Some? && Elements(mem) == ImmOf(s.core.mems, s.imm)
    requires FilesOk(s.version)
    requires table.None? <==> mem == []
    requires table.Some? ==> FileOk(table.value) && table.value.number == s.nextFile && table.value.entries == mem
    requires table.Some? ==> PlaceOk(s.version, Placed(level, table.value))
    ensures var mid := Built(s, table);
      && IsFlushBuild(s, mid, table)
      && (IsFlushCommit(mid, Committed(mid, level), level) <==> ClearOfPhase(s.phase, table, level))
  {
  }
}
