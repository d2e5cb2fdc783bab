/**
 The compaction loop: which entries of the merged inputs survive
 (DBImpl::DoCompactionWork, Compaction::IsBaseLevelForKey).
 */
module CompactionLoop {
  import opened Keys
  import opened Spec
  import opened Versions

  /** Some file of the vector has `u` in its user-key range. */
  ghost predicate Covers(files: seq<File>, u: UserKey)
    requires DisjointSorted(files)
  {
    exists f :: f in files && f.smallest.user <= u <= f.largest.user
  }

  /** No file of the levels below the output level covers `u`. */
  ghost predicate BaseFor(deeper: seq<seq<File>>, u: UserKey)
    requires forall l :: 0 <= l < |deeper| ==> DisjointSorted(deeper[l])
  {
    forall l :: 0 <= l < |deeper| ==> !Covers(deeper[l], u)
  }

  /** The fate the documentation promises: hidden at every live snapshot, or an obsolete deletion. */
  ghost predicate Dropped(input: iset<Entry>, floor: nat, deeper: seq<seq<File>>, e: Entry)
    requires forall l :: 0 <= l < |deeper| ==> DisjointSorted(deeper[l])
  {
    || Shadowed(input, e, floor)
    || (e.key.kind.Deletion? && e.key.seqno <= floor && BaseFor(deeper, e.key.user))
  }

  /** A sequence of output tables: each non-empty and sorted, in ascending order. */
  ghost predicate TablesOk(outputs: seq<seq<Entry>>) {
    && (forall i :: 0 <= i < |outputs| ==> outputs[i] != [] && Sorted(outputs[i]))
    && (forall i, j, x, y :: 0 <= i < j < |outputs| && x in outputs[i] && y in outputs[j] ==> Before(x.key, y.key))
  }

  ghost predicate InTables(outputs: seq<seq<Entry>>, e: Entry) {
    exists i :: 0 <= i < |outputs| && e in outputs[i]
  }

  /** The part of Compaction that walks the deeper levels: `level_ptrs_`. */
  class BaseLevelCursor {
    const deeper: seq<seq<File>>
    var ptrs: seq<nat>

    ghost predicate Valid()
      reads this
    {
      && |ptrs| == |deeper|
      && (forall l :: 0 <= l < |deeper| ==> DisjointSorted(deeper[l]))
      && (forall l :: 0 <= l < |deeper| ==> ptrs[l] <= |deeper[l]|)
    }

    /** Every file the cursor has passed ends before `u`. */
    ghost predicate Behind(u: UserKey)
      requires Valid()
      reads this
    {
      forall l, i :: 0 <= l < |deeper| && 0 <= i < ptrs[l] ==> deeper[l][i].largest.user < u
    }

    constructor (deeper: seq<seq<File>>)
      requires forall l :: 0 <= l < |deeper| ==> DisjointSorted(deeper[l])
      ensures Valid() && this.deeper == deeper
      ensures forall u :: Behind(u)
    {
      this.deeper := deeper;
      this.ptrs := seq(|deeper|, _ => 0);
    }

    /**
     IsBaseLevelForKey: for keys asked about in ascending order, the forward-only
     pointers decide exactly whether a deeper file covers the key.
     */
    method IsBaseLevelForKey(u: UserKey) returns (r: bool)
      requires Valid() && Behind(u)
      modifies this
      ensures Valid() && Behind(u)
      ensures r <==> BaseFor(deeper, u)
    {
      var lvl := 0;
      while lvl < |deeper|
        invariant 0 <= lvl <= |deeper|
        invariant Valid() && Behind(u)
        invariant forall l :: 0 <= l < lvl ==> !Covers(deeper[l], u)
      {
        var files := deeper[lvl];
        while ptrs[lvl] < |files|
          invariant Valid() && Behind(u)
          invariant forall l :: 0 <= l < lvl ==> !Covers(deeper[l], u)
          decreases |files| - ptrs[lvl]
        {
          var f := files[ptrs[lvl]];
          if u <= f.largest.user {
            if u >= f.smallest.user {
              assert f in files;
              assert Covers(deeper[lvl], u);
              return false;
            }
            break;
          }
          ptrs := ptrs[lvl := ptrs[lvl] + 1];
        }
        NotCovered(files, ptrs[lvl], u);
        lvl := lvl + 1;
      }
      r := true;
    }
  }

  /** All files before `n` end before `u`, and file `n` starts after it: nothing covers `u`. */
  lemma NotCovered(files: seq<File>, n: nat, u: UserKey)
    requires DisjointSorted(files) && n <= |files|
    requires forall i :: 0 <= i < n ==> files[i].largest.user < u
    requires n < |files| ==> u < files[n].smallest.user
    ensures !Covers(files, u)
  {
    forall f | f in files
      ensures !(f.smallest.user <= u <= f.largest.user)
    {
      var i :| 0 <= i < |files| && files[i] == f;
      if i > n {
        assert Precedes(files[n], files[i]);
      }
    }
  }

  /** Rule (A) looks only at the previous entry; that decides whether any newer one hides this one. */
  lemma PreviousDecides(input: seq<Entry>, i: nat, floor: nat)
    requires Sorted(input) && Unique(Elements(input)) && i < |input|
    ensures Shadowed(Elements(input), input[i], floor)
      <==> i > 0 && input[i - 1].key.user == input[i].key.user && input[i - 1].key.seqno <= floor
  {
    var S, d := Elements(input), input[i];
    if i > 0 && input[i - 1].key.user == d.key.user && input[i - 1].key.seqno <= floor {
      assert input[i - 1] in S && d in S;
      assert Before(input[i - 1].key, d.key);
      assert !SameNumber(input[i - 1], d);
      assert Shadowed(S, d, floor);
    }
    if Shadowed(S, d, floor) {
      var e :| e in S && e.key.user == d.key.user && d.key.seqno < e.key.seqno <= floor;
      var j :| 0 <= j < |input| && input[j] == e;
      assert Before(e.key, d.key);
      assert j > i ==> Before(input[i].key, input[j].key);
      assert i > 0 ==> Before(input[i - 1].key, input[i].key);
      if j < i - 1 {
        assert Before(e.key, input[i - 1].key) && Before(input[i - 1].key, d.key);
      }
    }
  }

  /** CompactionState: the finished tables and the one being built (empty: none open). */
  datatype Tables = Tables(done: seq<seq<Entry>>, builder: seq<Entry>) {
    ghost predicate Holds(e: Entry) {
      InTables(done, e) || e in builder
    }

    ghost predicate Ok() {
      && TablesOk(done) && Sorted(builder)
      && forall x, y :: InTables(done, x) && y in builder ==> Before(x.key, y.key)
    }

    /** FinishCompactionOutputFile, when a table is open. */
    function Finish(): (t: Tables)
      requires Ok()
      ensures t.Ok() && t.builder == []
      ensures forall e :: t.Holds(e) <==> Holds(e)
    {
      if builder == [] then this
      else
        CloseTable(done, builder);
        Tables(done + [builder], [])
    }

    /** TableBuilder::Add, opening a table if none is open. */
    function Add(e: Entry): (t: Tables)
      requires Ok() && forall x :: Holds(x) ==> Before(x.key, e.key)
      ensures t.Ok()
      ensures forall x :: t.Holds(x) <==> Holds(x) || x == e
    {
      assert forall x :: x in builder ==> Holds(x);
      assert forall x :: InTables(done, x) ==> Holds(x);
      Tables(done, builder + [e])
    }
  }

  lemma CloseTable(outputs: seq<seq<Entry>>, builder: seq<Entry>)
    requires TablesOk(outputs) && Sorted(builder) && builder != []
    requires forall x, y :: InTables(outputs, x) && y in builder ==> Before(x.key, y.key)
    ensures TablesOk(outputs + [builder])
    ensures forall e :: InTables(outputs + [builder], e) <==> InTables(outputs, e) || e in builder
  {
    var all := outputs + [builder];
    forall e ensures InTables(all, e) <==> InTables(outputs, e) || e in builder {
      if InTables(outputs, e) {
        var i :| 0 <= i < |outputs| && e in outputs[i];
        assert e in all[i];
      }
      if e in builder {
        assert e in all[|outputs|];
      }
    }
  }

  /**
   What the loop drops.  Its marker for "no entry of this user key yet" is
   kMaxSequenceNumber, so a floor that high hides every entry.
   */
  ghost predicate LoopDrops(input: iset<Entry>, floor: nat, deeper: seq<seq<File>>, e: Entry)
    requires forall l :: 0 <= l < |deeper| ==> DisjointSorted(deeper[l])
  {
    floor >= MAX_SEQUENCE || Dropped(input, floor, deeper, e)
  }

  /** The decision about entry `i`, given what the loop remembers of entry `i - 1`. */
  method ShouldDrop(input: seq<Entry>, i: nat, floor: nat, lastSequenceForKey: nat, cursor: BaseLevelCursor)
      returns (drop: bool)
    requires Sorted(input) && Unique(Elements(input)) && i < |input| && lastSequenceForKey <= MAX_SEQUENCE
    requires cursor.Valid() && cursor.Behind(input[i].key.user)
    requires lastSequenceForKey ==
             if i > 0 && input[i - 1].key.user == input[i].key.user then input[i - 1].key.seqno else MAX_SEQUENCE
    modifies cursor
    ensures cursor.Valid() && cursor.Behind(input[i].key.user)
    ensures drop <==> LoopDrops(Elements(input), floor, cursor.deeper, input[i])
  {
    PreviousDecides(input, i, floor);
    drop := false;
    if lastSequenceForKey <= floor {
      drop := true;
    } else if input[i].key.kind.Deletion? && input[i].key.seqno <= floor {
      drop := cursor.IsBaseLevelForKey(input[i].key.user);
    }
  }

  lemma NoneEmpty(outputs: seq<seq<Entry>>)
    requires TablesOk(outputs)
    ensures forall i :: 0 <= i < |outputs| ==> outputs[i] != []
  {
  }

  lemma SomethingWritten(outputs: seq<seq<Entry>>)
    requires TablesOk(outputs) && outputs != []
    ensures exists e :: InTables(outputs, e)
  {
    assert InTables(outputs, outputs[0][0]);
  }

  /**
   The merge loop of DoCompactionWork.  `stopBefore` and `full` stand for
   ShouldStopBefore and the size test: they only decide where tables are cut.
   */
  method Compact(input: seq<Entry>, floor: nat, cursor: BaseLevelCursor, stopBefore: seq<bool>, full: seq<bool>)
      returns (outputs: seq<seq<Entry>>)
    requires Sorted(input) && Unique(Elements(input)) && forall e :: e in input ==> e.key.seqno <= MAX_SEQUENCE
    requires |stopBefore| == |full| == |input|
    requires cursor.Valid() && forall u :: cursor.Behind(u)
    modifies cursor
    ensures cursor.Valid() && TablesOk(outputs)
    ensures floor < MAX_SEQUENCE ==>
              forall e :: InTables(outputs, e) <==> e in input && !Dropped(Elements(input), floor, cursor.deeper, e)
    ensures floor >= MAX_SEQUENCE ==> outputs == []
  {
    hide Dropped;
    ghost var D := iset e | LoopDrops(Elements(input), floor, cursor.deeper, e);
    var tables := Tables([], []);
    var hasCurrent := false;
    var currentUserKey: UserKey := 0.0;
    var lastSequenceForKey := MAX_SEQUENCE;
    var i := 0;
    while i < |input|
      invariant 0 <= i <= |input|
      invariant cursor.Valid()
      invariant hasCurrent <==> i > 0
      invariant i > 0 ==> currentUserKey == input[i - 1].key.user && lastSequenceForKey == input[i - 1].key.seqno
      invariant i == 0 ==> forall u :: cursor.Behind(u)
      invariant i > 0 ==> cursor.Behind(input[i - 1].key.user)
      invariant tables.Ok()
      invariant forall e :: tables.Holds(e) <==> e in input[..i] && e !in D
    {
      var e := input[i];
      if stopBefore[i] {
        tables := tables.Finish();
      }
      if !hasCurrent || e.key.user != currentUserKey {
        currentUserKey, hasCurrent, lastSequenceForKey := e.key.user, true, MAX_SEQUENCE;
      }
      assert i > 0 ==> Before(input[i - 1].key, e.key);
      var drop := ShouldDrop(input, i, floor, lastSequenceForKey, cursor);
      assert drop <==> e in D;
      lastSequenceForKey := e.key.seqno;
      assert input[..i + 1] == input[..i] + [e];
      if !drop {
        tables := tables.Add(e);
        if full[i] {
          tables := tables.Finish();
        }
      }
      i := i + 1;
    }
    assert input[..|input|] == input;
    var final := tables.Finish();
    assert forall e :: final.Holds(e) <==> InTables(final.done, e);
    outputs := final.done;
    if floor >= MAX_SEQUENCE && outputs != [] {
      SomethingWritten(outputs);
      assert false;
    }
  }
}
