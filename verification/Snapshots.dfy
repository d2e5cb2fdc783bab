/**
 The list of live snapshots (db/snapshot.h): a circular list in the order of creation,
 whose first element is the oldest snapshot a compaction must respect.
 */
module Snapshots {
  import opened LinkedLists
  import opened Engine
  import opened EngineSteps

  const HEAD: nat := 0

  class SnapshotList {
    var links: Links
    var numbers: map<nat, nat>   // sequence_number_ of each snapshot
    var nextId: nat
    ghost var ids: seq<nat>      // the list, oldest first

    ghost predicate Ok()
      reads this
    {
      && Ring(links, HEAD, ids)
      && (forall i :: 0 <= i < |ids| ==> HEAD < ids[i] < nextId && ids[i] in numbers)
      && HEAD < nextId
      && Rising(ids, numbers)
    }

    constructor ()
      ensures Ok() && ids == []
    {
      links, numbers, nextId, ids := Links(map[HEAD := HEAD], map[HEAD := HEAD]), map[], 1, [];
    }

    function Empty(): (r: bool)
      reads this
      requires Ok()
      ensures r <==> ids == []
    {
      HeadLinked(links, HEAD, ids);
      links.next[HEAD] == HEAD
    }

    /** oldest(): no live snapshot has a smaller sequence number. */
    method Oldest() returns (x: nat)
      requires Ok() && ids != []
      ensures x in Live(ids, numbers) && forall y :: y in Live(ids, numbers) ==> x <= y
    {
      HeadLinked(links, HEAD, ids);
      x := numbers[links.next[HEAD]];
      FirstIsLeast(ids, numbers);
    }

    /** New: appended at the end.  Sequence numbers are handed out in rising order. */
    method New(sequence: nat) returns (id: nat)
      requires Ok() && forall y :: y in Live(ids, numbers) ==> y <= sequence
      modifies this
      ensures Ok() && ids == old(ids) + [id] && id !in old(ids) && id in numbers && numbers[id] == sequence
      ensures Live(ids, numbers) == old(Live(ids, numbers)) + multiset{sequence}
    {
      id := nextId;
      HeadLinked(links, HEAD, ids);
      LinkRing(links, HEAD, ids, id);
      LiveSnoc(ids, numbers, id, sequence);
      RisingSnoc(ids, numbers, id, sequence);
      links, numbers, nextId := Link(links, HEAD, id), numbers[id := sequence], nextId + 1;
      ids := ids + [id];
    }

    /** Delete: unlinked where it is. */
    method Delete(id: nat)
      requires Ok() && id in ids
      modifies this
      ensures Ok() && id !in ids && numbers == old(numbers)
      ensures id in numbers && Live(ids, numbers) == old(Live(ids, numbers)) - multiset{numbers[id]}
    {
      hide Rising, Without, Live, Ring, Cycle, Linked, Unlink;
      ghost var i :| 0 <= i < |ids| && ids[i] == id;
      Distinct(links, ids);
      Remaining(ids, numbers, nextId, i);
      InRing(links, HEAD, ids, i);
      UnlinkRing(links, HEAD, ids, i);
      LiveWithout(ids, numbers, i);
      links := Unlink(links, id);
      ids := Without(ids, i);
    }
  }

  ghost predicate Rising(ids: seq<nat>, numbers: map<nat, nat>) {
    forall i, j :: 0 <= i <= j < |ids| && ids[i] in numbers && ids[j] in numbers ==> numbers[ids[i]] <= numbers[ids[j]]
  }

  /** The sequence numbers of the snapshots in the list. */
  ghost function Live(ids: seq<nat>, numbers: map<nat, nat>): multiset<nat> {
    if ids == [] then multiset{}
    else Live(ids[..|ids| - 1], numbers)
         + (if ids[|ids| - 1] in numbers then multiset{numbers[ids[|ids| - 1]]} else multiset{})
  }

  lemma {:induction false} InLive(ids: seq<nat>, numbers: map<nat, nat>, y: nat)
    ensures y in Live(ids, numbers) <==> exists i :: 0 <= i < |ids| && ids[i] in numbers && numbers[ids[i]] == y
  {
    if ids != [] {
      var n := |ids| - 1;
      InLive(ids[..n], numbers, y);
      if y in Live(ids[..n], numbers) {
        var i :| 0 <= i < n && ids[..n][i] in numbers && numbers[ids[..n][i]] == y;
        assert ids[i] == ids[..n][i];
      }
      if i :| 0 <= i < n && ids[i] in numbers && numbers[ids[i]] == y {
        assert ids[..n][i] == ids[i];
      }
    }
  }

  lemma FirstIsLeast(ids: seq<nat>, numbers: map<nat, nat>)
    requires ids != [] && Rising(ids, numbers) && ids[0] in numbers
    ensures numbers[ids[0]] in Live(ids, numbers) && forall y :: y in Live(ids, numbers) ==> numbers[ids[0]] <= y
  {
    InLive(ids, numbers, numbers[ids[0]]);
    forall y | y in Live(ids, numbers) ensures numbers[ids[0]] <= y {
      InLive(ids, numbers, y);
    }
  }

  lemma {:induction false} LiveOther(ids: seq<nat>, numbers: map<nat, nat>, id: nat, x: nat)
    requires id !in ids
    ensures Live(ids, numbers[id := x]) == Live(ids, numbers)
  {
    if ids != [] {
      LiveOther(ids[..|ids| - 1], numbers, id, x);
      assert ids[|ids| - 1] in ids;
    }
  }

  lemma LiveSnoc(ids: seq<nat>, numbers: map<nat, nat>, id: nat, x: nat)
    requires forall i :: 0 <= i < |ids| ==> ids[i] < id
    ensures Live(ids + [id], numbers[id := x]) == Live(ids, numbers) + multiset{x}
  {
    assert (ids + [id])[..|ids|] == ids;
    LiveOther(ids, numbers, id, x);
  }

  lemma RisingSnoc(ids: seq<nat>, numbers: map<nat, nat>, id: nat, x: nat)
    requires Rising(ids, numbers) && (forall i :: 0 <= i < |ids| ==> ids[i] < id && ids[i] in numbers)
    requires forall y :: y in Live(ids, numbers) ==> y <= x
    ensures Rising(ids + [id], numbers[id := x])
  {
    forall i | 0 <= i < |ids| ensures numbers[ids[i]] <= x {
      InLive(ids, numbers, numbers[ids[i]]);
    }
  }

  lemma {:induction false} LiveWithout(ids: seq<nat>, numbers: map<nat, nat>, i: nat)
    requires i < |ids| && ids[i] in numbers
    ensures Live(ids, numbers) == Live(Without(ids, i), numbers) + multiset{numbers[ids[i]]}
  {
    hide Without;
    var n := |ids| - 1;
    WithoutParts(ids, i);
    if i < n {
      LiveWithout(ids[..n], numbers, i);
    }
  }

  lemma WithoutParts(ids: seq<nat>, i: nat)
    requires i < |ids|
    ensures var n, w := |ids| - 1, Without(ids, i);
      |w| == n && (if i == n then w == ids[..n]
                   else w[..n - 1] == Without(ids[..n], i) && w[n - 1] == ids[n] && ids[..n][i] == ids[i])
  {
    var n, w := |ids| - 1, Without(ids, i);
    assert i < n ==> w[..n - 1] == Without(ids[..n], i);
  }

  lemma Distinct(links: Links, ids: seq<nat>)
    requires Ring(links, HEAD, ids)
    ensures forall a, b :: 0 <= a < b < |ids| ==> ids[a] != ids[b]
  {
  }

  /** What the list looks like without element `i`. */
  lemma Remaining(ids: seq<nat>, numbers: map<nat, nat>, bound: nat, i: nat)
    requires i < |ids| && Rising(ids, numbers) && (forall a, b :: 0 <= a < b < |ids| ==> ids[a] != ids[b])
    requires forall k :: 0 <= k < |ids| ==> HEAD < ids[k] < bound && ids[k] in numbers
    ensures Rising(Without(ids, i), numbers) && ids[i] !in Without(ids, i)
    ensures forall k :: 0 <= k < |Without(ids, i)| ==>
              HEAD < Without(ids, i)[k] < bound && Without(ids, i)[k] in numbers
  {
    var w := Without(ids, i);
    assert forall k :: 0 <= k < |w| ==> w[k] == ids[if k < i then k else k + 1];
  }

  /** The floor DoCompactionWork works with. */
  method SmallestSnapshot(list: SnapshotList, lastSequence: nat, ghost s: State) returns (floor: nat)
    requires list.Ok() && Live(list.ids, list.numbers) == s.snapshots && lastSequence == s.core.lastSequence
    ensures IsSmallestSnapshot(s, floor)
  {
    if list.Empty() {
      floor := lastSequence;
    } else {
      floor := list.Oldest();
    }
  }
}
