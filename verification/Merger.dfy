/**
 MergingIterator (table/merger.cc): several sorted children seen as one sorted
 sequence, in both directions.

 A key is its position in the order of the comparator.  No key is in two children,
 as with internal keys, which carry a sequence number.
 */
module Merger {
  import opened Spec
  import opened Positions
  import opened Cursors

  datatype Item = Item(key: real, value: string)

  ghost predicate Ascending(c: seq<Item>) {
    forall i, j :: 0 <= i < j < |c| ==> c[i].key < c[j].key
  }

  ghost predicate ChildrenOk(cs: seq<seq<Item>>) {
    && (forall i :: 0 <= i < |cs| ==> Ascending(cs[i]))
    && (forall i, j, a, b :: 0 <= i < |cs| && 0 <= j < |cs| && 0 <= a < |cs[i]| && 0 <= b < |cs[j]| ==>
          (cs[i][a].key == cs[j][b].key ==> i == j))
  }

  ghost predicate InSome(cs: seq<seq<Item>>, x: Item) {
    exists i :: 0 <= i < |cs| && x in cs[i]
  }

  /** `m` is the sorted union of the children. */
  ghost predicate IsMerge(cs: seq<seq<Item>>, m: seq<Item>) {
    Ascending(m) && forall x :: x in m <==> InSome(cs, x)
  }

  // --- the sorted union exists -----------------------------------------------------------------

  ghost function Merge(a: seq<Item>, b: seq<Item>): seq<Item> {
    if a == [] then b
    else if b == [] then a
    else if a[0].key <= b[0].key then [a[0]] + Merge(a[1..], b)
    else [b[0]] + Merge(a, b[1..])
  }

  ghost predicate Disjoint(a: seq<Item>, b: seq<Item>) {
    forall i, j :: 0 <= i < |a| && 0 <= j < |b| ==> a[i].key != b[j].key
  }

  ghost predicate AllAbove(a: seq<Item>, k: real) {
    forall i :: 0 <= i < |a| ==> a[i].key > k
  }

  lemma {:induction false} MergeSorts(a: seq<Item>, b: seq<Item>)
    requires Ascending(a) && Ascending(b) && Disjoint(a, b)
    ensures Ascending(Merge(a, b)) && forall x :: x in Merge(a, b) <==> x in a || x in b
    ensures forall k :: AllAbove(a, k) && AllAbove(b, k) ==> AllAbove(Merge(a, b), k)
    decreases |a| + |b|
  {
    if a != [] && b != [] {
      if a[0].key <= b[0].key {
        MergeSorts(a[1..], b);
        assert AllAbove(a[1..], a[0].key) && AllAbove(b, a[0].key);
        assert a == [a[0]] + a[1..];
      } else {
        MergeSorts(a, b[1..]);
        assert AllAbove(b[1..], b[0].key) && AllAbove(a, b[0].key);
        assert b == [b[0]] + b[1..];
      }
    }
  }

  ghost function MergeAll(cs: seq<seq<Item>>): seq<Item> {
    if cs == [] then [] else Merge(MergeAll(cs[..|cs| - 1]), cs[|cs| - 1])
  }

  lemma {:induction false} MergeAllOk(cs: seq<seq<Item>>)
    requires ChildrenOk(cs)
    ensures IsMerge(cs, MergeAll(cs))
  {
    if cs != [] {
      var front, last := cs[..|cs| - 1], cs[|cs| - 1];
      MergeAllOk(front);
      var m := MergeAll(front);
      forall i, j | 0 <= i < |m| && 0 <= j < |last| ensures m[i].key != last[j].key {
        assert InSome(front, m[i]);
        var c :| 0 <= c < |front| && m[i] in front[c];
        var a :| 0 <= a < |front[c]| && front[c][a] == m[i];
        assert cs[c][a] == m[i] && cs[|cs| - 1][j] == last[j];
      }
      MergeSorts(m, last);
      forall x ensures x in MergeAll(cs) <==> InSome(cs, x) {
        if InSome(front, x) {
          var c :| 0 <= c < |front| && x in front[c];
          assert x in cs[c];
        }
        if InSome(cs, x) {
          var c :| 0 <= c < |cs| && x in cs[c];
          assert c < |front| ==> x in front[c];
        }
      }
    }
  }

  // --- where a child stands relative to a key --------------------------------------------------------

  predicate InChild(c: seq<Item>, p: Option<nat>) {
    p.Some? ==> p.value < |c|
  }

  /** Reading forwards, an exhausted child stands at its end; backwards, before its start. */
  function FrontPos(c: seq<Item>, p: Option<nat>): int {
    if p.Some? then p.value else |c|
  }

  function BackPos(p: Option<nat>): int {
    if p.Some? then p.value else -1
  }

  /** A place between keys: before everything, just before `k`, just after `k`, or after everything. */
  datatype Cut = Start | From(k: real) | After(k: real) | End

  predicate Left(cut: Cut, key: real) {
    match cut
    case Start => false
    case From(k) => key < k
    case After(k) => key <= k
    case End => true
  }

  /** The child stands at its first item right of the cut. */
  ghost predicate FrontAt(c: seq<Item>, cut: Cut, p: Option<nat>) {
    InChild(c, p) && forall j :: 0 <= j < |c| ==> (Left(cut, c[j].key) <==> j < FrontPos(c, p))
  }

  /** The child stands at its last item left of the cut. */
  ghost predicate BackAt(c: seq<Item>, cut: Cut, p: Option<nat>) {
    InChild(c, p) && forall j :: 0 <= j < |c| ==> (Left(cut, c[j].key) <==> j <= BackPos(p))
  }

  ghost predicate AllFront(cs: seq<seq<Item>>, cut: Cut, pos: seq<Option<nat>>) {
    |pos| == |cs| && forall i :: 0 <= i < |cs| ==> FrontAt(cs[i], cut, pos[i])
  }

  ghost predicate AllBack(cs: seq<seq<Item>>, cut: Cut, pos: seq<Option<nat>>) {
    |pos| == |cs| && forall i :: 0 <= i < |cs| ==> BackAt(cs[i], cut, pos[i])
  }

  // --- the child's own operations -----------------------------------------------------------------------

  function FirstOf(c: seq<Item>): (p: Option<nat>)
    ensures FrontAt(c, Start, p)
  {
    if c == [] then None else Some(0)
  }

  function LastOf(c: seq<Item>): (p: Option<nat>)
    ensures BackAt(c, End, p)
  {
    if c == [] then None else Some(|c| - 1)
  }

  method ChildSeek(c: seq<Item>, k: real) returns (p: Option<nat>)
    requires Ascending(c)
    ensures FrontAt(c, From(k), p)
  {
    var i := 0;
    while i < |c| && c[i].key < k
      invariant 0 <= i <= |c| && forall j :: 0 <= j < i ==> c[j].key < k
    {
      i := i + 1;
    }
    return if i < |c| then Some(i) else None;
  }

  // --- moving in the union ----------------------------------------------------------------------------------

  ghost predicate AllPlaced(cs: seq<seq<Item>>, pos: seq<Option<nat>>) {
    |pos| == |cs| && forall i :: 0 <= i < |cs| ==> InChild(cs[i], pos[i])
  }

  /** `current` is a child standing at the smallest key, if any child stands at one. */
  ghost predicate IsSmallest(cs: seq<seq<Item>>, pos: seq<Option<nat>>, current: Option<nat>)
    requires AllPlaced(cs, pos)
  {
    match current
    case None => forall i :: 0 <= i < |cs| ==> pos[i].None?
    case Some(x) => x < |cs| && pos[x].Some? && forall i :: 0 <= i < |cs| && pos[i].Some? ==>
           cs[x][pos[x].value].key <= cs[i][pos[i].value].key
  }

  ghost predicate IsLargest(cs: seq<seq<Item>>, pos: seq<Option<nat>>, current: Option<nat>)
    requires AllPlaced(cs, pos)
  {
    match current
    case None => forall i :: 0 <= i < |cs| ==> pos[i].None?
    case Some(x) => x < |cs| && pos[x].Some? && forall i :: 0 <= i < |cs| && pos[i].Some? ==>
           cs[x][pos[x].value].key >= cs[i][pos[i].value].key
  }

  /** Index `c` of the union is where the cut falls. */
  ghost predicate CutAt(m: seq<Item>, cut: Cut, c: nat) {
    c <= |m| && forall j :: 0 <= j < |m| ==> (Left(cut, m[j].key) <==> j < c)
  }

  lemma MergedIndex(cs: seq<seq<Item>>, m: seq<Item>, i: nat, a: nat) returns (d: nat)
    requires IsMerge(cs, m) && i < |cs| && a < |cs[i]|
    ensures d < |m| && m[d] == cs[i][a]
  {
    assert InSome(cs, cs[i][a]);
    d :| 0 <= d < |m| && m[d] == cs[i][a];
  }

  lemma ComesFrom(cs: seq<seq<Item>>, m: seq<Item>, d: nat) returns (i: nat, a: nat)
    requires IsMerge(cs, m) && d < |m|
    ensures i < |cs| && a < |cs[i]| && cs[i][a] == m[d]
  {
    assert InSome(cs, m[d]);
    i :| 0 <= i < |cs| && m[d] in cs[i];
    a :| 0 <= a < |cs[i]| && cs[i][a] == m[d];
  }

  /** With every child at its first item right of the cut, the smallest of them is the union's first item there. */
  lemma SmallestIsNext(cs: seq<seq<Item>>, m: seq<Item>, pos: seq<Option<nat>>, cut: Cut, current: Option<nat>, c: nat)
    requires ChildrenOk(cs) && IsMerge(cs, m) && AllFront(cs, cut, pos) && IsSmallest(cs, pos, current)
    requires CutAt(m, cut, c)
    ensures current.Some? <==> c < |m|
    ensures current.Some? ==> m[c] == cs[current.value][pos[current.value].value]
  {
    if c < |m| {
      var i, a := ComesFrom(cs, m, c);
      assert a >= FrontPos(cs[i], pos[i]);
      assert pos[i].Some? && cs[i][pos[i].value].key <= cs[i][a].key;
    }
    if current.Some? {
      var x := current.value;
      var d := MergedIndex(cs, m, x, pos[x].value);
      assert d >= c;
    }
  }

  lemma LargestIsPrev(cs: seq<seq<Item>>, m: seq<Item>, pos: seq<Option<nat>>, cut: Cut, current: Option<nat>, c: nat)
    requires ChildrenOk(cs) && IsMerge(cs, m) && AllBack(cs, cut, pos) && IsLargest(cs, pos, current)
    requires CutAt(m, cut, c)
    ensures current.Some? <==> c > 0
    ensures current.Some? ==> c > 0 && m[c - 1] == cs[current.value][pos[current.value].value]
  {
    if c > 0 {
      var i, a := ComesFrom(cs, m, c - 1);
      assert a <= BackPos(pos[i]);
      assert pos[i].Some? && cs[i][a].key <= cs[i][pos[i].value].key;
    }
    if current.Some? {
      var x := current.value;
      var d := MergedIndex(cs, m, x, pos[x].value);
      assert d < c;
    }
  }

  /** The smallest key right of a cut is itself the place where all children stand. */
  lemma SmallestPlaces(cs: seq<seq<Item>>, pos: seq<Option<nat>>, cut: Cut, x: nat)
    requires ChildrenOk(cs) && AllFront(cs, cut, pos) && IsSmallest(cs, pos, Some(x))
    ensures AllFront(cs, From(cs[x][pos[x].value].key), pos)
  {
    var k := cs[x][pos[x].value].key;
    assert !Left(cut, k);
    forall i | 0 <= i < |cs| ensures FrontAt(cs[i], From(k), pos[i]) {
      assert Ascending(cs[i]) && FrontAt(cs[i], cut, pos[i]);
    }
  }

  lemma LargestPlaces(cs: seq<seq<Item>>, pos: seq<Option<nat>>, cut: Cut, x: nat)
    requires ChildrenOk(cs) && AllBack(cs, cut, pos) && IsLargest(cs, pos, Some(x))
    ensures AllBack(cs, After(cs[x][pos[x].value].key), pos)
  {
    var k := cs[x][pos[x].value].key;
    assert Left(cut, k);
    forall i | 0 <= i < |cs| ensures BackAt(cs[i], After(k), pos[i]) {
      assert Ascending(cs[i]) && BackAt(cs[i], cut, pos[i]);
    }
  }

  /** A child that does not hold `k` stands at the same item on either side of it. */
  lemma StepOver(c: seq<Item>, k: real, p: Option<nat>)
    requires FrontAt(c, From(k), p) && forall j :: 0 <= j < |c| ==> c[j].key != k
    ensures FrontAt(c, After(k), p)
  {
  }

  lemma StepUnder(c: seq<Item>, k: real, p: Option<nat>)
    requires BackAt(c, After(k), p) && forall j :: 0 <= j < |c| ==> c[j].key != k
    ensures BackAt(c, From(k), p)
  {
  }

  // --- the iterator -------------------------------------------------------------------------------------------

  datatype Direction = Forward | Reverse

  class MergingIterator {
    const children: seq<seq<Item>>
    var pos: seq<Option<nat>>       // where each child stands
    var current: Option<nat>        // current_
    var direction: Direction
    ghost const merged: seq<Item>   // the sorted union
    ghost var cursor: int           // position in it: -1 before, its length after

    constructor (cs: seq<seq<Item>>)
      requires ChildrenOk(cs)
      ensures Ok() && children == cs && current == None && cursor == -1
    {
      children, pos := cs, seq(|cs|, i => None);
      current, direction := None, Forward;
      merged, cursor := MergeAll(cs), -1;
      MergeAllOk(cs);
    }

    ghost predicate Sound()
      reads this
    {
      ChildrenOk(children) && IsMerge(children, merged) && AllPlaced(children, pos)
    }

    ghost predicate Ok()
      reads this
    {
      && Sound() && -1 <= cursor <= |merged| && (current.Some? <==> 0 <= cursor < |merged|)
      && (current.Some? ==>
            && current.value < |children| && pos[current.value].Some?
            && merged[cursor] == children[current.value][pos[current.value].value]
            && (if direction.Forward? then AllFront(children, From(merged[cursor].key), pos)
                else AllBack(children, After(merged[cursor].key), pos)))
    }

    /** key() and value() are those of the item under the cursor. */
    function Current(): (x: Item)
      reads this
      requires Ok() && current.Some?
      ensures x == merged[cursor]
    {
      children[current.value][pos[current.value].value]
    }

    method FindSmallest() returns (smallest: Option<nat>)
      requires AllPlaced(children, pos)
      ensures IsSmallest(children, pos, smallest)
    {
      smallest := None;
      var i := 0;
      while i < |children|
        invariant 0 <= i <= |children|
        invariant smallest.None? ==> forall j :: 0 <= j < i ==> pos[j].None?
        invariant smallest.Some? ==> smallest.value < |children| && pos[smallest.value].Some?
        invariant smallest.Some? ==> forall j :: 0 <= j < i && pos[j].Some? ==>
                    children[smallest.value][pos[smallest.value].value].key <= children[j][pos[j].value].key
      {
        if pos[i].Some? {
          if smallest == None {
            smallest := Some(i);
          } else if children[i][pos[i].value].key < children[smallest.value][pos[smallest.value].value].key {
            smallest := Some(i);
          }
        }
        i := i + 1;
      }
    }

    method FindLargest() returns (largest: Option<nat>)
      requires AllPlaced(children, pos)
      ensures IsLargest(children, pos, largest)
    {
      largest := None;
      var i := |children|;
      while i > 0
        invariant 0 <= i <= |children|
        invariant largest.None? ==> forall j :: i <= j < |children| ==> pos[j].None?
        invariant largest.Some? ==> largest.value < |children| && pos[largest.value].Some?
        invariant largest.Some? ==> forall j :: i <= j < |children| && pos[j].Some? ==>
                    children[largest.value][pos[largest.value].value].key >= children[j][pos[j].value].key
      {
        i := i - 1;
        if pos[i].Some? {
          if largest == None {
            largest := Some(i);
          } else if children[i][pos[i].value].key > children[largest.value][pos[largest.value].value].key {
            largest := Some(i);
          }
        }
      }
    }

    /** All children stand right of the cut: go to the smallest. */
    method SettleForward(ghost cut: Cut, ghost c: nat)
      requires Sound() && AllFront(children, cut, pos) && CutAt(merged, cut, c)
      modifies this
      ensures Ok() && cursor == c
    {
      current := FindSmallest();
      direction := Forward;
      cursor := c;
      SmallestIsNext(children, merged, pos, cut, current, c);
      if current.Some? {
        SmallestPlaces(children, pos, cut, current.value);
      }
    }

    method SettleBackward(ghost cut: Cut, ghost c: nat)
      requires Sound() && AllBack(children, cut, pos) && CutAt(merged, cut, c)
      modifies this
      ensures Ok() && cursor == c - 1
    {
      current := FindLargest();
      direction := Reverse;
      cursor := c - 1;
      LargestIsPrev(children, merged, pos, cut, current, c);
      if current.Some? {
        LargestPlaces(children, pos, cut, current.value);
      }
    }

    method SeekToFirst()
      requires Sound()
      modifies this
      ensures Ok() && cursor == 0
    {
      var i := 0;
      while i < |children|
        invariant 0 <= i <= |children| && Sound() && forall j :: 0 <= j < i ==> FrontAt(children[j], Start, pos[j])
      {
        pos := pos[i := FirstOf(children[i])];
        i := i + 1;
      }
      SettleForward(Start, 0);
    }

    method SeekToLast()
      requires Sound()
      modifies this
      ensures Ok() && cursor == |merged| - 1
    {
      var i := 0;
      while i < |children|
        invariant 0 <= i <= |children| && Sound() && forall j :: 0 <= j < i ==> BackAt(children[j], End, pos[j])
      {
        pos := pos[i := LastOf(children[i])];
        i := i + 1;
      }
      SettleBackward(End, |merged|);
    }

    /** Positions at the first item at or after `target`. */
    method Seek(target: real)
      requires Sound()
      modifies this
      ensures Ok() && cursor >= 0 && CutAt(merged, From(target), cursor)
    {
      var i := 0;
      while i < |children|
        invariant 0 <= i <= |children| && Sound()
        invariant forall j :: 0 <= j < i ==> FrontAt(children[j], From(target), pos[j])
      {
        var p := ChildSeek(children[i], target);
        pos := pos[i := p];
        i := i + 1;
      }
      ghost var c := CutIndex(merged, From(target));
      SettleForward(From(target), c);
    }

    method Next()
      requires Ok() && current.Some?
      modifies this
      ensures Ok() && cursor == old(cursor) + 1
    {
      var x, a := current.value, pos[current.value].value;
      var k := children[x][a].key;
      ghost var c := cursor;
      if direction != Forward {
        var i := 0;
        while i < |children|
          invariant 0 <= i <= |children| && Sound() && pos[x] == Some(a)
          invariant forall j :: 0 <= j < i && j != x ==> FrontAt(children[j], After(k), pos[j])
        {
          if i != x {
            var p := ChildSeek(children[i], k);
            NotAfter(children[i], k, p);
            pos := pos[i := PastKey(children[i], p, k)];
          }
          i := i + 1;
        }
      } else {
        forall j | 0 <= j < |children| && j != x ensures FrontAt(children[j], After(k), pos[j]) {
          StepOver(children[j], k, pos[j]);
        }
      }
      pos := pos[x := NextOf(children[x], a)];
      CutAfter(merged, c);
      SettleForward(After(k), c + 1);
    }

    method Prev()
      requires Ok() && current.Some?
      modifies this
      ensures Ok() && cursor == old(cursor) - 1
    {
      var x, a := current.value, pos[current.value].value;
      var k := children[x][a].key;
      ghost var c := cursor;
      if direction != Reverse {
        var i := 0;
        while i < |children|
          invariant 0 <= i <= |children| && Sound() && pos[x] == Some(a)
          invariant forall j :: 0 <= j < i && j != x ==> BackAt(children[j], From(k), pos[j])
        {
          if i != x {
            var p := ChildSeek(children[i], k);
            pos := pos[i := if p.Some? then PrevOf(p.value) else LastOf(children[i])];
          }
          i := i + 1;
        }
      } else {
        forall j | 0 <= j < |children| && j != x ensures BackAt(children[j], From(k), pos[j]) {
          StepUnder(children[j], k, pos[j]);
        }
      }
      pos := pos[x := PrevOf(a)];
      CutAfter(merged, c);
      SettleBackward(From(k), c);
    }
  }

  /** Moves a child off `k` if it stands there. */
  function PastKey(c: seq<Item>, p: Option<nat>, k: real): Option<nat>
    requires InChild(c, p)
  {
    if p.Some? && c[p.value].key == k then NextOf(c, p.value) else p
  }

  lemma NotAfter(c: seq<Item>, k: real, p: Option<nat>)
    requires Ascending(c) && FrontAt(c, From(k), p)
    ensures FrontAt(c, After(k), PastKey(c, p, k))
  {
  }

  lemma CutAfter(m: seq<Item>, c: nat)
    requires Ascending(m) && c < |m|
    ensures CutAt(m, After(m[c].key), c + 1) && CutAt(m, From(m[c].key), c)
  {
  }

  lemma CutIndex(m: seq<Item>, cut: Cut) returns (c: nat)
    requires Ascending(m)
    ensures CutAt(m, cut, c)
  {
    c := 0;
    while c < |m| && Left(cut, m[c].key)
      invariant 0 <= c <= |m| && forall j :: 0 <= j < c ==> Left(cut, m[j].key)
    {
      c := c + 1;
    }
    forall j | c <= j < |m| ensures !Left(cut, m[j].key) {
      assert m[c].key <= m[j].key;
    }
  }

  // --- any sequence of calls ---------------------------------------------------------------------------

  ghost function KeysOf(m: seq<Item>): (ks: seq<real>)
    ensures |ks| == |m| && forall i :: 0 <= i < |m| ==> ks[i] == m[i].key
  {
    seq(|m|, i requires 0 <= i < |m| => m[i].key)
  }

  /** However the calls are mixed, the iterator stays on the cursor of the sorted union. */
  method Drive(it: MergingIterator, calls: seq<Call>)
    requires it.Ok()
    modifies it
    ensures it.Ok() && it.cursor == MovedBy(KeysOf(it.merged), old(it.cursor), calls)
  {
    var i := 0;
    while i < |calls|
      invariant 0 <= i <= |calls| && it.Ok()
      invariant it.cursor == MovedBy(KeysOf(it.merged), old(it.cursor), calls[..i])
    {
      assert calls[..i + 1][..i] == calls[..i];
      match calls[i] {
        case CallFirst => it.SeekToFirst();
        case CallLast => it.SeekToLast();
        case CallSeek(target) =>
          it.Seek(target);
          LowerBoundIs(KeysOf(it.merged), target, it.cursor);
        case CallNext => if it.current.Some? { it.Next(); }
        case CallPrev => if it.current.Some? { it.Prev(); }
      }
      i := i + 1;
    }
    assert calls[..i] == calls;
  }
}
