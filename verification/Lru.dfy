/**
 The LRU cache (util/cache.cc), one shard: entries on one of two intrusive circular
 lists, a chained hash table, reference counts and charges.

 Entries are named by numbers; the two list heads are entries 0 and 1.  Pointer
 fields are maps from entries to entries.
 */
module Lru {
  import opened Spec
  import opened LinkedLists

  const LRU: nat := 0
  const IN_USE: nat := 1

  // --- the hash table ---------------------------------------------------------------------------

  /** What an entry says and never changes. */
  datatype Handle = Handle(key: string, hash: nat, value: string, charge: nat)

  /** `hash & (length - 1)` for a length that is a power of two. */
  function Slot(hash: nat, length: nat): (b: nat)
    requires length > 0
    ensures b < length
  {
    hash % length
  }

  ghost predicate ChainOk(chain: seq<nat>, b: nat, length: nat, handles: map<nat, Handle>, S: set<nat>)
    requires length > 0
  {
    && (forall i :: 0 <= i < |chain| ==>
          chain[i] in S && chain[i] in handles && Slot(handles[chain[i]].hash, length) == b)
    && (forall i, j :: 0 <= i < j < |chain| ==> chain[i] != chain[j])
  }

  /** The buckets hold exactly the entries `S`, each once, in the chain its hash names. */
  ghost predicate Chains(buckets: seq<seq<nat>>, handles: map<nat, Handle>, S: set<nat>) {
    && |buckets| > 0
    && (forall b :: 0 <= b < |buckets| ==> ChainOk(buckets[b], b, |buckets|, handles, S))
    && (forall id :: id in S ==> id in handles && id in buckets[Slot(handles[id].hash, |buckets|)])
  }

  predicate Matches(h: Handle, key: string, hash: nat) {
    h.hash == hash && h.key == key
  }

  ghost predicate OnePerKey(handles: map<nat, Handle>, S: set<nat>) {
    forall x, y :: x in S && y in S && x in handles && y in handles ==>
                     (Matches(handles[x], handles[y].key, handles[y].hash) ==> x == y)
  }

  ghost predicate TableOk(buckets: seq<seq<nat>>, elems: nat, handles: map<nat, Handle>, S: set<nat>) {
    Chains(buckets, handles, S) && OnePerKey(handles, S) && elems == |S|
  }

  /** The entry of `S` for a key, if there is one. */
  ghost predicate IsEntry(handles: map<nat, Handle>, S: set<nat>, key: string, hash: nat, r: Option<nat>) {
    match r
    case Some(id) => id in S && id in handles && Matches(handles[id], key, hash)
    case None => forall x :: x in S && x in handles ==> !Matches(handles[x], key, hash)
  }

  /** FindPointer: the place in a chain that holds the key, or its end. */
  method FindPointer(chain: seq<nat>, handles: map<nat, Handle>, key: string, hash: nat) returns (i: nat)
    requires forall j :: 0 <= j < |chain| ==> chain[j] in handles
    ensures i <= |chain| && (i < |chain| ==> Matches(handles[chain[i]], key, hash))
    ensures forall j :: 0 <= j < i ==> !Matches(handles[chain[j]], key, hash)
  {
    i := 0;
    while i < |chain| && (handles[chain[i]].hash != hash || key != handles[chain[i]].key)
      invariant 0 <= i <= |chain| && forall j :: 0 <= j < i ==> !Matches(handles[chain[j]], key, hash)
    {
      i := i + 1;
    }
  }

  method TableLookup(buckets: seq<seq<nat>>, handles: map<nat, Handle>, key: string, hash: nat, ghost S: set<nat>)
      returns (r: Option<nat>)
    requires Chains(buckets, handles, S)
    ensures IsEntry(handles, S, key, hash, r)
  {
    var chain := buckets[Slot(hash, |buckets|)];
    assert ChainOk(chain, Slot(hash, |buckets|), |buckets|, handles, S);
    var i := FindPointer(chain, handles, key, hash);
    return if i < |chain| then Some(chain[i]) else None;
  }

  /** Putting an entry in front of its chain. */
  lemma PushFront(buckets: seq<seq<nat>>, handles: map<nat, Handle>, S: set<nat>, h: nat)
    requires Chains(buckets, handles, S) && h !in S && h in handles
    ensures var b := Slot(handles[h].hash, |buckets|); Chains(buckets[b := [h] + buckets[b]], handles, S + {h})
  {
    var b := Slot(handles[h].hash, |buckets|);
    var buckets' := buckets[b := [h] + buckets[b]];
    forall c | 0 <= c < |buckets| ensures ChainOk(buckets'[c], c, |buckets|, handles, S + {h}) {
      assert ChainOk(buckets[c], c, |buckets|, handles, S);
    }
    forall id | id in S + {h} ensures id in buckets'[Slot(handles[id].hash, |buckets|)] {
      assert id in S ==> id in buckets[Slot(handles[id].hash, |buckets|)];
    }
  }

  /** Moves every entry to a larger array of chains. */
  method Resize(buckets: seq<seq<nat>>, elems: nat, handles: map<nat, Handle>, ghost S: set<nat>)
      returns (buckets': seq<seq<nat>>)
    requires Chains(buckets, handles, S)
    ensures Chains(buckets', handles, S)
  {
    var newLength := 4;
    while newLength < elems
      invariant newLength > 0
      decreases elems - newLength
    {
      newLength := newLength * 2;
    }
    buckets' := seq(newLength, i => []);
    ghost var moved: set<nat> := {};
    var i := 0;
    while i < |buckets|
      invariant 0 <= i <= |buckets| && |buckets'| == newLength && Chains(buckets', handles, moved) && moved <= S
      invariant forall id :: id in moved ==> Slot(handles[id].hash, |buckets|) < i
      invariant forall id :: id in S && Slot(handles[id].hash, |buckets|) < i ==> id in moved
    {
      var chain := buckets[i];
      assert ChainOk(chain, i, |buckets|, handles, S);
      var j := 0;
      while j < |chain|
        invariant 0 <= j <= |chain| && |buckets'| == newLength && Chains(buckets', handles, moved) && moved <= S
        invariant forall id :: id in moved ==> Slot(handles[id].hash, |buckets|) < i || id in chain[..j]
        invariant forall id :: id in S && Slot(handles[id].hash, |buckets|) < i ==> id in moved
        invariant forall l :: 0 <= l < j ==> chain[l] in moved
      {
        var h := chain[j];
        var b := Slot(handles[h].hash, newLength);
        PushFront(buckets', handles, moved, h);
        buckets' := buckets'[b := [h] + buckets'[b]];
        moved := moved + {h};
        j := j + 1;
      }
      i := i + 1;
    }
    assert moved == S;
  }

  function Put(chain: seq<nat>, i: nat, h: nat): seq<nat>
    requires i < |chain|
  {
    chain[i := h]
  }

  ghost function Opt(r: Option<nat>): set<nat> {
    if r.Some? then {r.value} else {}
  }

  /** Replacing an entry of a chain by another of the same hash, or appending one. */
  lemma ReplaceInChain(buckets: seq<seq<nat>>, handles: map<nat, Handle>, S: set<nat>, b: nat, i: nat, h: nat)
    requires Chains(buckets, handles, S) && h !in S && h in handles && b == Slot(handles[h].hash, |buckets|)
    requires i < |buckets[b]|
    ensures Chains(buckets[b := Put(buckets[b], i, h)], handles, S - {buckets[b][i]} + {h})
  {
    var x, buckets' := buckets[b][i], buckets[b := Put(buckets[b], i, h)];
    var S' := S - {x} + {h};
    assert ChainOk(buckets[b], b, |buckets|, handles, S);
    forall c | 0 <= c < |buckets| ensures ChainOk(buckets'[c], c, |buckets|, handles, S') {
      assert ChainOk(buckets[c], c, |buckets|, handles, S);
    }
    forall id | id in S' ensures id in buckets'[Slot(handles[id].hash, |buckets|)] {
      if id == h {
        assert buckets'[b][i] == h;
      } else {
        var c := Slot(handles[id].hash, |buckets|);
        var j :| 0 <= j < |buckets[c]| && buckets[c][j] == id;
        assert buckets'[c][j] == id;
      }
    }
  }

  lemma AppendToChain(buckets: seq<seq<nat>>, handles: map<nat, Handle>, S: set<nat>, b: nat, h: nat)
    requires Chains(buckets, handles, S) && h !in S && h in handles && b == Slot(handles[h].hash, |buckets|)
    ensures Chains(buckets[b := buckets[b] + [h]], handles, S + {h})
  {
    var buckets' := buckets[b := buckets[b] + [h]];
    forall c | 0 <= c < |buckets| ensures ChainOk(buckets'[c], c, |buckets|, handles, S + {h}) {
      assert ChainOk(buckets[c], c, |buckets|, handles, S);
    }
    forall id | id in S + {h} ensures id in buckets'[Slot(handles[id].hash, |buckets|)] {
      assert id in S ==> id in buckets[Slot(handles[id].hash, |buckets|)];
    }
  }

  lemma DeleteFromChain(buckets: seq<seq<nat>>, handles: map<nat, Handle>, S: set<nat>, b: nat, i: nat)
    requires Chains(buckets, handles, S) && b < |buckets| && i < |buckets[b]|
    ensures Chains(buckets[b := Without(buckets[b], i)], handles, S - {buckets[b][i]})
  {
    var x, buckets' := buckets[b][i], buckets[b := Without(buckets[b], i)];
    var S' := S - {x};
    assert ChainOk(buckets[b], b, |buckets|, handles, S);
    forall c | 0 <= c < |buckets| ensures ChainOk(buckets'[c], c, |buckets|, handles, S') {
      assert ChainOk(buckets[c], c, |buckets|, handles, S);
    }
    forall id | id in S' ensures id in buckets'[Slot(handles[id].hash, |buckets|)] {
      var c := Slot(handles[id].hash, |buckets|);
      var j :| 0 <= j < |buckets[c]| && buckets[c][j] == id;
      assert c == b ==> Without(buckets[b], i)[if j < i then j else j - 1] == id;
    }
  }

  /** HandleTable::Insert: the entry takes the place of the one with its key, which is returned. */
  method TableInsert(buckets: seq<seq<nat>>, elems: nat, handles: map<nat, Handle>, h: nat, ghost S: set<nat>)
    returns (buckets': seq<seq<nat>>, elems': nat, replaced: Option<nat>)
    requires TableOk(buckets, elems, handles, S) && h !in S && h in handles
    ensures IsEntry(handles, S, handles[h].key, handles[h].hash, replaced)
    ensures TableOk(buckets', elems', handles, S - Opt(replaced) + {h})
  {
    var b := Slot(handles[h].hash, |buckets|);
    var chain := buckets[b];
    assert ChainOk(chain, b, |buckets|, handles, S);
    var i := FindPointer(chain, handles, handles[h].key, handles[h].hash);
    ChainEntry(buckets, handles, S, handles[h].key, handles[h].hash, i);
    replaced := if i < |chain| then Some(chain[i]) else None;
    NewKey(handles, S, h, replaced);
    Counted(S, replaced, h);
    if i < |chain| {
      ReplaceInChain(buckets, handles, S, b, i, h);
      buckets', elems' := buckets[b := Put(chain, i, h)], elems;
    } else {
      AppendToChain(buckets, handles, S, b, h);
      buckets', elems' := buckets[b := chain + [h]], elems + 1;
      hide Chains;
      if elems' > |buckets| {
        buckets' := Resize(buckets', elems', handles, S + {h});
      }
    }
  }

  /** What a search of the right chain says about the whole table. */
  lemma ChainEntry(buckets: seq<seq<nat>>, handles: map<nat, Handle>, S: set<nat>, key: string, hash: nat, i: nat)
    requires Chains(buckets, handles, S)
    requires var chain := buckets[Slot(hash, |buckets|)];
             && i <= |chain| && (forall j :: 0 <= j < |chain| ==> chain[j] in handles)
             && (i < |chain| ==> Matches(handles[chain[i]], key, hash))
             && (forall j :: 0 <= j < i ==> !Matches(handles[chain[j]], key, hash))
    ensures var chain := buckets[Slot(hash, |buckets|)];
            IsEntry(handles, S, key, hash, if i < |chain| then Some(chain[i]) else None)
  {
    var chain := buckets[Slot(hash, |buckets|)];
    assert ChainOk(chain, Slot(hash, |buckets|), |buckets|, handles, S);
    if i == |chain| {
      forall x | x in S && x in handles ensures !Matches(handles[x], key, hash) {
        assert x in buckets[Slot(handles[x].hash, |buckets|)];
      }
    }
  }

  lemma NewKey(handles: map<nat, Handle>, S: set<nat>, h: nat, replaced: Option<nat>)
    requires OnePerKey(handles, S) && h in handles && IsEntry(handles, S, handles[h].key, handles[h].hash, replaced)
    ensures OnePerKey(handles, S - Opt(replaced) + {h})
  {
    forall y | y in S && y in handles && y !in Opt(replaced)
      ensures !Matches(handles[y], handles[h].key, handles[h].hash)
    {
      if replaced.Some? {
        var r := replaced.value;
        assert y != r && !Matches(handles[y], handles[r].key, handles[r].hash);
      }
    }
  }

  lemma Counted(S: set<nat>, replaced: Option<nat>, h: nat)
    requires h !in S && (replaced.Some? ==> replaced.value in S)
    ensures |S - Opt(replaced) + {h}| == if replaced.Some? then |S| else |S| + 1
    ensures replaced.None? ==> S - Opt(replaced) + {h} == S + {h}
  {
    if replaced.Some? {
      assert |S - {replaced.value}| == |S| - 1;
    } else {
      assert S - Opt(replaced) + {h} == S + {h};
    }
  }

  /** HandleTable::Remove. */
  method TableRemove(buckets: seq<seq<nat>>, elems: nat, handles: map<nat, Handle>, key: string, hash: nat,
                     ghost S: set<nat>)
    returns (buckets': seq<seq<nat>>, elems': nat, result: Option<nat>)
    requires TableOk(buckets, elems, handles, S)
    ensures IsEntry(handles, S, key, hash, result)
    ensures TableOk(buckets', elems', handles, S - Opt(result))
  {
    var b := Slot(hash, |buckets|);
    var chain := buckets[b];
    assert ChainOk(chain, b, |buckets|, handles, S);
    var i := FindPointer(chain, handles, key, hash);
    if i < |chain| {
      DeleteFromChain(buckets, handles, S, b, i);
      result := Some(chain[i]);
      assert |S| > 0 by { assert chain[i] in S; }
      buckets', elems' := buckets[b := chain[..i] + chain[i + 1..]], elems - 1;
    } else {
      result := None;
      buckets', elems' := buckets, elems;
      assert S - Opt(result) == S;
    }
  }

  // --- entries on lists ----------------------------------------------------------------------------

  /** The list without `e`. */
  ghost function Remove(l: seq<nat>, e: nat): seq<nat> {
    if l == [] then [] else if l[0] == e then l[1..] else [l[0]] + Remove(l[1..], e)
  }

  ghost predicate NoRepeat(l: seq<nat>) {
    forall i, j :: 0 <= i < j < |l| ==> l[i] != l[j]
  }

  lemma {:induction false} RemoveIs(l: seq<nat>, e: nat, i: nat)
    requires NoRepeat(l) && i < |l| && l[i] == e
    ensures Remove(l, e) == Without(l, i)
  {
    if i > 0 {
      RemoveIs(l[1..], e, i - 1);
    }
  }

  lemma {:induction false} RemoveOther(l: seq<nat>, e: nat)
    requires e !in l
    ensures Remove(l, e) == l
  {
    if l != [] {
      RemoveOther(l[1..], e);
    }
  }

  lemma {:induction false} RemoveHas(l: seq<nat>, e: nat)
    requires NoRepeat(l)
    ensures NoRepeat(Remove(l, e)) && forall x :: x in Remove(l, e) <==> x in l && x != e
  {
    if l != [] {
      RemoveHas(l[1..], e);
      assert l == [l[0]] + l[1..];
      var r := Remove(l[1..], e);
      forall i, j | 0 <= i < j < |[l[0]] + r| ensures ([l[0]] + r)[i] != ([l[0]] + r)[j] {
        assert r[j - 1] in r;
      }
    }
  }

  /** Two disjoint circular lists of entries. */
  ghost predicate Rings(k: Links, lru: seq<nat>, inUse: seq<nat>) {
    && Ring(k, LRU, lru) && Ring(k, IN_USE, inUse) && NoRepeat(lru) && NoRepeat(inUse)
    && (forall x :: x in lru ==> x >= 2 && x !in inUse) && (forall x :: x in inUse ==> x >= 2)
  }

  lemma TakeOff(k: Links, lru: seq<nat>, inUse: seq<nat>, e: nat)
    requires Rings(k, lru, inUse) && (e in lru || e in inUse)
    ensures e in k.next && e in k.prev && Rings(Unlink(k, e), Remove(lru, e), Remove(inUse, e))
  {
    RemoveHas(lru, e);
    RemoveHas(inUse, e);
    if e in lru {
      TakeOffOne(k, LRU, lru, IN_USE, inUse, e);
    } else {
      TakeOffOne(k, IN_USE, inUse, LRU, lru, e);
    }
  }

  lemma TakeOffOne(k: Links, head: nat, l: seq<nat>, other: nat, m: seq<nat>, e: nat)
    requires Ring(k, head, l) && Ring(k, other, m) && NoRepeat(l) && e in l && head != other && head < 2 && other < 2
    requires forall x :: x in l ==> x >= 2 && x !in m
    requires forall x :: x in m ==> x >= 2
    ensures e in k.next && e in k.prev
    ensures Ring(Unlink(k, e), head, Remove(l, e)) && Ring(Unlink(k, e), other, Remove(m, e))
  {
    var i :| 0 <= i < |l| && l[i] == e;
    InRing(k, head, l, i);
    RemoveIs(l, e, i);
    UnlinkRing(k, head, l, i);
    RemoveOther(m, e);
    var c := Cycle(head, l);
    assert c[i] == head || c[i] in l;
    assert c[i + 2] == head || c[i + 2] in l;
    OtherRing(k, Unlink(k, e), other, m);
  }

  lemma PutOn(k: Links, lru: seq<nat>, inUse: seq<nat>, head: nat, e: nat)
    requires Rings(k, lru, inUse) && head < 2 && e >= 2 && e !in lru && e !in inUse
    ensures LRU in k.prev && IN_USE in k.prev
    ensures if head == LRU then Rings(Link(k, LRU, e), lru + [e], inUse)
            else Rings(Link(k, IN_USE, e), lru, inUse + [e])
  {
    HeadLinked(k, LRU, lru);
    HeadLinked(k, IN_USE, inUse);
    var l, m := if head == LRU then lru else inUse, if head == LRU then inUse else lru;
    var other := if head == LRU then IN_USE else LRU;
    LinkRing(k, head, l, e);
    assert k.prev[head] == head || k.prev[head] in l;
    OtherRing(k, Link(k, head, e), other, m);
  }

  // --- references and charges -------------------------------------------------------------------------

  /** References are those of clients, plus the cache's own. */
  ghost predicate RefsOk(refs: map<nat, nat>, held: multiset<nat>, cached: set<nat>) {
    && (forall id :: id in refs ==> refs[id] > 0 && refs[id] == held[id] + (if id in cached then 1 else 0))
    && (forall id :: id in cached || id in held ==> id in refs)
  }

  /** Cached entries no client refers to are on the LRU list, the others on the in-use list. */
  ghost predicate PlacesOk(lru: seq<nat>, inUse: seq<nat>, held: multiset<nat>, cached: set<nat>) {
    && (forall id :: id in lru <==> id in cached && id !in held)
    && (forall id :: id in inUse <==> id in cached && id in held)
  }

  ghost predicate EntriesOk(refs: map<nat, nat>, lru: seq<nat>, inUse: seq<nat>, held: multiset<nat>,
                            cached: set<nat>) {
    RefsOk(refs, held, cached) && PlacesOk(lru, inUse, held, cached)
  }

  ghost function Charges(handles: map<nat, Handle>, l: seq<nat>): nat {
    if l == [] then 0 else Charges(handles, l[1..]) + (if l[0] in handles then handles[l[0]].charge else 0)
  }

  lemma {:induction false} ChargesRemove(handles: map<nat, Handle>, l: seq<nat>, e: nat)
    requires e in l && e in handles
    ensures Charges(handles, l) == Charges(handles, Remove(l, e)) + handles[e].charge
  {
    if l[0] != e {
      ChargesRemove(handles, l[1..], e);
      assert ([l[0]] + Remove(l[1..], e))[1..] == Remove(l[1..], e);
    }
  }

  lemma {:induction false} ChargesAppend(handles: map<nat, Handle>, l: seq<nat>, e: nat)
    requires e in handles
    ensures Charges(handles, l + [e]) == Charges(handles, l) + handles[e].charge
  {
    if l != [] {
      ChargesAppend(handles, l[1..], e);
      assert (l + [e])[1..] == l[1..] + [e];
    }
  }

  lemma {:induction false} ChargesKept(handles: map<nat, Handle>, handles': map<nat, Handle>, l: seq<nat>)
    requires forall x :: x in l ==> x in handles && x in handles' && handles'[x] == handles[x]
    ensures Charges(handles', l) == Charges(handles, l)
  {
    if l != [] {
      ChargesKept(handles, handles', l[1..]);
    }
  }

  // --- the cache ---------------------------------------------------------------------------------------------

  class LruCache {
    const capacity: nat
    var usage: nat
    var links: Links
    var handles: map<nat, Handle>
    var refs: map<nat, nat>        // of the entries not freed yet
    var cached: set<nat>           // those with in_cache set
    var buckets: seq<seq<nat>>
    var elems: nat
    var nextId: nat                // the next entry to be allocated
    ghost var lru: seq<nat>        // the LRU list, oldest first
    ghost var inUse: seq<nat>
    ghost var held: multiset<nat>  // references clients hold

    ghost predicate Ok()
      reads this
    {
      && Rings(links, lru, inUse) && EntriesOk(refs, lru, inUse, held, cached)
      && TableOk(buckets, elems, handles, cached)
      && usage == Charges(handles, lru) + Charges(handles, inUse)
      && (forall id :: id in handles <==> 2 <= id < nextId) && refs.Keys <= handles.Keys && nextId >= 2
    }

    constructor (size: nat)
      ensures Ok() && capacity == size && cached == {} && held == multiset{} && usage == 0
    {
      capacity, usage, handles, refs, cached, elems, nextId := size, 0, map[], map[], {}, 0, 2;
      links := Links(map[LRU := LRU, IN_USE := IN_USE], map[LRU := LRU, IN_USE := IN_USE]);
      buckets := seq(4, i => []);
      lru, inUse, held := [], [], multiset{};
    }

    /** Ref: a client's first reference takes an entry off the LRU list. */
    method Ref(e: nat)
      requires Ok() && e in cached
      modifies this`links, this`refs, this`lru, this`inUse, this`held
      ensures Ok() && held == old(held) + multiset{e} && lru == Remove(old(lru), e)
      ensures refs == old(refs)[e := old(refs)[e] + 1]
    {
      hide Rings, EntriesOk, TableOk, Charges, Remove;
      RefEntries(links, refs, lru, inUse, held, cached, e);
      Placement(refs, lru, inUse, held, cached, e);
      if refs[e] == 1 && e in cached {
        Shift(links, handles, lru, inUse, e);
        links := Link(Unlink(links, e), IN_USE, e);
        inUse := inUse + [e];
      }
      lru := Remove(lru, e);
      refs := refs[e := refs[e] + 1];
      held := held + multiset{e};
    }

    /** Unref: the last reference frees the entry; the last one of a client puts a cached entry on the LRU list. */
    method Unref(e: nat)
      requires Rings(links, lru, inUse) && e in refs && refs[e] > 0 && e in handles
      requires (refs[e] == 1 ==> e !in cached) && (e in cached && refs[e] == 2 ==> e in inUse)
      modifies this`links, this`refs, this`lru, this`inUse
      ensures Rings(links, lru, inUse) && refs == OneLess(old(refs), e)
      ensures var last := e in cached && old(refs)[e] == 2;
              && lru == (if last then old(lru) + [e] else old(lru))
              && inUse == if last then Remove(old(inUse), e) else old(inUse)
      ensures Charges(handles, lru) + Charges(handles, inUse)
              == Charges(handles, old(lru)) + Charges(handles, old(inUse))
    {
      hide Rings, Charges, Remove;
      refs := OneLess(refs, e);
      if e in refs && e in cached && refs[e] == 1 {
        ShiftBack(links, handles, lru, inUse, e);
        links := Link(Unlink(links, e), LRU, e);
        lru, inUse := lru + [e], Remove(inUse, e);
      }
    }

    /** Gives back a reference obtained from Insert or Lookup. */
    method Release(e: nat)
      requires Ok() && e in held
      modifies this`links, this`refs, this`lru, this`inUse, this`held
      ensures Ok() && held == old(held) - multiset{e} && refs == OneLess(old(refs), e)
      ensures lru == if e in cached && e !in held then old(lru) + [e] else old(lru)
    {
      hide Rings, EntriesOk, TableOk, Charges, Remove;
      ReleaseEntries(links, refs, lru, inUse, held, cached, e);
      if e in cached {
        HeldCount(refs, lru, inUse, held, cached, e);
      }
      Unref(e);
      held := held - multiset{e};
    }

    /** Everything but the hash table, which has given up `e` already. */
    ghost predicate Leaving(e: nat)
      reads this
    {
      && Rings(links, lru, inUse) && EntriesOk(refs, lru, inUse, held, cached) && e in cached
      && TableOk(buckets, elems, handles, cached - {e})
      && usage == Charges(handles, lru) + Charges(handles, inUse)
      && (forall id :: id in handles <==> 2 <= id < nextId) && refs.Keys <= handles.Keys && nextId >= 2
    }

    /** FinishErase. */
    method FinishErase(e: nat)
      requires Leaving(e)
      modifies this`links, this`refs, this`lru, this`inUse, this`cached, this`usage
      ensures Ok() && cached == old(cached) - {e} && refs == OneLess(old(refs), e) && lru == Remove(old(lru), e)
      ensures e in handles && usage == old(usage) - handles[e].charge
    {
      hide Rings, EntriesOk, TableOk, Charges, Remove;
      EraseEntries(links, refs, lru, inUse, held, cached, e);
      EraseCharges(links, handles, lru, inUse, e);
      TakeOff(links, lru, inUse, e);
      links := Unlink(links, e);
      lru, inUse := Remove(lru, e), Remove(inUse, e);
      cached := cached - {e};
      usage := usage - handles[e].charge;
      Unref(e);
    }

    /** The entry for a key, with a reference to it for the caller. */
    method Lookup(key: string, hash: nat) returns (r: Option<nat>)
      requires Ok()
      modifies this`links, this`refs, this`lru, this`inUse, this`held
      ensures Ok() && IsEntry(handles, cached, key, hash, r)
      ensures if r.Some? then held == old(held) + multiset{r.value} && lru == Remove(old(lru), r.value)
              else held == old(held) && lru == old(lru) && refs == old(refs)
    {
      hide Rings, EntriesOk, Charges, Remove;
      r := TableLookup(buckets, handles, key, hash, cached);
      if r.Some? {
        Ref(r.value);
      }
    }

    /** Takes a key out of the cache; its entry lives on while clients refer to it. */
    method Erase(key: string, hash: nat) returns (r: Option<nat>)
      requires Ok()
      modifies this`links, this`refs, this`lru, this`inUse, this`cached, this`usage, this`buckets, this`elems
      ensures Ok() && IsEntry(handles, old(cached), key, hash, r) && cached == old(cached) - Opt(r)
      ensures if r.Some?
              then r.value in old(refs) && refs == OneLess(old(refs), r.value) && lru == Remove(old(lru), r.value)
              else refs == old(refs) && lru == old(lru)
    {
      hide Rings, EntriesOk, TableOk, Charges, Remove;
      buckets, elems, r := TableRemove(buckets, elems, handles, key, hash, cached);
      if r.Some? {
        CachedRef(refs, lru, inUse, held, cached, r.value);
        FinishErase(r.value);
      } else {
        assert cached - Opt(r) == cached;
      }
    }

    /** Evicts the entry that has been unreferenced for longest. */
    method EvictOldest()
      requires Ok() && lru != []
      modifies this`links, this`refs, this`lru, this`inUse, this`cached, this`usage, this`buckets, this`elems
      ensures Ok() && lru == old(lru)[1..] && cached == old(cached) - {old(lru)[0]}
      ensures old(lru)[0] in handles && usage == old(usage) - handles[old(lru)[0]].charge
      ensures old(lru)[0] in old(refs) && refs == old(refs) - {old(lru)[0]}
    {
      HeadLinked(links, LRU, lru);
      var e := links.next[LRU];
      Oldest(refs, lru, inUse, held, cached, e);
      hide Rings, EntriesOk, TableOk, Charges;
      var r;
      buckets, elems, r := TableRemove(buckets, elems, handles, handles[e].key, handles[e].hash, cached);
      assert r == Some(e);
      FinishErase(e);
    }

    /** Throws out every entry no client refers to. */
    method Prune()
      requires Ok()
      modifies this`links, this`refs, this`lru, this`inUse, this`cached, this`usage, this`buckets, this`elems
      ensures Ok() && lru == [] && cached == old(cached) - (set x | x in old(lru))
    {
      hide Rings, EntriesOk, TableOk, Charges;
      ghost var n := 0;
      var more := IsLruEmpty();
      while !more
        invariant Ok() && 0 <= n <= |old(lru)| && lru == old(lru)[n..] && (more <==> lru == [])
        invariant cached == old(cached) - (set x | x in old(lru)[..n])
        decreases |lru|
      {
        assert old(lru)[..n + 1] == old(lru)[..n] + [old(lru)[n]];
        EvictOldest();
        n := n + 1;
        more := IsLruEmpty();
      }
      assert old(lru)[..n] == old(lru);
    }

    method IsLruEmpty() returns (b: bool)
      requires Ok()
      ensures b <==> lru == []
    {
      HeadLinked(links, LRU, lru);
      return links.next[LRU] == LRU;
    }

    /** Allocates an entry with one reference, for the caller. */
    method Allocate(h: Handle) returns (e: nat)
      requires Ok()
      modifies this`handles, this`refs, this`nextId, this`held
      ensures Ok() && e == old(nextId) && nextId == e + 1 && e !in old(handles) && e !in cached
      ensures handles == old(handles)[e := h] && refs == old(refs)[e := 1] && held == old(held) + multiset{e}
    {
      hide Rings, Charges, TableOk;
      e := nextId;
      NewEntry(refs, lru, inUse, held, cached, e);
      CachedKnown(refs, lru, inUse, held, cached, handles);
      TableKept(buckets, elems, handles, handles[e := h], cached);
      ChargesKept(handles, handles[e := h], lru);
      ChargesKept(handles, handles[e := h], inUse);
      hide EntriesOk;
      nextId := e + 1;
      handles := handles[e := h];
      refs := refs[e := 1];
      held := held + multiset{e};
    }

    /** Puts a new entry into the cache, in place of the one with its key. */
    method Admit(e: nat) returns (replaced: Option<nat>)
      requires Ok() && e !in cached && e in held && e in handles
      modifies this
      ensures Ok() && held == old(held) && handles == old(handles) && nextId == old(nextId)
      ensures IsEntry(handles, old(cached), handles[e].key, handles[e].hash, replaced)
      ensures cached == old(cached) - Opt(replaced) + {e}
      ensures lru == if replaced.Some? then Remove(old(lru), replaced.value) else old(lru)
      ensures replaced.Some? ==> replaced.value != e
    {
      hide Rings, EntriesOk, TableOk, Charges, Remove;
      AdmitEntries(links, refs, lru, inUse, held, cached, e);
      refs := refs[e := refs[e] + 1];
      PutOn(links, lru, inUse, IN_USE, e);
      ChargesAppend(handles, inUse, e);
      links := Link(links, IN_USE, e);
      inUse := inUse + [e];
      usage := usage + handles[e].charge;
      buckets, elems, replaced := TableInsert(buckets, elems, handles, e, cached);
      ghost var before := cached;
      cached := cached + {e};
      if replaced.Some? {
        assert cached - {replaced.value} == before - Opt(replaced) + {e};
        FinishErase(replaced.value);
      } else {
        assert cached == before - Opt(replaced) + {e};
      }
    }

    /** Evicts unreferenced entries, oldest first, and no more than it takes to get down to the capacity. */
    method Shrink() returns (ghost n: nat)
      requires Ok()
      modifies this`links, this`refs, this`lru, this`inUse, this`cached, this`usage, this`buckets, this`elems
      ensures Ok() && (usage <= capacity || lru == [])
      ensures n <= |old(lru)| && lru == old(lru)[n..] && cached == old(cached) - (set x | x in old(lru)[..n])
      ensures n > 0 ==> old(lru)[n - 1] in handles && usage + handles[old(lru)[n - 1]].charge > capacity
    {
      hide Rings, EntriesOk, TableOk, Charges;
      n := 0;
      var empty := IsLruEmpty();
      while usage > capacity && !empty
        invariant Ok() && n <= |old(lru)| && lru == old(lru)[n..] && (empty <==> lru == [])
        invariant cached == old(cached) - (set x | x in old(lru)[..n])
        invariant n > 0 ==> old(lru)[n - 1] in handles && usage + handles[old(lru)[n - 1]].charge > capacity
        decreases |lru|
      {
        assert old(lru)[..n + 1] == old(lru)[..n] + [old(lru)[n]];
        EvictOldest();
        n := n + 1;
        empty := IsLruEmpty();
      }
    }

    /**
     Insert: a new entry for the key, with a reference for the caller.  It replaces the
     key's old entry, and entries nobody refers to are evicted to make room, those
     released longest ago first.
     */
    method Insert(key: string, hash: nat, value: string, charge: nat)
        returns (e: nat, ghost replaced: Option<nat>, ghost n: nat)
      requires Ok()
      modifies this
      ensures Ok() && (usage <= capacity || lru == [])
      ensures e !in old(handles) && handles == old(handles)[e := Handle(key, hash, value, charge)]
      ensures held == old(held) + multiset{e}
      ensures capacity > 0 ==> IsEntry(handles, old(cached), key, hash, replaced)
      ensures capacity == 0 ==> replaced == None
      ensures var kept := if replaced.Some? then Remove(old(lru), replaced.value) else old(lru);
              var all := if capacity > 0 then old(cached) - Opt(replaced) + {e} else old(cached);
              && n <= |kept| && lru == kept[n..] && cached == all - (set x | x in kept[..n])
              && (n > 0 ==> kept[n - 1] in handles && usage + handles[kept[n - 1]].charge > capacity)
    {
      hide Rings, EntriesOk, TableOk, Charges, Remove;
      e := Allocate(Handle(key, hash, value, charge));
      replaced := None;
      if capacity > 0 {
        var r := Admit(e);
        replaced := r;
      }
      n := Shrink();
    }
  }

  /** An entry a client refers to is never freed, whatever the cache does meanwhile. */
  lemma HeldIsLive(c: LruCache, id: nat)
    requires c.Ok() && id in c.held
    ensures id in c.refs && id in c.handles
  {
  }

  /** An entry is freed exactly when neither a client nor the cache refers to it. */
  lemma FreedExactly(c: LruCache, id: nat)
    requires c.Ok() && id in c.handles
    ensures id in c.refs <==> id in c.held || id in c.cached
    ensures id in c.refs ==> c.refs[id] == c.held[id] + (if id in c.cached then 1 else 0)
  {
  }

  /** A cached entry is on exactly one list: the LRU list if and only if the cache holds its only reference. */
  lemma OnOneList(c: LruCache, id: nat)
    requires c.Ok() && id in c.cached
    ensures id in c.refs && (id in c.lru <==> c.refs[id] == 1) && (id in c.inUse <==> c.refs[id] > 1)
  {
    Placement(c.refs, c.lru, c.inUse, c.held, c.cached, id);
  }

  lemma NewEntry(refs: map<nat, nat>, lru: seq<nat>, inUse: seq<nat>, held: multiset<nat>, cached: set<nat>, e: nat)
    requires EntriesOk(refs, lru, inUse, held, cached) && e !in refs
    ensures e !in cached && EntriesOk(refs[e := 1], lru, inUse, held + multiset{e}, cached)
  {
  }

  lemma AdmitEntries(k: Links, refs: map<nat, nat>, lru: seq<nat>, inUse: seq<nat>, held: multiset<nat>,
                     cached: set<nat>, e: nat)
    requires EntriesOk(refs, lru, inUse, held, cached) && Rings(k, lru, inUse) && e in held && e !in cached
    ensures e in refs && e !in lru && e !in inUse
    ensures EntriesOk(refs[e := refs[e] + 1], lru, inUse + [e], held, cached + {e})
  {
  }

  lemma CachedKnown(refs: map<nat, nat>, lru: seq<nat>, inUse: seq<nat>, held: multiset<nat>, cached: set<nat>,
                    handles: map<nat, Handle>)
    requires EntriesOk(refs, lru, inUse, held, cached) && refs.Keys <= handles.Keys
    ensures forall x :: x in lru || x in inUse || x in cached ==> x in handles
  {
  }

  /** The table depends on what its entries say only. */
  lemma TableKept(buckets: seq<seq<nat>>, elems: nat, handles: map<nat, Handle>, handles': map<nat, Handle>,
                  S: set<nat>)
    requires TableOk(buckets, elems, handles, S)
    requires forall x :: x in handles ==> x in handles' && handles'[x] == handles[x]
    ensures TableOk(buckets, elems, handles', S)
  {
    forall b | 0 <= b < |buckets| ensures ChainOk(buckets[b], b, |buckets|, handles', S) {
      assert ChainOk(buckets[b], b, |buckets|, handles, S);
    }
  }

  lemma CachedRef(refs: map<nat, nat>, lru: seq<nat>, inUse: seq<nat>, held: multiset<nat>, cached: set<nat>, e: nat)
    requires EntriesOk(refs, lru, inUse, held, cached) && e in cached
    ensures e in refs && refs[e] > 0
  {
  }

  /** The oldest entry of the LRU list is cached and has no reference but the cache's. */
  lemma Oldest(refs: map<nat, nat>, lru: seq<nat>, inUse: seq<nat>, held: multiset<nat>, cached: set<nat>, e: nat)
    requires EntriesOk(refs, lru, inUse, held, cached) && lru != [] && e == lru[0]
    ensures e in cached && e in refs && refs[e] == 1 && Remove(lru, e) == lru[1..]
  {
  }

  lemma HeldCount(refs: map<nat, nat>, lru: seq<nat>, inUse: seq<nat>, held: multiset<nat>, cached: set<nat>, e: nat)
    requires EntriesOk(refs, lru, inUse, held, cached) && e in refs && e in cached
    ensures e in held - multiset{e} <==> refs[e] > 2
  {
  }

  /** One reference less; the last one frees the entry. */
  function OneLess(refs: map<nat, nat>, e: nat): map<nat, nat>
    requires e in refs && refs[e] > 0
  {
    if refs[e] == 1 then refs - {e} else refs[e := refs[e] - 1]
  }

  lemma ReleaseEntries(k: Links, refs: map<nat, nat>, lru: seq<nat>, inUse: seq<nat>, held: multiset<nat>,
                       cached: set<nat>, e: nat)
    requires EntriesOk(refs, lru, inUse, held, cached) && e in held && Rings(k, lru, inUse)
    ensures e in refs && refs[e] > 0 && (refs[e] == 1 ==> e !in cached) && (e in cached && refs[e] == 2 ==> e in inUse)
    ensures var last := e in cached && refs[e] == 2;
            EntriesOk(OneLess(refs, e), if last then lru + [e] else lru, if last then Remove(inUse, e) else inUse,
                      held - multiset{e}, cached)
  {
    ReleaseRefs(refs, held, cached, e);
    ReleasePlaces(lru, inUse, held, cached, e);
    assert e in cached ==> refs[e] == held[e] + 1;
    hide RefsOk, PlacesOk;
  }

  lemma ReleaseRefs(refs: map<nat, nat>, held: multiset<nat>, cached: set<nat>, e: nat)
    requires RefsOk(refs, held, cached) && e in held
    ensures e in refs && refs[e] > 0 && RefsOk(OneLess(refs, e), held - multiset{e}, cached)
  {
  }

  lemma ReleasePlaces(lru: seq<nat>, inUse: seq<nat>, held: multiset<nat>, cached: set<nat>, e: nat)
    requires PlacesOk(lru, inUse, held, cached) && e in held && NoRepeat(inUse)
    ensures var last := e in cached && held[e] == 1;
            PlacesOk(if last then lru + [e] else lru, if last then Remove(inUse, e) else inUse,
                     held - multiset{e}, cached)
  {
    RemoveHas(inUse, e);
  }

  lemma EraseEntries(k: Links, refs: map<nat, nat>, lru: seq<nat>, inUse: seq<nat>, held: multiset<nat>,
                     cached: set<nat>, e: nat)
    requires EntriesOk(refs, lru, inUse, held, cached) && e in cached && Rings(k, lru, inUse)
    ensures e in refs && refs[e] > 0 && (e in lru || e in inUse)
    ensures EntriesOk(OneLess(refs, e), Remove(lru, e), Remove(inUse, e), held, cached - {e})
  {
    RemoveHas(lru, e);
    RemoveHas(inUse, e);
  }

  lemma EraseCharges(k: Links, handles: map<nat, Handle>, lru: seq<nat>, inUse: seq<nat>, e: nat)
    requires Rings(k, lru, inUse) && (e in lru || e in inUse) && e in handles
    ensures Charges(handles, lru) + Charges(handles, inUse)
            == Charges(handles, Remove(lru, e)) + Charges(handles, Remove(inUse, e)) + handles[e].charge
  {
    if e in lru {
      RemoveOther(inUse, e);
      ChargesRemove(handles, lru, e);
    } else {
      RemoveOther(lru, e);
      ChargesRemove(handles, inUse, e);
    }
  }

  /** Where an entry is on the lists follows from its references. */
  lemma Placement(refs: map<nat, nat>, lru: seq<nat>, inUse: seq<nat>, held: multiset<nat>, cached: set<nat>, e: nat)
    requires EntriesOk(refs, lru, inUse, held, cached) && e in refs
    ensures e in lru <==> refs[e] == 1 && e in cached
    ensures e in inUse <==> refs[e] > 1 && e in cached
    ensures e !in lru ==> Remove(lru, e) == lru
    ensures e !in inUse ==> Remove(inUse, e) == inUse
  {
    if e !in lru { RemoveOther(lru, e); }
    if e !in inUse { RemoveOther(inUse, e); }
  }

  lemma RefEntries(k: Links, refs: map<nat, nat>, lru: seq<nat>, inUse: seq<nat>, held: multiset<nat>, cached: set<nat>,
                   e: nat)
    requires EntriesOk(refs, lru, inUse, held, cached) && e in cached && Rings(k, lru, inUse)
    ensures e in refs
    ensures EntriesOk(refs[e := refs[e] + 1], Remove(lru, e), if refs[e] == 1 then inUse + [e] else inUse,
                      held + multiset{e}, cached)
  {
    RemoveHas(lru, e);
  }

  /** From the LRU list to the end of the other. */
  lemma Shift(k: Links, handles: map<nat, Handle>, lru: seq<nat>, inUse: seq<nat>, e: nat)
    requires Rings(k, lru, inUse) && e in lru && e in handles
    ensures e in k.next && e in k.prev && IN_USE in Unlink(k, e).prev
    ensures Rings(Link(Unlink(k, e), IN_USE, e), Remove(lru, e), inUse + [e])
    ensures Charges(handles, Remove(lru, e)) + Charges(handles, inUse + [e])
            == Charges(handles, lru) + Charges(handles, inUse)
  {
    TakeOff(k, lru, inUse, e);
    RemoveHas(lru, e);
    RemoveOther(inUse, e);
    PutOn(Unlink(k, e), Remove(lru, e), inUse, IN_USE, e);
    ChargesRemove(handles, lru, e);
    ChargesAppend(handles, inUse, e);
  }

  /** From the other list to the newest end of the LRU list. */
  lemma ShiftBack(k: Links, handles: map<nat, Handle>, lru: seq<nat>, inUse: seq<nat>, e: nat)
    requires Rings(k, lru, inUse) && e in inUse && e in handles
    ensures e in k.next && e in k.prev && LRU in Unlink(k, e).prev
    ensures Rings(Link(Unlink(k, e), LRU, e), lru + [e], Remove(inUse, e))
    ensures Charges(handles, lru + [e]) + Charges(handles, Remove(inUse, e))
            == Charges(handles, lru) + Charges(handles, inUse)
  {
    TakeOff(k, lru, inUse, e);
    RemoveHas(inUse, e);
    RemoveOther(lru, e);
    PutOn(Unlink(k, e), lru, Remove(inUse, e), LRU, e);
    ChargesRemove(handles, inUse, e);
    ChargesAppend(handles, lru, e);
  }
}
