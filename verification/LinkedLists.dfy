/**
 Circular doubly linked lists around a head (the intrusive lists of util/cache.cc and
 db/snapshot.h).  Elements are named by numbers; pointer fields are maps.
 */
module LinkedLists {
  /** The `next` and `prev` pointers. */
  datatype Links = Links(next: map<nat, nat>, prev: map<nat, nat>)

  ghost function Cycle(head: nat, l: seq<nat>): seq<nat> {
    [head] + l + [head]
  }

  ghost predicate Linked(k: Links, a: nat, b: nat) {
    a in k.next && k.next[a] == b && b in k.prev && k.prev[b] == a
  }

  /** Starting from the head, the pointers run through `l`, oldest first, and back. */
  ghost predicate Ring(k: Links, head: nat, l: seq<nat>) {
    && (forall i :: 0 <= i <= |l| ==> Linked(k, Cycle(head, l)[i], Cycle(head, l)[i + 1]))
    && head !in l && (forall i, j :: 0 <= i < j < |l| ==> l[i] != l[j])
  }

  /** Takes an element out of its list. */
  function Unlink(k: Links, e: nat): Links
    requires e in k.next && e in k.prev
  {
    var n, p := k.next[e], k.prev[e];
    Links(k.next[p := n], k.prev[n := p])
  }

  /** Puts an element just before the head, as the newest. */
  function Link(k: Links, head: nat, e: nat): Links
    requires head in k.prev
  {
    var p := k.prev[head];
    Links(k.next[e := head][p := e], k.prev[e := p][head := e])
  }

  ghost function Without(l: seq<nat>, i: nat): seq<nat>
    requires i < |l|
  {
    l[..i] + l[i + 1..]
  }

  lemma InRing(k: Links, head: nat, l: seq<nat>, i: nat)
    requires Ring(k, head, l) && i < |l|
    ensures Linked(k, Cycle(head, l)[i], l[i]) && Linked(k, l[i], Cycle(head, l)[i + 2])
    ensures l[i] in k.next && l[i] in k.prev && k.prev[l[i]] == Cycle(head, l)[i]
    ensures k.next[l[i]] == Cycle(head, l)[i + 2]
  {
    assert Cycle(head, l)[i + 1] == l[i];
  }

  lemma UnlinkRing(k: Links, head: nat, l: seq<nat>, i: nat)
    requires Ring(k, head, l) && i < |l| && l[i] in k.next && l[i] in k.prev
    ensures Ring(Unlink(k, l[i]), head, Without(l, i))
  {
    InRing(k, head, l, i);
    var c, l' := Cycle(head, l), Without(l, i);
    var c', k' := Cycle(head, l'), Unlink(k, l[i]);
    forall j | 0 <= j <= |l'| ensures Linked(k', c'[j], c'[j + 1]) {
      if j < i {
        assert c'[j] == c[j] && c'[j + 1] == c[j + 1];
        assert Linked(k, c[j], c[j + 1]);
        assert c[j] != c[i] && c[j + 1] != c[i + 2];
      } else if j == i {
        assert c'[j] == c[i] && c'[j + 1] == c[i + 2];
      } else {
        assert c'[j] == c[j + 1] && c'[j + 1] == c[j + 2];
        assert Linked(k, c[j + 1], c[j + 2]);
        assert c[j + 1] != c[i] && c[j + 2] != c[i + 2];
      }
    }
  }

  lemma LinkRing(k: Links, head: nat, l: seq<nat>, e: nat)
    requires Ring(k, head, l) && e != head && e !in l && head in k.prev
    ensures Ring(Link(k, head, e), head, l + [e])
  {
    var c, l' := Cycle(head, l), l + [e];
    var c', k' := Cycle(head, l'), Link(k, head, e);
    assert Linked(k, c[|l|], c[|l| + 1]);
    forall j | 0 <= j <= |l'| ensures Linked(k', c'[j], c'[j + 1]) {
      if j < |l| {
        assert c'[j] == c[j] && c'[j + 1] == c[j + 1];
        assert Linked(k, c[j], c[j + 1]);
        assert c[j] != c[|l|] && c[j + 1] != head;
      }
    }
  }

  /** Changing one ring leaves a ring of other entries alone. */
  lemma OtherRing(k: Links, k': Links, head: nat, l: seq<nat>)
    requires Ring(k, head, l)
    requires forall x :: x == head || x in l ==> (x in k.next ==> x in k'.next && k'.next[x] == k.next[x])
    requires forall x :: x == head || x in l ==> (x in k.prev ==> x in k'.prev && k'.prev[x] == k.prev[x])
    ensures Ring(k', head, l)
  {
    var c := Cycle(head, l);
    forall j | 0 <= j <= |l| ensures Linked(k', c[j], c[j + 1]) {
      assert Linked(k, c[j], c[j + 1]);
    }
  }

  lemma HeadLinked(k: Links, head: nat, l: seq<nat>)
    requires Ring(k, head, l)
    ensures head in k.next && head in k.prev
    ensures k.next[head] == (if l == [] then head else l[0])
    ensures k.prev[head] == (if l == [] then head else l[|l| - 1])
  {
    var c := Cycle(head, l);
    assert Linked(k, c[0], c[1]) && Linked(k, c[|l|], c[|l| + 1]);
  }
}
