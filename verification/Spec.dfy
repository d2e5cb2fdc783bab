/**
 What a read promises.

 A database holds a set of entries.  Reading user key `k` at snapshot `s`
 answers with the newest entry for `k` whose sequence number is at most `s`:
 its value, or nothing when that entry is a deletion or there is none.
 */
module Spec {
  import opened Keys

  datatype Option<+T> = None | Some(value: T)

  predicate SameNumber(a: Entry, b: Entry) {
    a.key.seqno == b.key.seqno
  }

  predicate Later(a: Entry, b: Entry) {
    a.key.seqno > b.key.seqno
  }

  /** No two operations ever share a sequence number. */
  ghost predicate Unique(S: iset<Entry>) {
    forall a, b {:trigger SameNumber(a, b)} :: a in S && b in S && SameNumber(a, b) ==> a == b
  }

  lemma SubsetUnique(S: iset<Entry>, T: iset<Entry>)
    requires S <= T && Unique(T)
    ensures Unique(S)
  {
  }

  lemma OnlyOneNewest(S: iset<Entry>, k: UserKey, s: nat, n: Entry)
    requires Unique(S) && Newest(S, k, s, n)
    ensures forall e :: Newest(S, k, s, e) ==> e == n
  {
    forall e | Newest(S, k, s, e) ensures e == n {
      assert SameNumber(e, n);
    }
  }

  /** `e` is an operation on `k` that snapshot `s` may see. */
  predicate Visible(e: Entry, k: UserKey, s: nat) {
    e.key.user == k && e.key.seqno <= s
  }

  ghost predicate Newest(S: iset<Entry>, k: UserKey, s: nat, e: Entry) {
    && e in S && Visible(e, k, s)
    && forall x :: x in S && Visible(x, k, s) ==> x.key.seqno <= e.key.seqno
  }

  /** The answer of a read at snapshot `s`. */
  ghost predicate Answers(S: iset<Entry>, k: UserKey, s: nat, r: Option<string>) {
    match r
    case Some(v) => exists e :: Newest(S, k, s, e) && e.key.kind.Value? && e.value == v
    case None => forall e :: Newest(S, k, s, e) ==> e.key.kind.Deletion?
  }

  /** Every sequence of operations has a newest one visible at `s`, if it has any visible at all. */
  lemma {:induction false} NewestExists(S: iset<Entry>, k: UserKey, s: nat, x: Entry) returns (e: Entry)
    requires x in S && Visible(x, k, s)
    ensures Newest(S, k, s, e) && x.key.seqno <= e.key.seqno
    decreases s - x.key.seqno
  {
    if y :| y in S && Visible(y, k, s) && y.key.seqno > x.key.seqno {
      e := NewestExists(S, k, s, y);
    } else {
      e := x;
    }
  }

  /** A read has exactly one answer. */
  lemma OneAnswer(S: iset<Entry>, k: UserKey, s: nat) returns (r: Option<string>)
    requires Unique(S)
    ensures Answers(S, k, s, r) && forall r' :: Answers(S, k, s, r') ==> r' == r
  {
    r := None;
    if x :| x in S && Visible(x, k, s) {
      var e := NewestExists(S, k, s, x);
      OnlyOneNewest(S, k, s, e);
      if e.key.kind.Value? {
        r := Some(e.value);
      }
    }
  }

  /** `S` and `T` answer every read at snapshots from `lo` to `hi` alike. */
  ghost predicate SameReads(S: iset<Entry>, T: iset<Entry>, lo: nat, hi: nat) {
    forall k: UserKey, s: nat, r :: lo <= s <= hi ==> (Answers(S, k, s, r) <==> Answers(T, k, s, r))
  }

  lemma SameReadsTrans(S: iset<Entry>, T: iset<Entry>, U: iset<Entry>, lo: nat, lo': nat, hi: nat)
    requires SameReads(S, T, lo, hi) && SameReads(T, U, lo', hi)
    ensures SameReads(S, U, if lo < lo' then lo' else lo, hi)
  {
  }

  /** Adding operations newer than a snapshot does not change what it reads. */
  lemma NewerInvisible(S: iset<Entry>, T: iset<Entry>, k: UserKey, s: nat, r: Option<string>)
    requires S <= T
    requires forall e :: e in T && e !in S ==> e.key.seqno > s
    ensures Answers(S, k, s, r) <==> Answers(T, k, s, r)
  {
    assert forall e :: Newest(S, k, s, e) <==> Newest(T, k, s, e);
  }

  /** Two stores that agree up to `hi` still agree after the same newer operations are added. */
  lemma {:induction false} SameReadsExtend(S: iset<Entry>, T: iset<Entry>, N: iset<Entry>, lo: nat, hi: nat, hi': nat)
    requires SameReads(S, T, lo, hi)
    requires forall e :: e in S + T ==> e.key.seqno <= hi
    requires forall e :: e in N ==> e.key.seqno > hi
    requires Unique(S + N) && Unique(T + N) && lo <= hi
    ensures SameReads(S + N, T + N, lo, hi')
  {
    forall k: UserKey, s: nat, r | lo <= s <= hi' && Answers(S + N, k, s, r)
      ensures Answers(T + N, k, s, r)
    {
      ExtendOne(S, T, N, lo, hi, k, s, r);
    }
    forall k: UserKey, s: nat, r | lo <= s <= hi' && Answers(T + N, k, s, r)
      ensures Answers(S + N, k, s, r)
    {
      ExtendOne(T, S, N, lo, hi, k, s, r);
    }
  }

  lemma ExtendOne(S: iset<Entry>, T: iset<Entry>, N: iset<Entry>, lo: nat, hi: nat, k: UserKey, s: nat,
                  r: Option<string>)
    requires SameReads(S, T, lo, hi)
    requires forall e :: e in S + T ==> e.key.seqno <= hi
    requires forall e :: e in N ==> e.key.seqno > hi
    requires Unique(S + N) && Unique(T + N) && lo <= s && lo <= hi
    requires Answers(S + N, k, s, r)
    ensures Answers(T + N, k, s, r)
  {
    if x :| x in N && Visible(x, k, s) {
      var n := NewestExists(S + N, k, s, x);
      assert n in N;
      assert Newest(T + N, k, s, n);
      OnlyOneNewest(S + N, k, s, n);
      OnlyOneNewest(T + N, k, s, n);
    } else {
      var s' := if s <= hi then s else hi;
      assert forall e :: Newest(S + N, k, s, e) <==> Newest(S, k, s', e);
      assert forall e :: Newest(T + N, k, s, e) <==> Newest(T, k, s', e);
      assert Answers(S, k, s', r);
      assert Answers(T, k, s', r);
    }
  }

  // --- removing operations without being noticed ----------------------------

  /** An operation in `D` is hidden at every snapshot from `floor` on by a newer one in `S`. */
  ghost predicate Shadowed(S: iset<Entry>, d: Entry, floor: nat) {
    exists e :: e in S && e.key.user == d.key.user && d.key.seqno < e.key.seqno <= floor
  }

  // --- layers ----------------------------------------------------------------

  /** In every user key both have, `a` holds only later operations than `b`. */
  ghost predicate Newer(a: iset<Entry>, b: iset<Entry>) {
    forall x, y {:trigger Later(x, y)} :: x in a && y in b && x.key.user == y.key.user ==> Later(x, y)
  }

  lemma LayerOne(U: iset<Entry>, A: iset<Entry>, k: UserKey, s: nat, x: Entry) returns (n: Entry)
    requires Newer(U, A) && x in U && Visible(x, k, s)
    ensures Newest(U, k, s, n) && Newest(U + A, k, s, n)
  {
    n := NewestExists(U, k, s, x);
    forall e | e in U + A && Visible(e, k, s) ensures e.key.seqno <= n.key.seqno {
      assert e in A ==> Later(n, e);
    }
  }

  lemma LayerHides(U: iset<Entry>, A: iset<Entry>, B: iset<Entry>, k: UserKey, s: nat, x: Entry, r: Option<string>)
    requires Newer(U, A) && Newer(U, B) && Unique(U + A) && Unique(U + B) && x in U && Visible(x, k, s)
    ensures Answers(U + A, k, s, r) <==> Answers(U + B, k, s, r)
  {
    var n := LayerOne(U, A, k, s, x);
    var m := LayerOne(U, B, k, s, x);
    SubsetUnique(U, U + A);
    OnlyOneNewest(U, k, s, n);
    OnlyOneNewest(U + A, k, s, n);
    OnlyOneNewest(U + B, k, s, n);
  }

  lemma LayerMisses(U: iset<Entry>, A: iset<Entry>, k: UserKey, s: nat, r: Option<string>)
    requires forall x :: x in U ==> !Visible(x, k, s)
    ensures Answers(U + A, k, s, r) <==> Answers(A, k, s, r)
  {
    assert forall e :: Newest(U + A, k, s, e) <==> Newest(A, k, s, e);
  }

  /** Two stores that agree under some later operations still agree under more of them. */
  lemma {:induction false} LayerReads(S: iset<Entry>, U: iset<Entry>, A: iset<Entry>, B: iset<Entry>, lo: nat, hi: nat)
    requires S <= U && Newer(U, A) && Newer(U, B) && Unique(U + A) && Unique(U + B)
    requires SameReads(S + A, S + B, lo, hi)
    ensures SameReads(U + A, U + B, lo, hi)
  {
    forall k: UserKey, s: nat, r | lo <= s <= hi ensures Answers(U + A, k, s, r) <==> Answers(U + B, k, s, r) {
      if x :| x in U && Visible(x, k, s) {
        LayerHides(U, A, B, k, s, x, r);
      } else {
        LayerMisses(U, A, k, s, r);
        LayerMisses(U, B, k, s, r);
        LayerMisses(S, A, k, s, r);
        LayerMisses(S, B, k, s, r);
      }
    }
  }
}
