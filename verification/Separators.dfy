/**
 Short separators for index blocks (util/comparator.cc, db/dbformat.cc).

 Between the last key of a block and the first key of the next, the index may use
 any key, and prefers a short one.
 */
module Separators {
  import opened Keys
  import opened Coding
  import opened Block

  lemma {:induction false} DifferAt(a: Bytes, b: Bytes, i: nat)
    requires i < |a| && i < |b| && a[..i] == b[..i] && a[i] < b[i]
    ensures BytesLess(a, b)
  {
    if i > 0 {
      assert a[0] == a[..i][0] == b[..i][0] == b[0];
      assert a[1..][..i - 1] == a[..i][1..] && b[1..][..i - 1] == b[..i][1..];
      DifferAt(a[1..], b[1..], i - 1);
    }
  }

  /** Nothing strictly between two strings that first differ at `i` is as short as `i`. */
  lemma {:induction false} NoneShorter(a: Bytes, b: Bytes, i: nat, s: Bytes)
    requires i < |a| && i < |b| && a[..i] == b[..i] && BytesLess(a, s) && BytesLess(s, b)
    ensures |s| > i
  {
    if i > 0 {
      assert a[0] == a[..i][0] == b[..i][0] == b[0];
      assert a[1..][..i - 1] == a[..i][1..] && b[1..][..i - 1] == b[..i][1..];
      NoneShorter(a[1..], b[1..], i - 1, s[1..]);
    }
  }

  /** Nothing after a string that begins with `i` bytes 0xff is as short as `i`. */
  lemma {:induction false} NoneShorterAfter(a: Bytes, i: nat, s: Bytes)
    requires i < |a| && (forall j :: 0 <= j < i ==> a[j] == 0xff) && BytesLess(a, s)
    ensures |s| > i
  {
    if i > 0 {
      NoneShorterAfter(a[1..], i - 1, s[1..]);
    }
  }

  ghost predicate Between(a: Bytes, s: Bytes, b: Bytes) {
    BytesLess(a, s) && BytesLess(s, b)
  }

  /** Among their first `n` bytes, the strings first differ in one that leaves room for another value. */
  ghost predicate Room(start: Bytes, limit: Bytes, n: int) {
    exists i :: 0 <= i < n && i < |start| && i < |limit| && RoomAt(start, limit, i)
  }

  ghost predicate RoomAt(start: Bytes, limit: Bytes, i: nat)
    requires i < |start| && i < |limit|
  {
    start[..i] == limit[..i] && start[i] as int + 1 < limit[i] as int
  }

  ghost predicate NotAllOnes(key: Bytes, n: int) {
    exists i :: 0 <= i < n && i < |key| && key[i] != 0xff
  }

  lemma RoomIsFirstDifference(start: Bytes, limit: Bytes, d: nat, i: nat)
    requires i < |start| && i < |limit| && RoomAt(start, limit, i)
    requires d <= |start| && d <= |limit| && start[..d] == limit[..d]
    requires d == |start| || d == |limit| || start[d] != limit[d]
    ensures d == i
  {
    assert forall j :: 0 <= j < d ==> start[j] == start[..d][j] == limit[..d][j] == limit[j];
    assert forall j :: 0 <= j < i ==> start[j] == start[..i][j] == limit[..i][j] == limit[j];
  }

  /**
   BytewiseComparatorImpl::FindShortestSeparator: where the first difference leaves
   room, a shortest string strictly between; elsewhere no change.
   */
  method ShortestSeparator(start: Bytes, limit: Bytes) returns (r: Bytes)
    ensures r != start <==> Room(start, limit, |start|)
    ensures r != start ==> Between(start, r, limit) && forall s :: Between(start, s, limit) ==> |r| <= |s|
    ensures |r| <= |start|
    ensures forall n | n <= |start| :: Room(start, limit, n) <==> r != start && |r| <= n
  {
    r := start;
    var diffIndex := CommonPrefix(start, limit);
    forall i | 0 <= i < |start| && i < |limit| && RoomAt(start, limit, i) ensures i == diffIndex {
      RoomIsFirstDifference(start, limit, diffIndex, i);
    }
    if diffIndex < |start| && diffIndex < |limit| {
      var diffByte: int := start[diffIndex];
      if diffByte < 0xff && diffByte + 1 < limit[diffIndex] {
        assert RoomAt(start, limit, diffIndex);
        var last: Byte := diffByte + 1;
        r := start[..diffIndex] + [last];
        assert r[..diffIndex] == start[..diffIndex] && r[diffIndex] == last;
        DifferAt(start, r, diffIndex);
        DifferAt(r, limit, diffIndex);
        forall s | Between(start, s, limit) ensures |r| <= |s| {
          NoneShorter(start, limit, diffIndex, s);
        }
      }
    }
  }

  /** BytewiseComparatorImpl::FindShortSuccessor: a shortest string after the key; a key of 0xff bytes only is kept. */
  method ShortSuccessor(key: Bytes) returns (r: Bytes)
    ensures r != key <==> NotAllOnes(key, |key|)
    ensures r != key ==> BytesLess(key, r)
    ensures |r| <= |key| && forall s :: BytesLess(key, s) ==> |r| <= |s|
    ensures forall n | n <= |key| :: NotAllOnes(key, n) <==> r != key && |r| <= n
  {
    var i := 0;
    while i < |key|
      invariant 0 <= i <= |key| && forall j :: 0 <= j < i ==> key[j] == 0xff
    {
      var byte: int := key[i];
      if byte != 0xff {
        var last: Byte := byte + 1;
        r := key[..i] + [last];
        assert r[..i] == key[..i] && r[i] == last;
        DifferAt(key, r, i);
        forall s | BytesLess(key, s) ensures |r| <= |s| {
          NoneShorterAfter(key, i, s);
        }
        return;
      }
      i := i + 1;
    }
    if key != [] {
      forall s | BytesLess(key, s) ensures |key| <= |s| {
        NoneShorterAfter(key, |key| - 1, s);
      }
    }
    return key;
  }

  /** The trailer that sorts first: kMaxSequenceNumber and kValueTypeForSeek. */
  const FIRST_TRAILER: Long := 256 * 0xff_ffff_ffff_ffff + 1

  lemma Tacked(user: Bytes)
    ensures UserPart(user + EncodeFixed64(FIRST_TRAILER)) == user
    ensures Trailer(user + EncodeFixed64(FIRST_TRAILER)) == FIRST_TRAILER
  {
    var k := user + EncodeFixed64(FIRST_TRAILER);
    assert k[..|k| - 8] == user && k[|k| - 8..] == EncodeFixed64(FIRST_TRAILER);
  }

  /**
   InternalKeyComparator::FindShortestSeparator.  The user key is replaced by a shortest
   one strictly between, with the earliest trailer, exactly when that makes it shorter.
   */
  method InternalSeparator(start: Bytes, limit: Bytes) returns (r: Bytes)
    requires |start| >= 8 && |limit| >= 8
    ensures 8 <= |r| <= |start|
    ensures r != start <==> Room(UserPart(start), UserPart(limit), |start| - 9)
    ensures r != start ==>
              && Between(UserPart(start), UserPart(r), UserPart(limit)) && Trailer(r) == FIRST_TRAILER
              && forall s :: Between(UserPart(start), s, UserPart(limit)) ==> |UserPart(r)| <= |s|
  {
    var tmp := ShortestSeparator(UserPart(start), UserPart(limit));
    r := start;
    if |tmp| < |UserPart(start)| && BytesLess(UserPart(start), tmp) {
      Tacked(tmp);
      r := tmp + EncodeFixed64(FIRST_TRAILER);
    }
  }

  /** InternalKeyComparator::FindShortSuccessor. */
  method InternalSuccessor(key: Bytes) returns (r: Bytes)
    requires |key| >= 8
    ensures 8 <= |r| <= |key|
    ensures r != key <==> NotAllOnes(UserPart(key), |key| - 9)
    ensures r != key ==>
              && BytesLess(UserPart(key), UserPart(r)) && Trailer(r) == FIRST_TRAILER
              && forall s :: BytesLess(UserPart(key), s) ==> |UserPart(r)| <= |s|
  {
    var tmp := ShortSuccessor(UserPart(key));
    r := key;
    if |tmp| < |UserPart(key)| && BytesLess(UserPart(key), tmp) {
      Tacked(tmp);
      r := tmp + EncodeFixed64(FIRST_TRAILER);
    }
  }
}
