/**
 Internal keys and their order (db/dbformat.h, db/dbformat.cc).

 The engine only ever compares user keys, so a user key is modelled by its
 position in the order of the user comparator.  Every order on countably many
 keys embeds in the reals; `ByteRankEmbeds` carries this out for the bytewise
 comparator of util/comparator.cc.
 */
module Keys {
  type UserKey = real

  /** kTypeDeletion = 0, kTypeValue = 1. */
  datatype Kind = Deletion | Value

  /** kMaxSequenceNumber = 2^56 - 1: eight bits are left for the type. */
  const MAX_SEQUENCE: nat := 0xff_ffff_ffff_ffff

  datatype InternalKey = InternalKey(user: UserKey, seqno: nat, kind: Kind)

  /** One stored operation: an internal key and its value (ignored for deletions). */
  datatype Entry = Entry(key: InternalKey, value: string)

  /** PackSequenceAndType: the 64-bit trailer of an encoded internal key. */
  function Tag(k: InternalKey): nat {
    256 * k.seqno + (if k.kind.Value? then 1 else 0)
  }

  /** InternalKeyComparator::Compare(a, b) < 0: user key ascending, then trailer descending. */
  predicate Before(a: InternalKey, b: InternalKey) {
    a.user < b.user || (a.user == b.user && Tag(a) > Tag(b))
  }

  predicate AtOrBefore(a: InternalKey, b: InternalKey) {
    !Before(b, a)
  }

  /** The key sought by LookupKey(user, s): kValueTypeForSeek is the largest type. */
  function SeekKey(user: UserKey, s: nat): InternalKey {
    InternalKey(user, s, Value)
  }

  /** Strictly increasing in the internal order, as a table or memtable iterates. */
  ghost predicate Sorted(es: seq<Entry>) {
    forall i, j {:trigger Before(es[i].key, es[j].key)} :: 0 <= i < j < |es| ==> Before(es[i].key, es[j].key)
  }

  // --- the bytewise comparator embeds in the reals -------------------------

  type Byte = b: int | 0 <= b < 256

  /** Slice::compare(a, b) < 0: first differing byte decides, a proper prefix comes first. */
  predicate BytesLess(a: seq<Byte>, b: seq<Byte>) {
    |b| > 0 && (|a| == 0 || a[0] < b[0] || (a[0] == b[0] && BytesLess(a[1..], b[1..])))
  }

  /** Position of a byte string in the bytewise order: a fraction in base 258. */
  function ByteRank(a: seq<Byte>): (r: real)
    ensures 0.0 <= r < 1.0
    ensures a != [] ==> r > 0.0
  {
    if a == [] then 0.0 else (a[0] as real + 1.0 + ByteRank(a[1..])) / 258.0
  }

  /** Comparing positions is comparing byte strings, and distinct strings have distinct positions. */
  lemma {:induction false} ByteRankEmbeds(a: seq<Byte>, b: seq<Byte>)
    ensures BytesLess(a, b) <==> ByteRank(a) < ByteRank(b)
    ensures a == b <==> ByteRank(a) == ByteRank(b)
  {
    if a == [] || b == [] {
    } else {
      ByteRankEmbeds(a[1..], b[1..]);
      var x, y := ByteRank(a[1..]), ByteRank(b[1..]);
      assert ByteRank(a) == (a[0] as real + 1.0 + x) / 258.0;
      assert ByteRank(b) == (b[0] as real + 1.0 + y) / 258.0;
      if a[0] == b[0] {
        assert a == [a[0]] + a[1..] && b == [b[0]] + b[1..];
      }
    }
  }
}
