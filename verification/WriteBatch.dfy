/**
 Write batches in bytes (db/write_batch.cc): a header with a sequence number and a
 count, then one record per operation.
 */
module WriteBatches {
  import opened Keys
  import opened Spec
  import opened Coding

  datatype Op = PutOp(key: Bytes, value: Bytes) | DeleteOp(key: Bytes)

  const HEADER: nat := 12
  const TYPE_DELETION: Byte := 0
  const TYPE_VALUE: Byte := 1

  predicate OpOk(op: Op) {
    |op.key| < WORD && (op.PutOp? ==> |op.value| < WORD)
  }

  predicate OpsOk(ops: seq<Op>) {
    |ops| < WORD && forall i :: 0 <= i < |ops| ==> OpOk(ops[i])
  }

  function OpBytes(op: Op): Bytes {
    match op
    case PutOp(key, value) => [TYPE_VALUE] + (PutString(key) + PutString(value))
    case DeleteOp(key) => [TYPE_DELETION] + PutString(key)
  }

  function OpsBytes(ops: seq<Op>): Bytes {
    if ops == [] then [] else OpBytes(ops[0]) + OpsBytes(ops[1..])
  }

  /** The representation of a batch. */
  function Rep(sequence: Long, ops: seq<Op>): Bytes
    requires |ops| < WORD
  {
    EncodeFixed64(sequence) + EncodeFixed32(|ops|) + OpsBytes(ops)
  }

  lemma {:induction false} OpsConcat(a: seq<Op>, b: seq<Op>)
    ensures OpsBytes(a + b) == OpsBytes(a) + OpsBytes(b)
  {
    hide OpBytes;
    if a == [] {
      assert a + b == b;
    } else {
      OpsConcat(a[1..], b);
      assert (a + b)[0] == a[0] && (a + b)[1..] == a[1..] + b;
    }
  }

  lemma OneOp(op: Op)
    ensures OpsBytes([op]) == OpBytes(op)
  {
    assert [op][1..] == [];
  }

  lemma RepParts(sequence: Long, ops: seq<Op>)
    requires |ops| < WORD
    ensures var rep := Rep(sequence, ops);
      && |rep| >= HEADER && rep[..8] == EncodeFixed64(sequence) && rep[8..12] == EncodeFixed32(|ops|)
      && rep[12..] == OpsBytes(ops)
  {
  }

  lemma RepFrom(sequence: Long, ops: seq<Op>, rep: Bytes)
    requires |ops| < WORD && |rep| >= HEADER
    requires rep[..8] == EncodeFixed64(sequence) && rep[8..12] == EncodeFixed32(|ops|) && rep[12..] == OpsBytes(ops)
    ensures rep == Rep(sequence, ops)
  {
    hide EncodeFixed64, EncodeFixed32, OpsBytes;
    assert rep == rep[..8] + rep[8..12] + rep[12..];
  }

  lemma Extended(rep: Bytes, more: Bytes)
    requires |rep| >= HEADER
    ensures (rep + more)[..8] == rep[..8] && (rep + more)[8..12] == rep[8..12] && (rep + more)[12..] == rep[12..] + more
  {
  }

  datatype Status = Ok | Corruption(message: string)

  // --- reading ---------------------------------------------------------------------------------

  /** The first record of `input`, as Iterate takes it apart. */
  function FirstOp(input: Bytes): (r: Option<Parsed<Op>>)
    requires input != []
    ensures r.Some? ==> 0 < r.value.used <= |input|
  {
    if input[0] == TYPE_VALUE then
      match GetString(input[1..])
      case None => None
      case Some(k) =>
        match GetString(input[1 + k.used..])
        case None => None
        case Some(v) => Some(Parsed(PutOp(k.value, v.value), 1 + k.used + v.used))
    else if input[0] == TYPE_DELETION then
      match GetString(input[1..])
      case None => None
      case Some(k) => Some(Parsed(DeleteOp(k.value), 1 + k.used))
    else None
  }

  lemma OpRoundTrip(op: Op, rest: Bytes)
    requires OpOk(op)
    ensures FirstOp(OpBytes(op) + rest) == Some(Parsed(op, |OpBytes(op)|))
  {
    hide PutString, GetString;
    match op
    case PutOp(key, value) =>
      StringRoundTrip(key, PutString(value) + rest);
      StringRoundTrip(value, rest);
      TwoStrings(TYPE_VALUE, PutString(key), PutString(value), rest);
    case DeleteOp(key) =>
      StringRoundTrip(key, rest);
      TwoStrings(TYPE_DELETION, PutString(key), [], rest);
      assert [] + rest == rest && PutString(key) + [] == PutString(key);
  }

  lemma TwoStrings(tag: Byte, a: Bytes, b: Bytes, rest: Bytes)
    ensures var input := [tag] + (a + b) + rest;
      input[0] == tag && input[1..] == a + (b + rest) && input[1 + |a|..] == b + rest
  {
  }

  /** The operations a reader sees before the end or the first record it cannot read. */
  function Readable(input: Bytes): (r: seq<Op>)
    decreases |input|
  {
    if input == [] then []
    else match FirstOp(input)
      case None => []
      case Some(p) => [p.value] + Readable(input[p.used..])
  }

  /** Every record of `input` can be read. */
  predicate WellFormed(input: Bytes)
    decreases |input|
  {
    input == [] || match FirstOp(input)
      case None => false
      case Some(p) => WellFormed(input[p.used..])
  }

  lemma {:induction false} OpsRoundTrip(ops: seq<Op>)
    requires OpsOk(ops)
    ensures WellFormed(OpsBytes(ops)) && Readable(OpsBytes(ops)) == ops
  {
    if ops != [] {
      var first, rest := OpBytes(ops[0]), OpsBytes(ops[1..]);
      OpRoundTrip(ops[0], rest);
      OpsRoundTrip(ops[1..]);
      assert (first + rest)[|first|..] == rest;
      assert ops == [ops[0]] + ops[1..];
    }
  }

  class WriteBatch {
    var rep: Bytes
    ghost var sequence: Long
    ghost var ops: seq<Op>

    ghost predicate Valid()
      reads this
    {
      OpsOk(ops) && rep == Rep(sequence, ops)
    }

    /** Clear() */
    constructor ()
      ensures Valid() && ops == [] && sequence == 0
    {
      rep, sequence, ops := EncodeFixed64(0) + EncodeFixed32(0), 0, [];
    }

    function Count(): (n: nat)
      reads this
      requires |rep| >= HEADER
      ensures Valid() ==> n == |ops|
    {
      ValidReads();
      DecodeFixed32(rep[8..12])
    }

    method SetCount(n: Word)
      requires |rep| >= HEADER
      modifies this`rep
      ensures rep == old(rep)[..8] + EncodeFixed32(n) + old(rep)[12..]
    {
      rep := rep[..8] + EncodeFixed32(n) + rep[12..];
    }

    /** SetSequence: the operations stay as they are. */
    method SetSequence(s: Long)
      requires Valid()
      modifies this
      ensures Valid() && sequence == s && ops == old(ops)
    {
      RepParts(sequence, ops);
      rep := EncodeFixed64(s) + rep[8..];
      sequence := s;
      RepFrom(s, ops, rep);
    }

    /** Put and Delete: one more record at the end. */
    method Add(op: Op)
      requires Valid() && OpOk(op) && |ops| + 1 < WORD
      modifies this
      ensures Valid() && ops == old(ops) + [op] && sequence == old(sequence)
    {
      hide EncodeFixed64, EncodeFixed32, OpsBytes, PutString, Rep;
      RepParts(sequence, ops);
      OpsConcat(ops, [op]);
      OneOp(op);
      var n := Count() + 1;
      SetCount(n);
      ghost var before := rep;
      match op {
        case PutOp(key, value) => rep := rep + ([TYPE_VALUE] + (PutString(key) + PutString(value)));
        case DeleteOp(key) => rep := rep + ([TYPE_DELETION] + PutString(key));
      }
      ops := ops + [op];
      Extended(before, OpBytes(op));
      RepFrom(sequence, ops, rep);
    }

    /** Append: the operations of another batch after one's own. */
    method Append(source: WriteBatch)
      requires Valid() && source.Valid() && source != this && |ops| + |source.ops| < WORD
      modifies this
      ensures Valid() && ops == old(ops) + source.ops && sequence == old(sequence)
    {
      hide EncodeFixed64, EncodeFixed32, OpsBytes, Rep;
      RepParts(sequence, ops);
      RepParts(source.sequence, source.ops);
      OpsConcat(ops, source.ops);
      var n := Count() + source.Count();
      SetCount(n);
      ghost var before := rep;
      rep := rep + source.rep[12..];
      ops := ops + source.ops;
      Extended(before, source.rep[12..]);
      RepFrom(sequence, ops, rep);
    }

    /**
     Iterate.  Operations are handed over as they are read, up to the first record that
     cannot be; all is well only if every one can and their number is the one announced.
     */
    method Iterate() returns (status: Status, seen: seq<Op>)
      ensures |rep| < HEADER ==> status.Corruption? && seen == []
      ensures |rep| >= HEADER ==>
        && seen == Readable(rep[HEADER..])
        && (status.Ok? <==> WellFormed(rep[HEADER..]) && |seen| == DecodeFixed32(rep[8..12]))
      ensures Valid() ==> status.Ok? && seen == ops
    {
      ValidReads();
      seen := [];
      if |rep| < HEADER {
        return Corruption("malformed WriteBatch (too small)"), seen;
      }
      var input := rep[HEADER..];
      while input != []
        invariant seen + Readable(input) == Readable(rep[HEADER..])
        invariant WellFormed(input) <==> WellFormed(rep[HEADER..])
        decreases |input|
      {
        var first := FirstOp(input);
        if first.None? {
          assert seen + [] == seen;
          return Corruption("bad record"), seen;
        }
        assert seen + Readable(input) == seen + [first.value.value] + Readable(input[first.value.used..]);
        seen := seen + [first.value.value];
        input := input[first.value.used..];
      }
      assert seen + [] == seen;
      status := if |seen| == Count() then Ok else Corruption("WriteBatch has wrong count");
    }

    lemma ValidReads()
      ensures Valid() ==> |rep| >= HEADER && WellFormed(rep[HEADER..]) && Readable(rep[HEADER..]) == ops
      ensures Valid() ==> DecodeFixed32(rep[8..12]) == |ops|
    {
      if Valid() {
        RepParts(sequence, ops);
        OpsRoundTrip(ops);
      }
    }

    /** MemTableInserter: consecutive sequence numbers from the batch's own. */
    method InsertInto() returns (status: Status, entries: seq<Numbered>)
      requires |rep| >= HEADER
      ensures Valid() ==> status.Ok? && entries == NumberedFrom(sequence, ops)
      ensures entries == NumberedFrom(DecodeFixed64(rep[..8]), Readable(rep[HEADER..]))
    {
      hide Rep, Readable, WellFormed, DecodeFixed32, DecodeFixed64, EncodeFixed64, OpsBytes;
      ValidReads();
      if Valid() {
        RepParts(sequence, ops);
      }
      var seen;
      status, seen := Iterate();
      var next: nat := DecodeFixed64(rep[..8]);
      ghost var first := next;
      entries := [];
      for i := 0 to |seen|
        invariant next == first + i && |entries| == i
        invariant forall k :: 0 <= k < i ==> entries[k] == Numbered(first + k, seen[k])
      {
        entries := entries + [Numbered(next, seen[i])];
        next := next + 1;
      }
    }
  }

  /** An operation as it is added to the memtable. */
  datatype Numbered = Numbered(sequence: nat, op: Op)

  ghost function NumberedFrom(first: nat, ops: seq<Op>): (r: seq<Numbered>)
    ensures |r| == |ops| && forall i :: 0 <= i < |ops| ==> r[i] == Numbered(first + i, ops[i])
  {
    seq(|ops|, i requires 0 <= i < |ops| => Numbered(first + i, ops[i]))
  }
}
