/** What an iterator over a sorted sequence of keys does, call by call. */
module Cursors {
  import opened Keys

  datatype Call = CallFirst | CallLast | CallSeek(target: UserKey) | CallNext | CallPrev

  /** The number of keys before `target`. */
  function LowerBound(keys: seq<UserKey>, target: UserKey): (c: nat)
    ensures c <= |keys|
  {
    if keys == [] || keys[0] >= target then 0 else 1 + LowerBound(keys[1..], target)
  }

  lemma {:induction false} LowerBoundIs(keys: seq<UserKey>, target: UserKey, c: nat)
    requires c <= |keys| && (forall i :: 0 <= i < c ==> keys[i] < target) && (c < |keys| ==> keys[c] >= target)
    ensures c == LowerBound(keys, target)
  {
    if c > 0 {
      LowerBoundIs(keys[1..], target, c - 1);
    }
  }

  /** -1 is before the first key, `|keys|` past the last; moving is for valid positions only. */
  function Moved(keys: seq<UserKey>, cursor: int, call: Call): int {
    match call
    case CallFirst => 0
    case CallLast => |keys| - 1
    case CallSeek(target) => LowerBound(keys, target)
    case CallNext => if 0 <= cursor < |keys| then cursor + 1 else cursor
    case CallPrev => if 0 <= cursor < |keys| then cursor - 1 else cursor
  }

  function MovedBy(keys: seq<UserKey>, cursor: int, calls: seq<Call>): int {
    if calls == [] then cursor else Moved(keys, MovedBy(keys, cursor, calls[..|calls| - 1]), calls[|calls| - 1])
  }
}
