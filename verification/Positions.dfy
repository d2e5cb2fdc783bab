/** Positions in a sequence; None is past either end. */
module Positions {
  import opened Spec

  function NextOf<T>(s: seq<T>, i: nat): Option<nat> {
    if i + 1 < |s| then Some(i + 1) else None
  }

  function PrevOf(i: nat): Option<nat> {
    if i > 0 then Some(i - 1) else None
  }
}
