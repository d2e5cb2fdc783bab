/**
 The user's iterator (db/db_iter.cc): a cursor over the sorted map of user keys
 visible and not deleted at a snapshot, made from an iterator over internal keys.

 The iterator below is modelled by the sequence of entries it walks and its
 position.  All internal keys parse; read sampling is left out.
 */
module DbIter {
  import opened Keys
  import opened Spec
  import opened Positions
  import opened Cursors
  import opened Versions

  // --- the view ---------------------------------------------------------------------------

  /** What the user sees. */
  datatype Pair = Pair(key: UserKey, value: string)

  predicate Seen(es: seq<Entry>, s: nat, i: nat)
    requires i < |es|
  {
    es[i].key.seqno <= s
  }

  /** Entry `i` is the newest visible one of its user key, and not a deletion. */
  ghost predicate Shown(es: seq<Entry>, s: nat, i: nat)
    requires i < |es|
  {
    && Seen(es, s, i) && es[i].key.kind.Value?
    && forall j :: 0 <= j < i && Seen(es, s, j) ==> es[j].key.user != es[i].key.user
  }

  /** The visible map, restricted to the first `n` entries, in key order. */
  ghost function ViewTo(es: seq<Entry>, s: nat, n: nat): seq<Pair>
    requires n <= |es|
  {
    if n == 0 then []
    else ViewTo(es, s, n - 1) + (if Shown(es, s, n - 1) then [Pair(es[n - 1].key.user, es[n - 1].value)] else [])
  }

  ghost function View(es: seq<Entry>, s: nat): seq<Pair> {
    ViewTo(es, s, |es|)
  }

  lemma {:induction false} ViewPrefix(es: seq<Entry>, s: nat, m: nat, n: nat)
    requires m <= n <= |es|
    ensures ViewTo(es, s, m) <= ViewTo(es, s, n)
    decreases n
  {
    if m < n {
      ViewPrefix(es, s, m, n - 1);
    }
  }

  /** Nothing shown from `m` to `n` adds nothing to the view. */
  lemma {:induction false} ViewSkip(es: seq<Entry>, s: nat, m: nat, n: nat)
    requires m <= n <= |es| && forall i :: m <= i < n ==> !Shown(es, s, i)
    ensures ViewTo(es, s, m) == ViewTo(es, s, n)
    decreases n
  {
    if m < n {
      ViewSkip(es, s, m, n - 1);
    }
  }

  lemma ViewAt(es: seq<Entry>, s: nat, i: nat)
    requires i < |es| && Shown(es, s, i)
    ensures |ViewTo(es, s, i)| < |View(es, s)|
    ensures View(es, s)[|ViewTo(es, s, i)|] == Pair(es[i].key.user, es[i].value)
    ensures |ViewTo(es, s, i + 1)| == |ViewTo(es, s, i)| + 1
  {
    ViewPrefix(es, s, i + 1, |es|);
  }

  /** Entries come in order of user keys. */
  lemma UserOrder(es: seq<Entry>, i: nat, j: nat)
    requires Sorted(es) && i <= j < |es|
    ensures es[i].key.user <= es[j].key.user
    ensures es[i].key.user == es[j].key.user ==> es[i].key.seqno >= es[j].key.seqno
  {
    assert i < j ==> Before(es[i].key, es[j].key);
  }

  lemma {:induction false} ViewComesFrom(es: seq<Entry>, s: nat, n: nat, c: nat) returns (i: nat)
    requires n <= |es| && c < |ViewTo(es, s, n)|
    ensures i < n && Shown(es, s, i) && |ViewTo(es, s, i)| == c
    ensures ViewTo(es, s, n)[c] == Pair(es[i].key.user, es[i].value)
  {
    if c < |ViewTo(es, s, n - 1)| {
      i := ViewComesFrom(es, s, n - 1, c);
    } else {
      i := n - 1;
    }
  }

  /** Keys of the view ascend strictly. */
  lemma ViewAscends(es: seq<Entry>, s: nat, c: nat, d: nat)
    requires Sorted(es) && c < d < |View(es, s)|
    ensures View(es, s)[c].key < View(es, s)[d].key
  {
    var i := ViewComesFrom(es, s, |es|, c);
    var j := ViewComesFrom(es, s, |es|, d);
    if j <= i {
      ViewPrefix(es, s, j, i);
    }
    UserOrder(es, i, j);
  }

  /** The view is the visible map: it shows `k` with `v` exactly when a read of `k` at `s` answers `v`. */
  lemma ViewIsRead(es: seq<Entry>, s: nat, k: UserKey, v: string)
    requires Sorted(es) && Unique(Elements(es))
    ensures Pair(k, v) in View(es, s) <==> Answers(Elements(es), k, s, Some(v))
  {
    if Pair(k, v) in View(es, s) {
      var c :| 0 <= c < |View(es, s)| && View(es, s)[c] == Pair(k, v);
      var i := ViewComesFrom(es, s, |es|, c);
      ShownIsNewest(es, s, i);
    }
    if e :| Newest(Elements(es), k, s, e) && e.key.kind.Value? && e.value == v {
      var i :| 0 <= i < |es| && es[i] == e;
      NewestIsShown(es, s, i);
      ViewAt(es, s, i);
    }
  }

  lemma ShownIsNewest(es: seq<Entry>, s: nat, i: nat)
    requires Sorted(es) && i < |es| && Shown(es, s, i)
    ensures Newest(Elements(es), es[i].key.user, s, es[i])
  {
    forall x | x in Elements(es) && Visible(x, es[i].key.user, s) ensures x.key.seqno <= es[i].key.seqno {
      var j :| 0 <= j < |es| && es[j] == x;
      assert Seen(es, s, j);
      if i <= j {
        UserOrder(es, i, j);
      }
    }
  }

  lemma NewestIsShown(es: seq<Entry>, s: nat, i: nat)
    requires Sorted(es) && Unique(Elements(es)) && i < |es| && Newest(Elements(es), es[i].key.user, s, es[i])
    requires es[i].key.kind.Value?
    ensures Shown(es, s, i)
  {
    forall j | 0 <= j < i && Seen(es, s, j) ensures es[j].key.user != es[i].key.user {
      UserOrder(es, j, i);
      assert es[j] in Elements(es) && es[i] in Elements(es);
      assert Before(es[j].key, es[i].key);
      assert SameNumber(es[j], es[i]) ==> es[j] == es[i];
    }
  }

  // --- scanning forwards ----------------------------------------------------------------------

  /**
   Before looking at entry `p`: a user key whose visible entries were passed already
   is to be skipped, and no visible entry from `p` on comes before the key to skip.
   */
  ghost predicate MaySkip(es: seq<Entry>, s: nat, p: nat, skip: Option<UserKey>) {
    && p <= |es|
    && (forall a, b :: 0 <= a < p <= b < |es| && Seen(es, s, a) && es[a].key.user == es[b].key.user
          ==> skip.Some? && es[b].key.user <= skip.value)
    && (skip.Some? ==> forall b :: p <= b < |es| && Seen(es, s, b) ==> es[b].key.user >= skip.value)
  }

  /** Shown entries from `p` to `i` all lie at or before `skip`. */
  ghost predicate NoneShown(es: seq<Entry>, s: nat, p: nat, i: nat, skip: Option<UserKey>) {
    i <= |es| && forall j :: p <= j < i && Shown(es, s, j) ==> skip.Some? && es[j].key.user <= skip.value
  }

  /** The key being skipped is the one given at first, or that of a deletion met since. */
  ghost predicate SkipFrom(es: seq<Entry>, s: nat, p: nat, i: nat, skip0: Option<UserKey>, skip: Option<UserKey>) {
    && i <= |es| && (skip0.Some? ==> skip.Some? && skip0.value <= skip.value)
    && (skip == skip0 || exists a :: p <= a < i && Seen(es, s, a) && skip == Some(es[a].key.user))
  }

  ghost predicate Scanned(es: seq<Entry>, s: nat, p: nat, i: nat, skip0: Option<UserKey>, skip: Option<UserKey>) {
    p <= i <= |es| && MaySkip(es, s, i, skip) && NoneShown(es, s, p, i, skip0) && SkipFrom(es, s, p, i, skip0, skip)
  }

  lemma StartScan(es: seq<Entry>, s: nat, p: nat, skip: Option<UserKey>)
    requires MaySkip(es, s, p, skip)
    ensures Scanned(es, s, p, p, skip, skip)
  {
  }

  lemma PassUnseen(es: seq<Entry>, s: nat, p: nat, i: nat, skip0: Option<UserKey>, skip: Option<UserKey>)
    requires Sorted(es) && Scanned(es, s, p, i, skip0, skip) && i < |es| && !Seen(es, s, i)
    ensures Scanned(es, s, p, i + 1, skip0, skip)
  {
  }

  lemma PassDeletion(es: seq<Entry>, s: nat, p: nat, i: nat, skip0: Option<UserKey>, skip: Option<UserKey>)
    requires Sorted(es) && Scanned(es, s, p, i, skip0, skip) && i < |es| && Seen(es, s, i) && es[i].key.kind.Deletion?
    ensures Scanned(es, s, p, i + 1, skip0, Some(es[i].key.user))
  {
    forall a, b | 0 <= a < i + 1 <= b < |es| && Seen(es, s, a) && es[a].key.user == es[b].key.user
      ensures es[b].key.user <= es[i].key.user
    {
      UserOrder(es, a, i);
      UserOrder(es, i, b);
    }
    forall b | i + 1 <= b < |es| ensures es[b].key.user >= es[i].key.user {
      UserOrder(es, i, b);
    }
  }

  lemma PassHidden(es: seq<Entry>, s: nat, p: nat, i: nat, skip0: Option<UserKey>, skip: Option<UserKey>)
    requires Sorted(es) && Scanned(es, s, p, i, skip0, skip) && i < |es| && Seen(es, s, i)
    requires skip.Some? && es[i].key.user <= skip.value
    ensures Scanned(es, s, p, i + 1, skip0, skip)
  {
    assert es[i].key.user == skip.value;
  }

  lemma Accept(es: seq<Entry>, s: nat, p: nat, i: nat, skip0: Option<UserKey>, skip: Option<UserKey>)
    requires Sorted(es) && Scanned(es, s, p, i, skip0, skip) && i < |es| && Seen(es, s, i) && es[i].key.kind.Value?
    requires skip.None? || es[i].key.user > skip.value
    ensures Shown(es, s, i) && (skip0.Some? ==> es[i].key.user > skip0.value)
  {
  }

  // --- scanning backwards ----------------------------------------------------------------------

  /** `m` is the earliest visible entry after position `q` and up to `p`. */
  ghost predicate EarliestSeen(es: seq<Entry>, s: nat, q: int, p: int, m: nat) {
    -1 <= q < m <= p < |es| && Seen(es, s, m) && forall j :: q < j < m ==> !Seen(es, s, j)
  }

  /**
   Walking back from `p` to `q`: nothing shown was left behind, except possibly the
   earliest visible entry, which is the candidate when it is a value.
   */
  ghost predicate Walked(es: seq<Entry>, s: nat, q: int, p: int, candidate: Option<nat>) {
    && -1 <= q <= p < |es|
    && match candidate
       case Some(m) => EarliestSeen(es, s, q, p, m) && es[m].key.kind.Value? && forall j :: m < j <= p ==>
              !Shown(es, s, j)
       case None => forall j :: q < j <= p ==> !Shown(es, s, j)
  }

  /** Stepping over entry `q`, which is not of an earlier user key than a candidate's. */
  lemma WalkBack(es: seq<Entry>, s: nat, q: nat, p: int, candidate: Option<nat>)
    requires Sorted(es) && Walked(es, s, q, p, candidate) && q < |es|
    requires Seen(es, s, q) && candidate.Some? ==> es[q].key.user >= es[candidate.value].key.user
    ensures Walked(es, s, q - 1, p,
                   if !Seen(es, s, q) then candidate else if es[q].key.kind.Value? then Some(q) else None)
  {
    if Seen(es, s, q) && candidate.Some? {
      UserOrder(es, q, candidate.value);
      assert !Shown(es, s, candidate.value);
      forall j | q < j <= p ensures !Shown(es, s, j) {
        assert j < candidate.value ==> !Seen(es, s, j);
      }
    }
  }

  /** A candidate before which the walk stops is shown. */
  lemma CandidateShown(es: seq<Entry>, s: nat, q: int, p: int, m: nat)
    requires Sorted(es) && Walked(es, s, q, p, Some(m)) && (q >= 0 ==> es[q].key.user < es[m].key.user)
    ensures Shown(es, s, m)
  {
    forall j | 0 <= j < m && Seen(es, s, j) ensures es[j].key.user != es[m].key.user {
      if j <= q {
        UserOrder(es, j, q);
      }
    }
  }

  // --- the iterator ---------------------------------------------------------------------------------

  datatype Direction = Forward | Reverse

  class Iterator {
    const es: seq<Entry>           // what the internal iterator walks
    const s: nat                   // sequence_
    var iter: Option<nat>          // its position, if valid
    var savedKey: Option<UserKey>
    var savedValue: string
    var direction: Direction
    var valid: bool
    ghost var cursor: int          // position in the view: -1 before it, its length after it
    ghost var at: nat              // the entry shown

    constructor (entries: seq<Entry>, sequence: nat)
      requires Sorted(entries)
      ensures Ok() && !valid && es == entries && s == sequence && cursor == -1
    {
      es, s := entries, sequence;
      iter, savedKey, savedValue, direction, valid := None, None, "", Forward, false;
      cursor, at := -1, 0;
    }

    ghost function IterPos(): int
      reads this
    {
      if iter.Some? then iter.value else -1
    }

    ghost predicate Ok()
      reads this
    {
      && Sorted(es) && (iter.Some? ==> iter.value < |es|)
      && (valid <==> 0 <= cursor < |View(es, s)|) && -1 <= cursor <= |View(es, s)|
      && (valid ==>
            && at < |es| && Shown(es, s, at) && cursor == |ViewTo(es, s, at)|
            && (direction.Forward? ==> iter == Some(at))
            && (direction.Reverse? ==>
                  && savedKey == Some(es[at].key.user) && savedValue == es[at].value && IterPos() < at
                  && forall j :: IterPos() < j < at ==> !Seen(es, s, j)))
    }

    /** key() */
    function Key(): (k: UserKey)
      reads this
      requires Ok() && valid
      ensures k == View(es, s)[cursor].key
    {
      ViewAt(es, s, at);
      if direction.Forward? then es[iter.value].key.user else savedKey.value
    }

    /** value() */
    function Value(): (v: string)
      reads this
      requires Ok() && valid
      ensures v == View(es, s)[cursor].value
    {
      ViewAt(es, s, at);
      if direction.Forward? then es[iter.value].value else savedValue
    }

    /** Moves to the first shown entry from the current one on that lies after the key to skip. */
    method FindNextUserEntry(skipping0: bool)
      requires Sorted(es) && iter.Some? && iter.value < |es| && (skipping0 ==> savedKey.Some?)
      requires MaySkip(es, s, iter.value, if skipping0 then savedKey else None)
      modifies this
      ensures direction == old(direction) && savedKey == None
      ensures var p, skip := old(iter).value, if skipping0 then old(savedKey) else None;
              && NoneShown(es, s, p, if iter.Some? then iter.value else |es|, skip)
              && (valid <==> iter.Some?)
              && (valid ==> p <= iter.value < |es| && Shown(es, s, iter.value))
              && (valid && skip.Some? ==> es[iter.value].key.user > skip.value)
    {
      hide MaySkip, NoneShown, SkipFrom, Shown, Sorted;
      ghost var p, skip0 := iter.value, if skipping0 then savedKey else None;
      var skipping := skipping0;
      StartScan(es, s, p, skip0);
      while iter.Some?
        invariant iter.Some? ==> iter.value < |es|
        invariant Scanned(es, s, p, if iter.Some? then iter.value else |es|, skip0, if skipping then savedKey else None)
        invariant direction == old(direction) && (skipping ==> savedKey.Some?)
        decreases if iter.Some? then |es| - iter.value else 0
      {
        var i := iter.value;
        ghost var skip := if skipping then savedKey else None;
        if es[i].key.seqno <= s {
          match es[i].key.kind
          case Deletion =>
            PassDeletion(es, s, p, i, skip0, skip);
            savedKey := Some(es[i].key.user);
            skipping := true;
          case Value =>
            if skipping && es[i].key.user <= savedKey.value {
              PassHidden(es, s, p, i, skip0, skip);
            } else {
              Accept(es, s, p, i, skip0, skip);
              valid := true;
              savedKey := None;
              return;
            }
        } else {
          PassUnseen(es, s, p, i, skip0, skip);
        }
        iter := NextOf(es, i);
      }
      savedKey := None;
      valid := false;
    }

    /** Moves to the last shown entry at or before the current one. */
    method FindPrevUserEntry()
      requires Sorted(es) && direction.Reverse? && (iter.Some? ==> iter.value < |es|)
      modifies this
      ensures iter.Some? ==> iter.value < |es|
      ensures direction == if valid then Reverse else Forward
      ensures valid ==>
                && at <= old(IterPos()) < |es| && Shown(es, s, at)
                && (forall j :: at < j <= old(IterPos()) ==> !Shown(es, s, j))
                && savedKey == Some(es[at].key.user) && savedValue == es[at].value
                && IterPos() < at && (forall j :: IterPos() < j < at ==> !Seen(es, s, j))
      ensures !valid ==> forall j :: 0 <= j <= old(IterPos()) && j < |es| ==> !Shown(es, s, j)
    {
      var valueType := Deletion;
      ghost var p, candidate: Option<nat> := IterPos(), None;
      while iter.Some?
        invariant iter.Some? ==> iter.value < |es|
        invariant Walked(es, s, IterPos(), p, candidate) && direction.Reverse?
        invariant valueType.Value? <==> candidate.Some?
        invariant candidate.Some? ==> savedKey == Some(es[candidate.value].key.user)
        invariant candidate.Some? ==> savedValue == es[candidate.value].value
        decreases IterPos()
      {
        var q := iter.value;
        if es[q].key.seqno <= s {
          if valueType != Deletion && es[q].key.user < savedKey.value {
            break;
          }
          WalkBack(es, s, q, p, candidate);
          valueType := es[q].key.kind;
          if valueType == Deletion {
            candidate := None;
            savedKey, savedValue := None, "";
          } else {
            candidate := Some(q);
            savedKey, savedValue := Some(es[q].key.user), es[q].value;
          }
        } else {
          WalkBack(es, s, q, p, candidate);
        }
        iter := PrevOf(q);
      }
      if valueType == Deletion {
        valid := false;
        savedKey, savedValue := None, "";
        direction := Forward;
      } else {
        valid := true;
        at := candidate.value;
        CandidateShown(es, s, IterPos(), p, at);
      }
    }

    method SeekToFirst()
      requires Sorted(es)
      modifies this
      ensures Ok() && cursor == 0
    {
      direction := Forward;
      savedValue := "";
      iter := if |es| > 0 then Some(0) else None;
      if iter.Some? {
        FindNextUserEntry(false);
      } else {
        valid := false;
      }
      cursor, at := 0, if valid then iter.value else 0;
      ViewSkip(es, s, 0, if valid then at else |es|);
      if valid { ViewAt(es, s, at); }
    }

    method SeekToLast()
      requires Sorted(es)
      modifies this
      ensures Ok() && cursor == |View(es, s)| - 1
    {
      direction := Reverse;
      savedValue := "";
      iter := if |es| > 0 then Some(|es| - 1) else None;
      FindPrevUserEntry();
      cursor := |View(es, s)| - 1;
      PrevCursor(es, s, |es|, if valid then Some(at) else None);
      if valid { ViewAt(es, s, at); }
    }

    /** Positions at the first user key at or after `target`. */
    method Seek(target: UserKey)
      requires Sorted(es)
      modifies this
      ensures Ok() && 0 <= cursor <= |View(es, s)|
      ensures forall c :: 0 <= c < cursor ==> View(es, s)[c].key < target
      ensures cursor < |View(es, s)| ==> View(es, s)[cursor].key >= target
    {
      direction := Forward;
      savedValue, savedKey := "", None;
      var p := Versions.Seek(es, SeekKey(target, s));
      SeekMaySkip(es, s, target, p);
      iter := if p < |es| then Some(p) else None;
      if iter.Some? {
        FindNextUserEntry(false);
      } else {
        valid := false;
      }
      at := if valid then iter.value else 0;
      ghost var i := if valid then at else |es|;
      cursor := |ViewTo(es, s, i)|;
      SeekCursor(es, s, target, p, i);
      if valid { ViewAt(es, s, at); }
    }

    method Next()
      requires Ok() && valid
      modifies this
      ensures Ok() && cursor == old(cursor) + 1
    {
      ghost var m, c := at, cursor;
      ViewAt(es, s, m);
      if direction == Reverse {
        direction := Forward;
        iter := if iter.None? then Some(0) else NextOf(es, iter.value);
      } else {
        savedKey := Some(es[iter.value].key.user);
        iter := NextOf(es, iter.value);
      }
      ghost var p := if iter.Some? then iter.value else |es|;
      if iter.None? {
        valid := false;
        savedKey := None;
      } else {
        NextMaySkip(es, s, m, p);
        FindNextUserEntry(true);
      }
      at := if valid then iter.value else 0;
      cursor := c + 1;
      NextCursor(es, s, m, p, if valid then at else |es|);
      if valid { ViewAt(es, s, at); }
    }

    /** The direction switch of Prev: back to before all entries of the current user key. */
    method LeaveKey()
      requires iter.Some? && iter.value < |es|
      modifies this`iter, this`savedKey
      ensures iter.Some? ==> iter.value < |es|
      ensures var m := old(iter).value;
        && IterPos() < m && (forall j :: IterPos() < j < m ==> es[j].key.user >= es[m].key.user)
        && (iter.Some? ==> es[iter.value].key.user < es[m].key.user)
    {
      ghost var m := iter.value;
      savedKey := Some(es[iter.value].key.user);
      iter := PrevOf(iter.value);
      while iter.Some? && es[iter.value].key.user >= savedKey.value
        invariant iter.Some? ==> iter.value < |es|
        invariant IterPos() < m && forall j :: IterPos() < j < m ==> es[j].key.user >= es[m].key.user
        invariant savedKey == Some(es[m].key.user)
        decreases IterPos()
      {
        iter := PrevOf(iter.value);
      }
    }

    method Prev()
      requires Ok() && valid
      modifies this
      ensures Ok() && cursor == old(cursor) - 1
    {
      ghost var m, c := at, cursor;
      ViewAt(es, s, m);
      if direction == Forward {
        LeaveKey();
        SameKeyNotShown(es, s, IterPos(), m);
        if iter.None? {
          valid := false;
          savedKey, savedValue := None, "";
          ViewSkip(es, s, 0, m);
          cursor := -1;
          return;
        }
        direction := Reverse;
      }
      ghost var p := IterPos() + 1;
      ViewSkip(es, s, p, m);
      FindPrevUserEntry();
      cursor := c - 1;
      PrevCursor(es, s, p, if valid then Some(at) else None);
      if valid { ViewAt(es, s, at); }
    }
  }

  // --- where the cursor ends up ------------------------------------------------------------------------

  /** `last` is the last shown entry below `p`. */
  lemma PrevCursor(es: seq<Entry>, s: nat, p: nat, last: Option<nat>)
    requires p <= |es|
    requires match last
             case Some(m) => m < p && Shown(es, s, m) && forall j :: m < j < p ==> !Shown(es, s, j)
             case None => forall j :: 0 <= j < p ==> !Shown(es, s, j)
    ensures |ViewTo(es, s, p)| == if last.Some? then |ViewTo(es, s, last.value)| + 1 else 0
  {
    ViewSkip(es, s, if last.Some? then last.value + 1 else 0, p);
  }

  lemma NextMaySkip(es: seq<Entry>, s: nat, m: nat, p: nat)
    requires Sorted(es) && m < |es| && Shown(es, s, m) && p < |es|
    requires p == m + 1 || (p <= m && forall j :: p <= j < m ==> !Seen(es, s, j))
    ensures MaySkip(es, s, p, Some(es[m].key.user))
  {
    forall a, b | 0 <= a < p <= b < |es| && Seen(es, s, a) && es[a].key.user == es[b].key.user
      ensures es[b].key.user <= es[m].key.user
    {
      if b <= m { UserOrder(es, b, m); } else { UserOrder(es, a, m); UserOrder(es, m, b); }
    }
    forall b | p <= b < |es| && Seen(es, s, b) ensures es[b].key.user >= es[m].key.user {
      UserOrder(es, m, b);
    }
  }

  lemma NextCursor(es: seq<Entry>, s: nat, m: nat, p: nat, i: nat)
    requires Sorted(es) && m < |es| && Shown(es, s, m) && p <= m + 1 && i <= |es|
    requires NoneShown(es, s, p, i, Some(es[m].key.user)) && (i < |es| ==> es[i].key.user > es[m].key.user)
    ensures |ViewTo(es, s, i)| == |ViewTo(es, s, m)| + 1
  {
    if i <= m {
      UserOrder(es, i, m);
    }
    forall j | m < j < i ensures !Shown(es, s, j) {
      UserOrder(es, m, j);
    }
    ViewSkip(es, s, m + 1, i);
  }

  lemma SameKeyNotShown(es: seq<Entry>, s: nat, q: int, m: nat)
    requires Sorted(es) && -1 <= q < m < |es| && Shown(es, s, m)
    requires forall j :: q < j < m ==> es[j].key.user >= es[m].key.user
    ensures forall j :: q < j < m ==> !Shown(es, s, j)
  {
    forall j | q < j < m ensures !Shown(es, s, j) {
      UserOrder(es, j, m);
    }
  }

  lemma SeekMaySkip(es: seq<Entry>, s: nat, target: UserKey, p: nat)
    requires Sorted(es) && SeekStops(es, SeekKey(target, s), p)
    ensures MaySkip(es, s, p, None)
    ensures forall j :: 0 <= j < p && Seen(es, s, j) ==> es[j].key.user < target
    ensures forall j :: p <= j < |es| ==> es[j].key.user >= target
  {
    forall j | p <= j < |es| ensures es[j].key.user >= target {
      UserOrder(es, p, j);
    }
  }

  lemma SeekCursor(es: seq<Entry>, s: nat, target: UserKey, p: nat, i: nat)
    requires Sorted(es) && SeekStops(es, SeekKey(target, s), p) && p <= i <= |es| && NoneShown(es, s, p, i, None)
    ensures |ViewTo(es, s, i)| <= |View(es, s)|
    ensures forall c :: 0 <= c < |ViewTo(es, s, i)| ==> View(es, s)[c].key < target
    ensures i < |es| ==> es[i].key.user >= target
  {
    SeekMaySkip(es, s, target, p);
    ViewPrefix(es, s, i, |es|);
    forall c | 0 <= c < |ViewTo(es, s, i)| ensures View(es, s)[c].key < target {
      var j := ViewComesFrom(es, s, i, c);
      assert j < p;
    }
  }

  // --- any sequence of calls ---------------------------------------------------------------------------

  ghost function KeysOf(view: seq<Pair>): (ks: seq<UserKey>)
    ensures |ks| == |view| && forall i :: 0 <= i < |view| ==> ks[i] == view[i].key
  {
    seq(|view|, i requires 0 <= i < |view| => view[i].key)
  }

  /** However the calls are mixed, the iterator stays on the cursor of the visible map. */
  method Drive(it: Iterator, calls: seq<Call>)
    requires it.Ok()
    modifies it
    ensures it.Ok() && it.cursor == MovedBy(KeysOf(View(it.es, it.s)), old(it.cursor), calls)
  {
    var i := 0;
    while i < |calls|
      invariant 0 <= i <= |calls| && it.Ok()
      invariant it.cursor == MovedBy(KeysOf(View(it.es, it.s)), old(it.cursor), calls[..i])
    {
      assert calls[..i + 1][..i] == calls[..i];
      match calls[i] {
        case CallFirst => it.SeekToFirst();
        case CallLast => it.SeekToLast();
        case CallSeek(target) =>
          it.Seek(target);
          LowerBoundIs(KeysOf(View(it.es, it.s)), target, it.cursor);
        case CallNext => if it.valid { it.Next(); }
        case CallPrev => if it.valid { it.Prev(); }
      }
      i := i + 1;
    }
    assert calls[..i] == calls;
  }
}
