/**
 The memtable's skip list (db/skiplist.h): one writer, lock-free readers.

 Keys in the list are distinct, so a node is named by its key.  Memory is what the
 `next_` pointers hold, level by level; every load and every store of a pointer is a
 step of its own (sequentially consistent).
 */
module SkipList {
  import opened Spec

  const MAX_HEIGHT: nat := 12

  /** `End` is the null pointer, which sorts after every key. */
  datatype Node = Head | At(key: real) | End

  predicate Less(a: Node, b: Node) {
    match (a, b)
    case (Head, Head) => false
    case (Head, _) => true
    case (At(x), At(y)) => x < y
    case (At(_), End) => true
    case (_, _) => false
  }

  /** The pointers, `next[level][node]`, and max_height_. */
  datatype Memory = Memory(next: seq<map<Node, Node>>, maxHeight: nat)

  predicate Defined(m: Memory, level: nat, x: Node) {
    level < |m.next| && x in m.next[level]
  }

  function Next(m: Memory, level: nat, x: Node): Node
    requires Defined(m, level, x)
  {
    m.next[level][x]
  }

  function SetNext(m: Memory, level: nat, x: Node, n: Node): Memory
    requires level < |m.next|
  {
    m.(next := m.next[level := m.next[level][x := n]])
  }

  // --- what the pointers should be -----------------------------------------------------------

  /** `x` is a node that the list of keys `S` passes through. */
  predicate On(S: set<real>, x: Node) {
    x == Head || (x.At? && x.key in S)
  }

  /** `n` is the node right after position `x` in the sorted list of `S`. */
  ghost predicate IsNext(S: set<real>, x: Node, n: Node) {
    && Less(x, n) && (n.At? ==> n.key in S)
    && forall k :: k in S && Less(x, At(k)) ==> !Less(At(k), n)
  }

  /** `p` is the last node of the list of `S` before `key`. */
  ghost predicate IsPrev(S: set<real>, key: real, p: Node) {
    && On(S, p) && Less(p, At(key))
    && forall k :: k in S && k < key ==> !Less(p, At(k))
  }

  /** `n` is the first node of the list of `S` at or after `key`. */
  ghost predicate IsFirst(S: set<real>, key: real, n: Node) {
    && !Less(n, At(key)) && n != Head && (n.At? ==> n.key in S)
    && forall k :: k in S && k >= key ==> !Less(At(k), n)
  }

  /** `p` is the last node of the list of `S`. */
  ghost predicate IsLast(S: set<real>, p: Node) {
    On(S, p) && forall k :: k in S ==> !Less(p, At(k))
  }

  /** One level: a sorted linked list of exactly the keys of `S`. */
  ghost predicate Linked(links: map<Node, Node>, S: set<real>) {
    forall x :: On(S, x) ==> x in links && IsNext(S, x, links[x])
  }

  /** Every level is sorted, each is a sublist of the one below, and levels from max_height_ on are empty. */
  ghost predicate ListsOk(m: Memory, L: seq<set<real>>) {
    && |m.next| == MAX_HEIGHT == |L| && 1 <= m.maxHeight <= MAX_HEIGHT
    && (forall i :: 0 <= i < MAX_HEIGHT ==> Linked(m.next[i], L[i]))
    && (forall i, j :: 0 <= i <= j < MAX_HEIGHT ==> L[j] <= L[i])
    && (forall i :: m.maxHeight <= i < MAX_HEIGHT ==> L[i] == {})
  }

  // --- the writer --------------------------------------------------------------------------------

  /**
   Insert after its search: `linked` levels are done, counting from the bottom; `own`
   says that the new node's pointer on the next one is set.
   */
  datatype Writer = Writer(key: real, height: nat, prev: seq<Node>, linked: nat, own: bool)

  ghost predicate WriterOk(m: Memory, L: seq<set<real>>, w: Writer) {
    && |L| == MAX_HEIGHT == |m.next| && 1 <= w.height <= MAX_HEIGHT && |w.prev| == MAX_HEIGHT && w.linked <= w.height
    && (forall i :: 0 <= i < w.linked ==> w.key in L[i])
    && (forall i :: w.linked <= i < MAX_HEIGHT ==> w.key !in L[i])
    && (forall i :: w.linked <= i < w.height ==> IsPrev(L[i], w.key, w.prev[i]))
    && (w.linked > 0 || w.own ==> w.height <= m.maxHeight)
    && (w.own ==> w.linked < w.height && At(w.key) in m.next[w.linked])
    && (w.own ==> IsNext(L[w.linked], At(w.key), m.next[w.linked][At(w.key)]))
  }

  datatype Store = Raise | SetOwn | Publish

  /** One store of Insert. */
  ghost predicate WriterNext(m: Memory, w: Writer, m': Memory, w': Writer, store: Store) {
    && |m.next| == MAX_HEIGHT == |w.prev| && 1 <= w.height <= MAX_HEIGHT
    && match store
       case Raise =>
         w.linked == 0 && !w.own && w.height > m.maxHeight && w' == w && m' == m.(maxHeight := w.height)
       case SetOwn =>
         && w.height <= m.maxHeight && w.linked < w.height && !w.own && Defined(m, w.linked, w.prev[w.linked])
         && w' == w.(own := true) && m' == SetNext(m, w.linked, At(w.key), Next(m, w.linked, w.prev[w.linked]))
       case Publish =>
         && w.linked < w.height && w.own
         && w' == w.(own := false, linked := w.linked + 1) && m' == SetNext(m, w.linked, w.prev[w.linked], At(w.key))
  }

  /** Publishing on a level adds the key to its list. */
  function Published(L: seq<set<real>>, w: Writer, store: Store): seq<set<real>> {
    if store.Publish? && w.linked < |L| then L[w.linked := L[w.linked] + {w.key}] else L
  }

  lemma NextOfPrev(S: set<real>, key: real, p: Node, n: Node)
    requires IsPrev(S, key, p) && IsNext(S, p, n) && key !in S
    ensures IsNext(S, At(key), n)
  {
  }

  /** Linking a new key after its predecessor keeps a level sorted. */
  lemma PublishLevel(links: map<Node, Node>, S: set<real>, key: real, p: Node)
    requires Linked(links, S) && IsPrev(S, key, p) && key !in S && At(key) in links
    requires IsNext(S, At(key), links[At(key)])
    ensures Linked(links[p := At(key)], S + {key})
  {
    var links', S' := links[p := At(key)], S + {key};
    forall x | On(S', x) ensures x in links' && IsNext(S', x, links'[x]) {
      if x == p {
        assert forall k :: k in S && Less(p, At(k)) ==> k > key;
      } else if x == At(key) {
      } else {
        assert On(S, x) && IsNext(S, x, links[x]);
        assert Less(x, At(key)) ==> Less(x, p);
        assert Less(x, p) ==> !Less(p, links[x]);
      }
    }
  }

  /** At every intermediate store of Insert all levels are sorted lists, each a sublist of the one below. */
  lemma StoreKeepsLists(m: Memory, w: Writer, m': Memory, w': Writer, store: Store, L: seq<set<real>>)
    requires ListsOk(m, L) && WriterOk(m, L, w) && WriterNext(m, w, m', w', store)
    ensures ListsOk(m', Published(L, w, store)) && WriterOk(m', Published(L, w, store), w')
  {
    var i := w.linked;
    match store
    case Raise =>
    case SetOwn =>
      NextOfPrev(L[i], w.key, w.prev[i], Next(m, i, w.prev[i]));
      assert Linked(m'.next[i], L[i]);
    case Publish =>
      PublishLevel(m.next[i], L[i], w.key, w.prev[i]);
  }

  // --- readers -------------------------------------------------------------------------------------

  /** FindGreaterOrEqual, FindLessThan and FindLast. */
  datatype Goal = AtOrAfter(target: real) | JustBefore(target: real) | Last

  /** The search passes over `n`. */
  predicate Passes(goal: Goal, n: Node) {
    match goal
    case AtOrAfter(target) => Less(n, At(target))
    case JustBefore(target) => Less(n, At(target))
    case Last => n != End
  }

  /**
   A search in progress or finished.  `before` is what level 0 held when it started,
   `seen` what it held at the last load on level 0.
   */
  datatype Reader =
    | Searching(goal: Goal, x: Node, level: nat, before: set<real>)
    | Found(goal: Goal, node: Node, before: set<real>, seen: set<real>)

  ghost predicate ReaderStart(m: Memory, S: set<real>, goal: Goal, r: Reader) {
    m.maxHeight > 0 && r == Searching(goal, Head, m.maxHeight - 1, S)
  }

  /** One load of a pointer, and what the search does with it. */
  ghost predicate ReaderNext(m: Memory, S: set<real>, r: Reader, r': Reader) {
    && r.Searching? && Defined(m, r.level, r.x)
    && var next := Next(m, r.level, r.x);
       if Passes(r.goal, next) then r' == r.(x := next)
       else if r.level > 0 then r' == r.(level := r.level - 1)
       else r' == Found(r.goal, if r.goal.AtOrAfter? then next else r.x, r.before, S)
  }

  /** What a search promises about the list as of its last level-0 load. */
  ghost predicate Right(goal: Goal, node: Node, S: set<real>) {
    match goal
    case AtOrAfter(target) => IsFirst(S, target, node)
    case JustBefore(target) => IsPrev(S, target, node)
    case Last => IsLast(S, node)
  }

  ghost predicate ReaderOk(L: seq<set<real>>, r: Reader) {
    |L| == MAX_HEIGHT &&
    match r
    case Searching(goal, x, level, before) => level < MAX_HEIGHT && On(L[level], x) && Passes(goal, x) && before <= L[0]
    case Found(goal, node, before, seen) => before <= seen <= L[0] && Right(goal, node, seen)
  }

  lemma LoadKeepsReader(m: Memory, L: seq<set<real>>, r: Reader, r': Reader)
    requires ListsOk(m, L) && ReaderOk(L, r) && ReaderNext(m, L[0], r, r')
    ensures ReaderOk(L, r')
  {
    var next := Next(m, r.level, r.x);
    assert IsNext(L[r.level], r.x, next);
    if r.level > 0 {
      assert L[r.level] <= L[r.level - 1];
    }
  }

  /** A reader may always take its next load: the pointer it follows is initialized. */
  lemma ReaderNeverStuck(m: Memory, L: seq<set<real>>, r: Reader)
    requires ListsOk(m, L) && ReaderOk(L, r) && r.Searching?
    ensures Defined(m, r.level, r.x)
  {
    assert Linked(m.next[r.level], L[r.level]);
  }

  lemma StoreKeepsReader(L: seq<set<real>>, w: Writer, store: Store, r: Reader)
    requires ReaderOk(L, r)
    ensures ReaderOk(Published(L, w, store), r)
  {
  }

  // --- the machine ------------------------------------------------------------------------------------

  datatype State = State(mem: Memory, lists: seq<set<real>>, writer: Option<Writer>, readers: map<nat, Reader>)

  datatype Step =
    | BeginInsert(key: real, height: nat, prev: seq<Node>)
    | DoStore(store: Store)
    | EndInsert
    | BeginSearch(id: nat, goal: Goal)
    | Load(id: nat)

  /** What the writer's own search delivers: the predecessor on every level below the new height. */
  ghost predicate PrevOk(L: seq<set<real>>, key: real, height: nat, prev: seq<Node>) {
    |prev| == MAX_HEIGHT == |L| && 1 <= height <= MAX_HEIGHT && forall i :: 0 <= i < height ==>
        IsPrev(L[i], key, prev[i])
  }

  ghost predicate NextState(s: State, s': State, step: Step) {
    |s.lists| == MAX_HEIGHT &&
    match step
    case BeginInsert(key, height, prev) =>
      && s.writer.None? && key !in s.lists[0] && PrevOk(s.lists, key, height, prev)
      && s' == s.(writer := Some(Writer(key, height, prev, 0, false)))
    case DoStore(store) =>
      && s.writer.Some? && s'.writer.Some? && WriterNext(s.mem, s.writer.value, s'.mem, s'.writer.value, store)
      && s'.lists == Published(s.lists, s.writer.value, store) && s'.readers == s.readers
    case EndInsert =>
      s.writer.Some? && s.writer.value.linked == s.writer.value.height && s' == s.(writer := None)
    case BeginSearch(id, goal) =>
      && id in s'.readers && ReaderStart(s.mem, s.lists[0], goal, s'.readers[id])
      && s' == s.(readers := s.readers[id := s'.readers[id]])
    case Load(id) =>
      && id in s.readers && id in s'.readers && ReaderNext(s.mem, s.lists[0], s.readers[id], s'.readers[id])
      && s' == s.(readers := s.readers[id := s'.readers[id]])
  }

  /** The constructor: every pointer of the head is null. */
  ghost predicate Init(s: State) {
    && s.mem.maxHeight == 1 && |s.mem.next| == MAX_HEIGHT
    && (forall i :: 0 <= i < MAX_HEIGHT ==> s.mem.next[i] == map[Head := End])
    && |s.lists| == MAX_HEIGHT && (forall i :: 0 <= i < MAX_HEIGHT ==> s.lists[i] == {})
    && s.writer == None && s.readers == map[]
  }

  ghost predicate Inv(s: State) {
    && ListsOk(s.mem, s.lists) && (s.writer.Some? ==> WriterOk(s.mem, s.lists, s.writer.value))
    && forall id :: id in s.readers ==> ReaderOk(s.lists, s.readers[id])
  }

  lemma NextInv(s: State, s': State, step: Step)
    requires Inv(s) && NextState(s, s', step)
    ensures Inv(s') && s.lists[0] <= s'.lists[0]
  {
    match step
    case BeginInsert(key, height, prev) =>
      assert forall i :: 0 <= i < MAX_HEIGHT ==> s.lists[i] <= s.lists[0];
    case DoStore(store) =>
      StoreKeepsLists(s.mem, s.writer.value, s'.mem, s'.writer.value, store, s.lists);
      forall id | id in s'.readers ensures ReaderOk(s'.lists, s'.readers[id]) {
        StoreKeepsReader(s.lists, s.writer.value, store, s.readers[id]);
      }
    case EndInsert =>
    case BeginSearch(id, goal) =>
    case Load(id) =>
      LoadKeepsReader(s.mem, s.lists, s.readers[id], s'.readers[id]);
  }

  datatype Run = Start(s: State) | Then(before: Run, step: Step, s: State)

  ghost predicate IsRun(run: Run) {
    match run
    case Start(s) => Init(s)
    case Then(before, step, s) => IsRun(before) && NextState(before.s, s, step)
  }

  lemma {:induction false} RunInv(run: Run)
    requires IsRun(run)
    ensures Inv(run.s)
  {
    match run
    case Start(s) =>
    case Then(before, step, s) =>
      RunInv(before);
      NextInv(before.s, s, step);
  }

  /** At every point of every run, each level is sorted and a sublist of level 0. */
  lemma LevelsInRun(run: Run, level: nat)
    requires IsRun(run) && level < MAX_HEIGHT
    ensures |run.s.mem.next| == MAX_HEIGHT == |run.s.lists|
    ensures Linked(run.s.mem.next[level], run.s.lists[level]) && run.s.lists[level] <= run.s.lists[0]
  {
    RunInv(run);
  }

  /**
   A reader that has finished, at any point of any interleaving, found the right node
   of the list as it was at its last load on level 0; that list holds everything
   inserted before the search began.
   */
  lemma ReaderFinds(run: Run, id: nat)
    requires IsRun(run) && id in run.s.readers && run.s.readers[id].Found?
    ensures var r := run.s.readers[id]; Right(r.goal, r.node, r.seen) && r.before <= r.seen
  {
    RunInv(run);
  }

  /** While a search runs, every pointer it may load is set. */
  lemma ReaderProceeds(run: Run, id: nat)
    requires IsRun(run) && id in run.s.readers && run.s.readers[id].Searching?
    ensures Defined(run.s.mem, run.s.readers[id].level, run.s.readers[id].x)
  {
    RunInv(run);
    ReaderNeverStuck(run.s.mem, run.s.lists, run.s.readers[id]);
  }

  /** Iterator::Next takes one load: it moves to the node that follows in the list of that moment. */
  lemma IteratorNext(run: Run, x: Node)
    requires IsRun(run) && On(run.s.lists[0], x)
    requires |run.s.lists| == MAX_HEIGHT
    ensures Defined(run.s.mem, 0, x) && IsNext(run.s.lists[0], x, Next(run.s.mem, 0, x))
  {
    RunInv(run);
    assert Linked(run.s.mem.next[0], run.s.lists[0]);
  }

  // --- the methods ------------------------------------------------------------------------------------------

  /** Keys of `S` after position `x`. */
  ghost function After(S: set<real>, x: Node): set<real> {
    set k | k in S && Less(x, At(k))
  }

  lemma AfterShrinks(S: set<real>, x: Node, n: Node)
    requires n.At? && n.key in S && Less(x, n)
    ensures After(S, n) < After(S, x)
  {
    assert n.key in After(S, x) && n.key !in After(S, n);
  }

  class List {
    var mem: Memory
    ghost var lists: seq<set<real>>

    ghost predicate Valid()
      reads this
    {
      ListsOk(mem, lists)
    }

    constructor ()
      ensures Valid() && lists[0] == {}
      ensures Init(State(mem, lists, None, map[]))
    {
      mem := Memory(seq(MAX_HEIGHT, i => map[Head := End]), 1);
      lists := seq(MAX_HEIGHT, i => {});
    }

    /** The first node at or after `key`, and the last one before it on every level in use. */
    method FindGreaterOrEqual(key: real) returns (node: Node, prev: seq<Node>)
      requires Valid()
      ensures IsFirst(lists[0], key, node) && |prev| == MAX_HEIGHT
      ensures forall i :: 0 <= i < mem.maxHeight ==> IsPrev(lists[i], key, prev[i])
    {
      var x, level := Head, mem.maxHeight - 1;
      prev := seq(MAX_HEIGHT, i => Head);
      while true
        invariant 0 <= level < mem.maxHeight && |prev| == MAX_HEIGHT
        invariant On(lists[level], x) && Less(x, At(key))
        invariant forall i :: level < i < mem.maxHeight ==> IsPrev(lists[i], key, prev[i])
        decreases level, After(lists[level], x)
      {
        assert Linked(mem.next[level], lists[level]);
        var next := mem.next[level][x];
        if Less(next, At(key)) {
          AfterShrinks(lists[level], x, next);
          x := next;
        } else {
          prev := prev[level := x];
          if level == 0 {
            return next, prev;
          }
          assert lists[level] <= lists[level - 1];
          level := level - 1;
        }
      }
    }

    /** The last node before `key`. */
    method FindLessThan(key: real) returns (x: Node)
      requires Valid()
      ensures IsPrev(lists[0], key, x)
    {
      x := Head;
      var level := mem.maxHeight - 1;
      while true
        invariant 0 <= level < mem.maxHeight && On(lists[level], x) && Less(x, At(key))
        decreases level, After(lists[level], x)
      {
        assert Linked(mem.next[level], lists[level]);
        var next := mem.next[level][x];
        if !Less(next, At(key)) {
          if level == 0 {
            return;
          }
          assert lists[level] <= lists[level - 1];
          level := level - 1;
        } else {
          AfterShrinks(lists[level], x, next);
          x := next;
        }
      }
    }

    /** The last node. */
    method FindLast() returns (x: Node)
      requires Valid()
      ensures IsLast(lists[0], x)
    {
      x := Head;
      var level := mem.maxHeight - 1;
      while true
        invariant 0 <= level < mem.maxHeight && On(lists[level], x)
        decreases level, After(lists[level], x)
      {
        assert Linked(mem.next[level], lists[level]);
        var next := mem.next[level][x];
        if next == End {
          if level == 0 {
            return;
          }
          assert lists[level] <= lists[level - 1];
          level := level - 1;
        } else {
          AfterShrinks(lists[level], x, next);
          x := next;
        }
      }
    }

    method Contains(key: real) returns (found: bool)
      requires Valid()
      ensures found <==> key in lists[0]
    {
      var x, _ := FindGreaterOrEqual(key);
      return x == At(key);
    }

    /** Insert's search, with the head standing in on levels not yet in use. */
    method FindPrev(key: real, height: nat) returns (prev: seq<Node>)
      requires Valid() && 1 <= height <= MAX_HEIGHT
      ensures PrevOk(lists, key, height, prev)
    {
      var x;
      x, prev := FindGreaterOrEqual(key);
      var top := mem.maxHeight;
      while top < height
        invariant mem.maxHeight <= top && |prev| == MAX_HEIGHT
        invariant forall i :: 0 <= i < mem.maxHeight ==> IsPrev(lists[i], key, prev[i])
        invariant forall i :: mem.maxHeight <= i < top && i < MAX_HEIGHT ==> prev[i] == Head
      {
        prev := prev[top := Head];
        top := top + 1;
      }
    }

    /** The two stores that link the new node on one level. */
    method LinkLevel(key: real, i: nat, prev: Node, ghost path: Path) returns (ghost path': Path)
      requires Valid() && IsPath(path) && path.mem == mem && WriterOk(mem, lists, path.w) && !path.w.own
      requires i == path.w.linked < path.w.height <= mem.maxHeight && prev == path.w.prev[i] && key == path.w.key
      modifies this
      ensures Valid() && mem.maxHeight == old(mem.maxHeight) && WriterOk(mem, lists, path'.w)
      ensures path'.w == path.w.(linked := i + 1) && path'.mem == mem && IsPath(path')
      ensures FirstOf(path') == FirstOf(path)
      ensures lists == old(lists)[i := old(lists)[i] + {path.w.key}]
    {
      ghost var w := path.w;
      assert Linked(mem.next[i], lists[i]);
      mem := SetNext(mem, i, At(key), mem.next[i][prev]);
      StoreKeepsLists(path.mem, w, mem, w.(own := true), SetOwn, lists);
      path' := Later(path, mem, w.(own := true), SetOwn);
      mem := SetNext(mem, i, prev, At(key));
      StoreKeepsLists(path'.mem, path'.w, mem, w.(linked := i + 1), Publish, lists);
      lists := Published(lists, w, Publish);
      path' := Later(path', mem, w.(linked := i + 1), Publish);
    }

    /**
     Insert: search, raise max_height_ if needed, then link the new node level by
     level from the bottom.  Every store is one the machine's writer makes.
     */
    method Insert(key: real, height: nat) returns (ghost path: Path)
      requires Valid() && key !in lists[0] && 1 <= height <= MAX_HEIGHT
      modifies this
      ensures Valid() && lists[0] == old(lists[0]) + {key}
      ensures IsPath(path) && path.mem == mem && path.w.linked == height && FirstOf(path).mem == old(mem)
      ensures FirstOf(path).w == Writer(key, height, path.w.prev, 0, false)
      ensures PrevOk(old(lists), key, height, path.w.prev)
    {
      var prev := FindPrev(key, height);
      ghost var w := Writer(key, height, prev, 0, false);
      path := First(mem, w);
      assert forall i :: 0 <= i < MAX_HEIGHT ==> lists[i] <= lists[0];
      if height > mem.maxHeight {
        mem := mem.(maxHeight := height);
        assert IsPath(path) && WriterNext(path.mem, w, mem, w, Raise);
        path := Later(path, mem, w, Raise);
      }
      var i := 0;
      while i < height
        invariant 0 <= i <= height <= mem.maxHeight && Valid() && WriterOk(mem, lists, path.w)
        invariant path.w == w.(linked := i) && IsPath(path) && path.mem == mem && FirstOf(path) == First(old(mem), w)
        invariant lists[0] == old(lists[0]) + (if i > 0 then {key} else {})
      {
        path := LinkLevel(key, i, prev[i], path);
        i := i + 1;
      }
    }
  }

  /** The stores of one Insert, latest last. */
  datatype Path = First(mem: Memory, w: Writer) | Later(past: Path, mem: Memory, w: Writer, store: Store)

  ghost predicate IsPath(path: Path) {
    path.First? || (IsPath(path.past) && WriterNext(path.past.mem, path.past.w, path.mem, path.w, path.store))
  }

  ghost function FirstOf(path: Path): Path {
    if path.First? then path else FirstOf(path.past)
  }
}
