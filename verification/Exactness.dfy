/**
 Exactly when the code keeps its promises, where it does not always keep them.

 SetupOtherInputs gives boundary files to `inputs_[0]` only, and CompactRange may
 choose files with gaps between them.  For each, the precise condition under which
 the promise holds, and a concrete case in which it does not.
 */
module Exactness {
  import opened Keys
  import opened Spec
  import opened Versions
  import opened Inputs
  import opened Selection
  import opened Install
  import opened Flush

  // --- dropping a deletion whose older value stays behind in the output level -------------

  /** A file of the output level, left out of the compaction, that starts with an older operation on `u`. */
  ghost predicate Continues(V: set<Placed>, job: Job, d: Entry, g: Placed) {
    && g in V && g !in job.inputs && g.level == job.level + 1 && g.file.entries != []
    && g.file.entries[0].key.user == d.key.user && g.file.entries[0].key.seqno < d.key.seqno
  }

  /** The first such file. */
  ghost predicate FirstContinues(V: set<Placed>, job: Job, d: Entry, g: Placed) {
    && Continues(V, job, d, g)
    && forall h :: Continues(V, job, d, h) ==> h.file.entries[0].key.seqno <= g.file.entries[0].key.seqno
  }

  /**
   The failing case: the oldest live snapshot sees a deletion among the inputs that
   no deeper file covers, and the next file of the output level, left out, starts
   with a value for the same key.
   */
  ghost predicate Resurrects(V: set<Placed>, M: iset<Entry>, job: Job, d: Entry, g: Placed)
    requires FilesOk(job.base)
  {
    && d in Content(job.inputs) && Obsolete(job, d)
    && Newest(M + Content(V), d.key.user, job.floor, d)
    && FirstContinues(V, job, d, g) && g.file.entries[0].key.kind.Value?
  }

  /** An older operation that survives a dropped deletion is the first entry of a continuing file. */
  lemma SurvivorContinues(V: set<Placed>, M: iset<Entry>, job: Job, r: Range, d: Entry, m: Entry) returns (g: Placed)
    requires TreeOk(V) && Chosen(V, job, r) && job.base == V
    requires Unique(M + Content(V)) && Newer(M, Content(V))
    requires d in Content(job.inputs) && Obsolete(job, d)
    requires m in M + Content(V) && m !in Drops(job) && m.key.user == d.key.user && m.key.seqno <= d.key.seqno
    ensures Continues(V, job, d, g) && m in g.file.entries && g.file.entries[0].key.seqno >= m.key.seqno
  {
    ChosenFits(V, job, r);
    InputContent(V, job, d);
    var f :| f in job.inputs && d in f.file.entries;
    forall x | x in M && x.key.user == d.key.user ensures x.key.seqno > d.key.seqno {
      assert Later(x, d);
    }
    g :| g in V && m in g.file.entries;
    SurvivorLevel(V, job, d, f, m, g, M);
    SurvivorFirst(V, M, job, r, d, f, m, g);
  }

  lemma SurvivorFirst(V: set<Placed>, M: iset<Entry>, job: Job, r: Range, d: Entry, f: Placed, m: Entry, g: Placed)
    requires TreeOk(V) && Chosen(V, job, r) && Unique(M + Content(V))
    requires f in job.inputs && d in f.file.entries && g in V && g !in job.inputs && g.level == job.level + 1
    requires m in g.file.entries && m.key.user == d.key.user && m.key.seqno < d.key.seqno
    ensures Continues(V, job, d, g) && g.file.entries[0].key.seqno >= m.key.seqno
  {
    assert !Overlaps(g.file, r);
    if f.level == job.level {
      ApartFromRange(g.file, f.file, r, m, d);
    } else {
      assert f in V && PairOk(f, g);
      InRange(g.file, m);
      InRange(f.file, d);
      var first := g.file.entries[0];
      InContent(V, g, first);
      InContent(V, f, d);
      assert !SameNumber(first, d);
    }
  }

  lemma SurvivorLevel(V: set<Placed>, job: Job, d: Entry, f: Placed, m: Entry, g: Placed, M: iset<Entry>)
    requires TreeOk(V) && FilesOk(job.base) && Fits(V, job) && job.base == V && Unique(M + Content(V))
    requires f in job.inputs && d in f.file.entries && Obsolete(job, d)
    requires g in V && m in g.file.entries && m !in Drops(job) && m.key.user == d.key.user && m.key.seqno <= d.key.seqno
    ensures g !in job.inputs && g.level == job.level + 1 && m.key.seqno < d.key.seqno
  {
    InContent(V, f, d);
    InContent(V, g, m);
    InContent(job.inputs, f, d);
    InRange(g.file, m);
    assert SameNumber(m, d) ==> m == d;
    if g in job.inputs {
      InContent(job.inputs, g, m);
      if m.key.seqno < d.key.seqno {
        OlderIsShadowed(Content(job.inputs), d, m, job.floor);
      }
    } else if g.level <= job.level {
      NewerAbove(V, job, f, g, d, m);
    } else if g.level >= job.level + 2 {
      SpansCovers(V, job.level, g, d.key.user);
    }
  }

  lemma NewerAbove(V: set<Placed>, job: Job, f: Placed, g: Placed, d: Entry, m: Entry)
    requires TreeOk(V) && Fits(V, job) && f in job.inputs && d in f.file.entries
    requires g in V && g !in job.inputs && g.level <= job.level && m in g.file.entries && m.key.user == d.key.user
    ensures m.key.seqno > d.key.seqno
  {
    assert f in V && f != g && PairOk(g, f);
    assert m in Has(g.file) && d in Has(f.file) && Later(m, d);
  }

  /**
   Dropping `D` is invisible to a read when its newest operation stays, or was a deletion
   and so is what it uncovers.
   */
  lemma SilentOne(S: iset<Entry>, D: iset<Entry>, k: UserKey, s: nat, n: Entry, r: Option<string>)
    requires Unique(S) && Newest(S, k, s, n)
    requires n in D ==> n.key.kind.Deletion? && forall e :: Newest(S - D, k, s, e) ==> e.key.kind.Deletion?
    ensures Answers(S, k, s, r) <==> Answers(S - D, k, s, r)
  {
    OnlyOneNewest(S, k, s, n);
    if n !in D {
      assert Newest(S - D, k, s, n);
      SubsetUnique(S - D, S);
      OnlyOneNewest(S - D, k, s, n);
    }
  }

  /** Without the failing case, dropping is invisible at every live snapshot. */
  lemma NoResurrection(V: set<Placed>, M: iset<Entry>, job: Job, range: Range, k: UserKey, s: nat, r: Option<string>)
    requires TreeOk(V) && Chosen(V, job, range) && job.base == V
    requires Unique(M + Content(V)) && Newer(M, Content(V)) && job.floor <= s
    requires forall d, g :: !Resurrects(V, M, job, d, g)
    ensures Answers(M + Content(V), k, s, r) <==> Answers(M + Content(V) - Drops(job), k, s, r)
  {
    assert FilesOk(job.base);
    hide TreeOk, Chosen, Unique, Newer, Drops, Resurrects, Content;
    var S := M + Content(V);
    if x :| x in S && Visible(x, k, s) {
      var n := NewestExists(S, k, s, x);
      if n in Drops(job) {
        SilentDrop(V, M, job, range, k, s, n);
      }
      SilentOne(S, Drops(job), k, s, n, r);
    }
  }

  /** The newest visible entry was dropped: then it is an obsolete deletion. */
  lemma DroppedNewest(V: set<Placed>, M: iset<Entry>, job: Job, k: UserKey, s: nat, n: Entry)
    requires FilesOk(job.base) && job.inputs <= V && job.floor <= s
    requires Newest(M + Content(V), k, s, n) && n in Drops(job)
    ensures n in Content(job.inputs) && Obsolete(job, n) && Newest(M + Content(V), k, job.floor, n)
  {
    var S := M + Content(V);
    if Shadowed(Content(job.inputs), n, job.floor) {
      var e :| e in Content(job.inputs) && e.key.user == n.key.user && n.key.seqno < e.key.seqno <= job.floor;
      InputContent(V, job, e);
      assert e in S && Visible(e, k, s);
    }
  }

  lemma SilentDrop(V: set<Placed>, M: iset<Entry>, job: Job, range: Range, k: UserKey, s: nat, n: Entry)
    requires TreeOk(V) && Chosen(V, job, range) && job.base == V
    requires Unique(M + Content(V)) && Newer(M, Content(V)) && job.floor <= s
    requires forall d, g :: !Resurrects(V, M, job, d, g)
    requires Newest(M + Content(V), k, s, n) && n in Drops(job)
    ensures n.key.kind.Deletion?
    ensures forall e :: Newest(M + Content(V) - Drops(job), k, s, e) ==> e.key.kind.Deletion?
  {
    var S, D := M + Content(V), Drops(job);
    DroppedNewest(V, M, job, k, s, n);
    forall e | Newest(S - D, k, s, e) ensures e.key.kind.Deletion? {
      var g := NewestSurvivor(V, M, job, range, k, s, n, e);
      assert !Resurrects(V, M, job, n, g);
    }
  }

  /** The newest survivor is the first entry of the first continuing file. */
  lemma NewestSurvivor(V: set<Placed>, M: iset<Entry>, job: Job, range: Range, k: UserKey, s: nat, n: Entry, e: Entry)
      returns (g: Placed)
    requires TreeOk(V) && Chosen(V, job, range) && job.base == V
    requires Unique(M + Content(V)) && Newer(M, Content(V))
    requires n in Content(job.inputs) && Obsolete(job, n) && Newest(M + Content(V), k, s, n)
    requires Newest(M + Content(V) - Drops(job), k, s, e)
    ensures FirstContinues(V, job, n, g) && g.file.entries[0] == e
  {
    var S, D := M + Content(V), Drops(job);
    g := SurvivorContinues(V, M, job, range, n, e);
    forall h | Continues(V, job, n, h) ensures h.file.entries[0].key.seqno <= e.key.seqno {
      FirstSurvives(V, M, job, n, h);
      assert h.file.entries[0] in S - D && Visible(h.file.entries[0], k, s);
    }
    FirstSurvives(V, M, job, n, g);
    assert SameNumber(g.file.entries[0], e);
  }

  /** A left-out file loses nothing. */
  lemma FirstSurvives(V: set<Placed>, M: iset<Entry>, job: Job, d: Entry, h: Placed)
    requires TreeOk(V) && FilesOk(job.base) && job.inputs <= V && Continues(V, job, d, h)
    ensures h.file.entries[0] in Content(V) && h.file.entries[0] !in Drops(job)
  {
    var e := h.file.entries[0];
    InContent(V, h, e);
    if e in Drops(job) {
      var f :| f in job.inputs && e in f.file.entries;
      StoredOnce(V, h, f, e);
    }
  }

  /** In the failing case, the oldest live snapshot sees a deleted value come back. */
  lemma Resurrection(V: set<Placed>, M: iset<Entry>, job: Job, range: Range, d: Entry, g: Placed)
    requires TreeOk(V) && Chosen(V, job, range) && job.base == V
    requires Unique(M + Content(V)) && Newer(M, Content(V)) && Resurrects(V, M, job, d, g)
    ensures Answers(M + Content(V), d.key.user, job.floor, None)
    ensures Answers(M + Content(V) - Drops(job), d.key.user, job.floor, Some(g.file.entries[0].value))
  {
    var S, D, k := M + Content(V), Drops(job), d.key.user;
    OnlyOneNewest(S, k, job.floor, d);
    FirstSurvives(V, M, job, d, g);
    var first := g.file.entries[0];
    assert first in S - D && Visible(first, k, job.floor);
    var e := NewestExists(S - D, k, job.floor, first);
    var h := NewestSurvivor(V, M, job, range, k, job.floor, d, e);
    FirstSurvives(V, M, job, d, h);
    assert SameNumber(first, e);
  }

  lemma SurvivingContent(V: set<Placed>, M: iset<Entry>, job: Job, range: Range, O: set<Placed>)
    requires TreeOk(V) && Chosen(V, job, range) && job.base == V && OutputsOk(job, O) && Newer(M, Content(V))
    ensures M + Content(V - job.inputs + O) == M + Content(V) - Drops(job)
  {
    ChosenFits(V, job, range);
    InstalledContent(V, job, O);
    forall d | d in Drops(job) ensures d !in M {
      InputContent(V, job, d);
      assert !Later(d, d);
    }
  }

  lemma ResurrectionShows(V: set<Placed>, M: iset<Entry>, job: Job, range: Range, d: Entry, g: Placed, hi: nat)
    requires TreeOk(V) && Chosen(V, job, range) && job.base == V && job.floor <= hi
    requires Unique(M + Content(V)) && Newer(M, Content(V)) && Resurrects(V, M, job, d, g)
    ensures !SameReads(M + Content(V), M + Content(V) - Drops(job), job.floor, hi)
  {
    assert FilesOk(job.base);
    Resurrection(V, M, job, range, d, g);
    assert g.file.entries != [];
    DifferentAnswers(M + Content(V), M + Content(V) - Drops(job), d.key.user, job.floor, g.file.entries[0].value, hi);
  }

  lemma DifferentAnswers(S: iset<Entry>, T: iset<Entry>, k: UserKey, s: nat, v: string, hi: nat)
    requires Unique(S) && T <= S && Answers(S, k, s, None) && Answers(T, k, s, Some(v)) && s <= hi
    ensures !SameReads(S, T, s, hi)
  {
    SubsetUnique(T, S);
    var only := OneAnswer(T, k, s);
  }

  /**
   Compaction preserves every live snapshot's reads if and only if no dropped
   deletion is continued by a value in the output level.
   */
  lemma CompactionExact(V: set<Placed>, M: iset<Entry>, job: Job, range: Range, O: set<Placed>, hi: nat)
    requires TreeOk(V) && Chosen(V, job, range) && job.base == V && OutputsOk(job, O)
    requires Unique(M + Content(V)) && Newer(M, Content(V)) && job.floor <= hi
    ensures SameReads(M + Content(V), M + Content(V - job.inputs + O), job.floor, hi)
            <==> forall d, g :: !Resurrects(V, M, job, d, g)
  {
    assert FilesOk(job.base);
    hide TreeOk, Chosen, OutputsOk, Newer, Unique, Resurrects, Answers, Drops;
    SurvivingContent(V, M, job, range, O);
    if d, g :| Resurrects(V, M, job, d, g) {
      ResurrectionShows(V, M, job, range, d, g, hi);
    } else {
      forall k: UserKey, s: nat, r | job.floor <= s <= hi
        ensures Answers(M + Content(V), k, s, r) <==> Answers(M + Content(V) - Drops(job), k, s, r)
      {
        NoResurrection(V, M, job, range, k, s, r);
      }
    }
  }

  // --- the same whatever a crash leaves of the memtables ----------------------------------

  /** No live snapshot that also reads `S` notices what the job drops. */
  ghost predicate DropsUnseen(V: set<Placed>, S: iset<Entry>, job: Job)
    requires FilesOk(job.base)
  {
    SameReads(S + Content(V), S + (Content(V) - Drops(job)), job.floor, MAX_SEQUENCE)
  }

  /** No deleted value comes back under `S`. */
  ghost predicate NoneReturns(V: set<Placed>, S: iset<Entry>, job: Job)
    requires FilesOk(job.base)
  {
    forall d, g :: !Resurrects(V, S, job, d, g)
  }

  /** What the job drops is not among later operations. */
  lemma DropsBelow(V: set<Placed>, S: iset<Entry>, job: Job)
    requires FilesOk(job.base) && job.inputs <= V && Newer(S, Content(V))
    ensures S + (Content(V) - Drops(job)) == S + Content(V) - Drops(job)
  {
    forall d | d in Drops(job) ensures d !in S {
      InputContent(V, job, d);
      assert !Later(d, d);
    }
  }

  lemma DropsUnseenExact(V: set<Placed>, S: iset<Entry>, job: Job, range: Range)
    requires TreeOk(V) && Chosen(V, job, range) && job.base == V && job.floor <= MAX_SEQUENCE
    requires Unique(S + Content(V)) && Newer(S, Content(V))
    ensures FilesOk(job.base) && (DropsUnseen(V, S, job) <==> NoneReturns(V, S, job))
  {
    assert FilesOk(job.base);
    DropsBelow(V, S, job);
    hide TreeOk, Chosen, Unique, Resurrects, Answers, Drops, Newer;
    if d, g :| Resurrects(V, S, job, d, g) {
      ResurrectionShows(V, S, job, range, d, g, MAX_SEQUENCE);
    } else {
      forall k: UserKey, s: nat, r | job.floor <= s <= MAX_SEQUENCE
        ensures Answers(S + Content(V), k, s, r) <==> Answers(S + (Content(V) - Drops(job)), k, s, r)
      {
        NoResurrection(V, S, job, range, k, s, r);
      }
    }
  }

  /** Whatever is left of the memtables, at least `S`, no read changes. */
  ghost predicate UnseenWhateverIsLeft(V: set<Placed>, S: iset<Entry>, M: iset<Entry>, job: Job)
    requires FilesOk(job.base)
  {
    forall L: iset<Entry> :: S <= L <= M ==> DropsUnseen(V, L, job)
  }

  /**
   Let `M` be what the memtables hold and `S` the part of it that no crash can take.  A
   compaction preserves every read, also after every crash, if and only if no deleted
   value comes back under `S` alone.
   */
  lemma GuardExact(V: set<Placed>, S: iset<Entry>, M: iset<Entry>, job: Job, range: Range)
    requires TreeOk(V) && Chosen(V, job, range) && job.base == V && job.floor <= MAX_SEQUENCE && S <= M
    requires Unique(M + Content(V)) && Newer(M, Content(V))
    ensures FilesOk(job.base) && (UnseenWhateverIsLeft(V, S, M, job) <==> NoneReturns(V, S, job))
  {
    assert FilesOk(job.base) && job.inputs <= V;
    hide TreeOk, Chosen, Unique, DropsUnseen, NoneReturns;
    forall L: iset<Entry> | S <= L <= M
      ensures FilesOk(job.base) && (DropsUnseen(V, L, job) <==> NoneReturns(V, L, job))
    {
      SubsetUnique(L + Content(V), M + Content(V));
      DropsUnseenExact(V, L, job, range);
    }
    forall L: iset<Entry> | S <= L <= M && NoneReturns(V, S, job) ensures NoneReturns(V, L, job) {
      FewerReturn(V, S, L, job);
    }
    assert S <= S <= M;
  }

  /** More later operations bring back nothing more. */
  lemma FewerReturn(V: set<Placed>, S: iset<Entry>, L: iset<Entry>, job: Job)
    requires FilesOk(job.base) && job.inputs <= V && S <= L && NoneReturns(V, S, job)
    ensures NoneReturns(V, L, job)
  {
    forall d, g ensures !Resurrects(V, L, job, d, g) {
      assert !Resurrects(V, S, job, d, g);
      if d in Content(job.inputs) {
        InputContent(V, job, d);
      }
    }
  }

  /**
   The boundary condition: no file of the next level that was left out continues the
   user key in which a chosen one ends.  AddBoundaryInputs sees to this for
   `inputs_[0]`; the code does not see to it for `inputs_[1]`.
   */
  ghost predicate BoundaryClean(V: set<Placed>, job: Job)
    requires FilesOk(V)
  {
    forall g, f :: g in V && g !in job.inputs && f in V && f in job.inputs && g.level == f.level == job.level + 1
      ==> !IsBoundary(g.file, f.file.largest)
  }

  /** It is enough for no value to come back. */
  lemma CleanNeverReturns(V: set<Placed>, S: iset<Entry>, job: Job, range: Range)
    requires TreeOk(V) && Chosen(V, job, range) && BoundaryClean(V, job) && FilesOk(job.base)
    ensures NoneReturns(V, S, job)
  {
    forall d, g ensures !Resurrects(V, S, job, d, g) {
      if d in Content(job.inputs) {
        CleanNotContinued(V, job, range, d, g);
      }
    }
  }

  lemma CleanNotContinued(V: set<Placed>, job: Job, range: Range, d: Entry, g: Placed)
    requires TreeOk(V) && Chosen(V, job, range) && BoundaryClean(V, job) && d in Content(job.inputs)
    ensures !Continues(V, job, d, g)
  {
    var f :| f in job.inputs && d in f.file.entries;
    assert f in V && (g in V && g != f ==> PairOk(f, g));
    InRange(f.file, d);
    if Continues(V, job, d, g) {
      InRange(g.file, g.file.entries[0]);
    }
  }

  // --- a case in which the deleted value comes back ----------------------------------------

  function At(user: UserKey, seqno: nat, kind: Kind): Entry {
    Entry(InternalKey(user, seqno, kind), "v")
  }

  function Table(number: nat, es: seq<Entry>): File
    requires es != []
  {
    File(number, 1, es[0].key, es[|es| - 1].key, es)
  }

  /**
   Level 2 holds an operation on 1.0; level 3 a deletion of 2.0 in one file (`g`) and
   the value it deletes in the next (`h`).
   */
  function SplitTree(): (set<Placed>, Placed, Placed, Placed) {
    var f := Placed(2, Table(11, [At(1.0, 5, Value)]));
    var g := Placed(3, Table(8, [At(1.0, 2, Value), At(2.0, 4, Deletion)]));
    var h := Placed(3, Table(9, [At(2.0, 3, Value)]));
    ({f, g, h}, f, g, h)
  }

  lemma SplitTreeOk()
    ensures var (V, f, g, h) := SplitTree();
            TreeOk(V) && Chosen(V, Job(2, {f, g}, V, 5), Range(Some(1.0), Some(1.0)))
  {
    var (V, f, g, h) := SplitTree();
    assert FilesOk(V);
    SplitPairs(f, g, h);
  }

  lemma SplitPairs(f: Placed, g: Placed, h: Placed)
    requires SplitTree() == ({f, g, h}, f, g, h)
    ensures PairOk(f, g) && PairOk(f, h) && PairOk(g, h) && PairOk(g, f) && PairOk(h, f) && PairOk(h, g)
  {
  }

  lemma SplitContent(V: set<Placed>, f: Placed, g: Placed, h: Placed, a: Entry, b: Entry, d: Entry, v: Entry)
    requires V == {f, g, h} && f.file.entries == [a] && g.file.entries == [b, d] && h.file.entries == [v]
    ensures Content(V) == iset{a, b, d, v}
  {
    assert forall e :: Holds(V, e) <==> e in f.file.entries || e in g.file.entries || e in h.file.entries;
  }

  lemma SplitReads(S: iset<Entry>, a: Entry, b: Entry, d: Entry, v: Entry)
    requires S == iset{a, b, d, v} && a.key.user == b.key.user != d.key.user == v.key.user
    requires a.key.seqno == 5 && b.key.seqno == 2 && d.key.seqno == 4 && v.key.seqno == 3
    ensures Unique(S) && Newest(S, d.key.user, 5, d)
  {
  }

  lemma SplitContinues(V: set<Placed>, job: Job, f: Placed, g: Placed, h: Placed, d: Entry)
    requires V == {f, g, h} && job == Job(2, {f, g}, V, 5) && f.level == 2 && g.level == 3 && h.level == 3 && g != h
    requires FilesOk(V) && h.file.entries[0].key.user == d.key.user && h.file.entries[0].key.seqno < d.key.seqno
    requires d in g.file.entries && d.key.kind.Deletion? && d.key.seqno <= 5
    ensures d in Content(job.inputs) && Obsolete(job, d) && FirstContinues(V, job, d, h)
  {
    InContent(job.inputs, g, d);
    assert forall x :: Continues(V, job, d, x) ==> x == h;
  }

  /**
   Compacting level 2 of that tree takes the first file of level 3, which its range
   meets, and leaves the second.  The deletion is dropped, and 2.0 reads as its old
   value again.
   */
  lemma DeletedValueReturns()
    ensures var (V, f, g, h) := SplitTree();
            var job := Job(2, {f, g}, V, 5);
            && TreeOk(V) && Chosen(V, job, Range(Some(1.0), Some(1.0)))
            && Answers(Content(V), 2.0, 5, None)
            && Answers(Content(V) - Drops(job), 2.0, 5, Some("v"))
  {
    var (V, f, g, h) := SplitTree();
    SplitTreeOk();
    assert FilesOk(V);
    Returns(V, Job(2, {f, g}, V, 5), f, g, h, At(1.0, 5, Value), At(1.0, 2, Value), At(2.0, 4, Deletion),
            At(2.0, 3, Value));
  }

  lemma Returns(V: set<Placed>, job: Job, f: Placed, g: Placed, h: Placed, a: Entry, b: Entry, d: Entry, v: Entry)
    requires V == {f, g, h} && f.file.entries == [a] && g.file.entries == [b, d] && h.file.entries == [v]
    requires job == Job(2, {f, g}, V, 5) && f.level == 2 && g.level == 3 && h.level == 3 && g != h && FilesOk(V)
    requires TreeOk(V)
    requires a.key.user == b.key.user != d.key.user == v.key.user && d.key.kind.Deletion? && v.key.kind.Value?
    requires a.key.seqno == 5 && b.key.seqno == 2 && d.key.seqno == 4 && v.key.seqno == 3
    requires Chosen(V, job, Range(Some(a.key.user), Some(a.key.user)))
    ensures Answers(Content(V), d.key.user, 5, None) && Answers(Content(V) - Drops(job), d.key.user, 5, Some(v.value))
  {
    hide TreeOk, FilesOk, Chosen, Unique, Newest, Answers, Drops, Content, Obsolete, FirstContinues;
    SplitContent(V, f, g, h, a, b, d, v);
    SplitReads(Content(V), a, b, d, v);
    assert iset{} + Content(V) == Content(V);
    assert d == g.file.entries[1] && v == h.file.entries[0];
    SplitContinues(V, job, f, g, h, d);
    Resurrection(V, iset{}, job, Range(Some(a.key.user), Some(a.key.user)), d, h);
  }

  // --- flushing into a gap between the inputs ----------------------------------------------

  /** Some file no deeper than `level` has `x` in its range. */
  ghost predicate SomeFileSpans(V: set<Placed>, level: nat, x: UserKey)
    requires FilesOk(V)
  {
    exists f :: f in V && f.level <= level && Spans(f.file, x)
  }

  ghost predicate InHull(job: Job, x: UserKey) {
    exists a, b :: a in job.inputs && b in job.inputs && a.file.smallest.user <= x <= b.file.largest.user
  }

  /** A table flushed into the version, with operations on keys in `K`, at the level picked for it. */
  ghost predicate FlushedInto(V: set<Placed>, P: Placed, K: iset<UserKey>, maxFileSize: nat)
    requires FilesOk(V)
  {
    FlushOk(V, P) && Picks(V, P, maxFileSize) && forall e :: e in P.file.entries ==> e.key.user in K
  }

  /** Tables flushed one after the other. */
  ghost predicate FlushedOn(V: set<Placed>, Ps: seq<Placed>, K: iset<UserKey>, maxFileSize: nat)
    decreases Ps
  {
    Ps != [] ==>
      FilesOk(V) && FlushedInto(V, Ps[0], K, maxFileSize) && FlushedOn(V + {Ps[0]}, Ps[1..], K, maxFileSize)
  }

  /** However many tables are flushed meanwhile, those in the output level stay clear of the job. */
  ghost predicate EveryFlushMisses(V: set<Placed>, job: Job, K: iset<UserKey>, maxFileSize: nat) {
    forall Ps: seq<Placed>, P: Placed {:trigger P in Ps, FlushedOn(V, Ps, K, maxFileSize)} ::
      FlushedOn(V, Ps, K, maxFileSize) && P in Ps && P.level == job.level + 1 && FileOk(P.file) ==>
        Aside(P.file, Content(job.inputs))
  }

  /**
   `x` is between the inputs, no file down to the output level has it in its range, and
   the files below that have are not too large for a flush to come that deep.
   */
  ghost predicate Opening(V: set<Placed>, job: Job, maxFileSize: nat, x: UserKey)
    requires FilesOk(V)
  {
    && InHull(job, x) && !SomeFileSpans(V, job.level + 1, x)
    && Light(V, job.level + 2, Range(Some(x), Some(x)), MaxGrandParentOverlapBytes(maxFileSize))
  }

  // --- without an opening ---

  lemma OutsideHull(V: set<Placed>, job: Job, P: Placed, a: Placed, b: Placed)
    requires FilesOk(V) && FileOk(P.file) && PlaceOk(V, P) && P.level == job.level + 1
    requires !InHull(job, P.file.smallest.user)
    requires a in job.inputs && b in job.inputs && job.inputs <= V && a.level <= job.level + 1
    requires b.level <= job.level + 1
    ensures a.file.largest.user < P.file.smallest.user <==> b.file.largest.user < P.file.smallest.user
    ensures a.file.largest.user < P.file.smallest.user || P.file.largest.user < a.file.smallest.user
  {
    assert !Meets(a.file, P.file) && !Meets(b.file, P.file);
  }

  lemma OutsideMisses(V: set<Placed>, job: Job, P: Placed)
    requires FilesOk(V) && FileOk(P.file) && PlaceOk(V, P) && P.level == job.level + 1
    requires job.inputs <= V && (forall p :: p in job.inputs ==> p.level <= job.level + 1)
    requires !InHull(job, P.file.smallest.user)
    ensures Aside(P.file, Content(job.inputs))
  {
    if f0 :| f0 in job.inputs {
      forall d | d in Content(job.inputs)
        ensures if f0.file.largest.user < P.file.smallest.user then Before(d.key, P.file.smallest)
                else Before(P.file.largest, d.key)
      {
        var f :| f in job.inputs && d in f.file.entries;
        InRange(f.file, d);
        OutsideHull(V, job, P, f0, f);
        OutsideHull(V, job, P, f, f0);
      }
    }
  }

  /** Those of the files that level `l` of `V` has over `r`. */
  ghost function Among(fs: seq<File>, V: set<Placed>, l: nat, r: Range): (a: seq<File>)
    ensures forall f :: f in a <==> f in fs && Placed(l, f) in V && Overlaps(f, r)
  {
    if fs == [] then []
    else
      assert fs == [fs[0]] + fs[1..];
      (if Placed(l, fs[0]) in V && Overlaps(fs[0], r) then [fs[0]] else []) + Among(fs[1..], V, l, r)
  }

  lemma {:induction false} AmongDistinct(fs: seq<File>, V: set<Placed>, l: nat, r: Range)
    requires Distinct(fs)
    ensures Distinct(Among(fs, V, l, r))
  {
    if fs != [] {
      AmongDistinct(fs[1..], V, l, r);
      assert fs[0] !in fs[1..];
    }
  }

  /** Fewer files over a smaller range are not larger. */
  lemma LightShrinks(V: set<Placed>, V': set<Placed>, l: nat, r: Range, r': Range, limit: nat)
    requires V <= V' && Light(V', l, r', limit) && forall f :: Overlaps(f, r) ==> Overlaps(f, r')
    ensures Light(V, l, r, limit)
  {
    var fs :| ListsOverlaps(fs, V', l, r') && TotalFileSize(fs) <= limit;
    var a := Among(fs, V, l, r);
    AmongDistinct(fs, V, l, r);
    SmallerTotal(a, fs);
    assert ListsOverlaps(a, V, l, r);
  }

  /** A table in the hull would mean an opening, at its first key, from the beginning. */
  lemma OpeningThen(V: set<Placed>, V': set<Placed>, job: Job, P: Placed, maxFileSize: nat)
    requires FilesOk(V) && FilesOk(V') && V <= V' && FileOk(P.file) && Picks(V', P, maxFileSize)
    requires P.level == job.level + 1 && InHull(job, P.file.smallest.user)
    ensures Opening(V, job, maxFileSize, P.file.smallest.user)
  {
    var x := P.file.smallest.user;
    PickedPlaceOk(V', P, maxFileSize);
    forall f | f in V && f.level <= P.level ensures !Spans(f.file, x) {
      assert !Meets(f.file, P.file);
    }
    assert Descends(V', UserRange(P.file), maxFileSize, job.level);
    hide Light;
    LightShrinks(V, V', job.level + 2, Range(Some(x), Some(x)), UserRange(P.file),
                 MaxGrandParentOverlapBytes(maxFileSize));
  }

  lemma {:induction false} NoOpeningMisses(V: set<Placed>, V': set<Placed>, job: Job, K: iset<UserKey>,
                                           maxFileSize: nat, Ps: seq<Placed>, P: Placed)
    requires FilesOk(V) && V <= V' && job.inputs <= V && forall p :: p in job.inputs ==> p.level <= job.level + 1
    requires forall x :: x in K ==> !Opening(V, job, maxFileSize, x)
    requires FlushedOn(V', Ps, K, maxFileSize) && P in Ps && P.level == job.level + 1 && FileOk(P.file)
    ensures Aside(P.file, Content(job.inputs))
    decreases Ps
  {
    hide Aside, Opening, Picks, FilesOk, FileOk, InHull, Content;
    if P == Ps[0] {
      FirstKeyIn(V', P, K, maxFileSize);
      if InHull(job, P.file.smallest.user) {
        OpeningThen(V, V', job, P, maxFileSize);
        assert false;
      }
      OutsideMisses(V', job, P);
    } else {
      NoOpeningMisses(V, V' + {Ps[0]}, job, K, maxFileSize, Ps[1..], P);
    }
  }

  lemma FirstKeyIn(V: set<Placed>, P: Placed, K: iset<UserKey>, maxFileSize: nat)
    requires FilesOk(V) && FlushedInto(V, P, K, maxFileSize)
    ensures FileOk(P.file) && P.file.smallest.user in K
  {
    assert P.file.entries[0] in P.file.entries;
  }

  // --- through an opening ---

  /** A table of one operation on `x`. */
  ghost function Intruder(level: nat, x: UserKey, number: nat, seqno: nat): Placed {
    Placed(level, Table(number, [At(x, seqno, Value)]))
  }

  lemma IntruderFlushes(V: set<Placed>, P: Placed, level: nat, x: UserKey, number: nat, seqno: nat)
    requires FilesOk(V) && level <= MAX_MEM_COMPACT_LEVEL && !SomeFileSpans(V, level, x) && seqno <= MAX_SEQUENCE
    requires P == Intruder(level, x, number, seqno)
    requires forall e :: e in Content(V) ==> e.key.seqno < seqno
    requires forall q :: q in V ==> q.file.number < number
    ensures FlushOk(V, P)
  {
    assert FileOk(P.file);
    forall q | q in V && q.level <= level ensures !Meets(q.file, P.file) {
      assert !Spans(q.file, x);
    }
    hide Content, FileOk, FilesOk;
  }

  lemma BothSides(f: File, S: iset<Entry>, low: Entry, high: Entry)
    requires FileOk(f) && low in S && high in S && low.key.user < f.smallest.user && f.largest.user < high.key.user
    ensures !Aside(f, S)
  {
    assert !Before(f.largest, low.key) && !Before(high.key, f.smallest);
  }

  /** Inputs begin before `x` and end after it. */
  lemma HullEnds(V: set<Placed>, job: Job, x: UserKey) returns (low: Entry, high: Entry)
    requires FilesOk(V) && job.inputs <= V && (forall p :: p in job.inputs ==> p.level <= job.level + 1)
    requires InHull(job, x) && !SomeFileSpans(V, job.level + 1, x)
    ensures low in Content(job.inputs) && high in Content(job.inputs) && low.key.user < x < high.key.user
  {
    var a, b :| a in job.inputs && b in job.inputs && a.file.smallest.user <= x <= b.file.largest.user;
    assert !Spans(a.file, x) && !Spans(b.file, x);
    low, high := a.file.entries[0], b.file.entries[|b.file.entries| - 1];
    InContent(job.inputs, a, low);
    InContent(job.inputs, b, high);
  }

  lemma {:induction false} NumberAbove(V: set<Placed>) returns (n: nat)
    ensures forall q :: q in V ==> q.file.number < n
  {
    n := 0;
    var left := V;
    while left != {}
      invariant left <= V
      invariant forall q :: q in V - left ==> q.file.number < n
      decreases |left|
    {
      var q :| q in left;
      left := left - {q};
      n := if q.file.number < n then n else q.file.number + 1;
    }
  }

  /** Nothing of a level overlaps, so nothing is too large. */
  lemma NothingIsLight(V: set<Placed>, l: nat, r: Range, limit: nat)
    requires !LevelMeets(V, l, r)
    ensures Light(V, l, r, limit)
  {
    var none: seq<File> := [];
    assert ListsOverlaps(none, V, l, r) by {
      forall f | Placed(l, f) in V ensures !Overlaps(f, r) {
        assert Placed(l, f).level == l;
      }
    }
  }

  /** No file down to `level` has `x` in its range. */
  lemma NoneMeets(V: set<Placed>, level: nat, x: UserKey, l: nat)
    requires FilesOk(V) && !SomeFileSpans(V, level, x) && l <= level
    ensures !LevelMeets(V, l, Range(Some(x), Some(x)))
  {
    forall q | q in V && q.level == l ensures !Overlaps(q.file, Range(Some(x), Some(x))) {
      assert !Spans(q.file, x);
    }
  }

  /** A table on `x` alone is picked for the output level, or else for a deeper one. */
  lemma OpeningPicks(V: set<Placed>, job: Job, maxFileSize: nat, x: UserKey, number: nat, seqno: nat)
    requires FilesOk(V) && job.level + 1 <= MAX_MEM_COMPACT_LEVEL && Opening(V, job, maxFileSize, x)
    ensures || Picks(V, Intruder(job.level + 1, x, number, seqno), maxFileSize)
            || (&& job.level == 0 && Descends(V, Range(Some(x), Some(x)), maxFileSize, 1)
                && Picks(V, Intruder(2, x, number, seqno), maxFileSize))
  {
    var r, limit := Range(Some(x), Some(x)), MaxGrandParentOverlapBytes(maxFileSize);
    assert UserRange(Intruder(1, x, number, seqno).file) == r == UserRange(Intruder(2, x, number, seqno).file);
    NoneMeets(V, job.level + 1, x, 0);
    NoneMeets(V, job.level + 1, x, 1);
    if job.level == 1 {
      NoneMeets(V, job.level + 1, x, 2);
      NothingIsLight(V, 2, r, limit);
    }
    hide Light, LevelMeets, Opening, Intruder, UserRange;
    assert Descends(V, r, maxFileSize, 0);
  }

  /** After a table on `x` has gone to level 2, the next one stops at level 1. */
  lemma NextStops(V: set<Placed>, Q: Placed, P: Placed, x: UserKey, number: nat, seqno: nat, maxFileSize: nat)
    requires FilesOk(V) && !SomeFileSpans(V, 1, x) && !LevelMeets(V, 2, Range(Some(x), Some(x))) && maxFileSize > 0
    requires Q == Intruder(2, x, number, seqno) && P == Intruder(1, x, number + 1, seqno + 1)
    ensures Picks(V + {Q}, P, maxFileSize)
  {
    var V', r, limit := V + {Q}, Range(Some(x), Some(x)), MaxGrandParentOverlapBytes(maxFileSize);
    NoneMeets(V, 1, x, 0);
    NoneMeets(V, 1, x, 1);
    assert !LevelMeets(V', 0, r) && !LevelMeets(V', 1, r);
    assert LevelMeets(V', 2, r) by {
      assert Overlaps(Q.file, r);
    }
    assert Light(V', 2, r, limit) by {
      assert TotalFileSize([Q.file]) == 1;
      OnlyOne(V, Q, r);
    }
    hide LevelMeets, Light;
    assert UserRange(P.file) == r && Descends(V', r, maxFileSize, 0) && !Descends(V', r, maxFileSize, 1);
  }

  lemma OnlyOne(V: set<Placed>, Q: Placed, r: Range)
    requires !LevelMeets(V, Q.level, r) && Overlaps(Q.file, r)
    ensures ListsOverlaps([Q.file], V + {Q}, Q.level, r)
  {
    forall f | Placed(Q.level, f) in V ensures !Overlaps(f, r) {
      assert Placed(Q.level, f).level == Q.level;
    }
    assert Placed(Q.level, Q.file) == Q;
  }

  /** One table, or two, and the last lands between the inputs. */
  lemma OpeningAdmits(V: set<Placed>, job: Job, K: iset<UserKey>, maxFileSize: nat, x: UserKey)
      returns (Ps: seq<Placed>, P: Placed)
    requires FilesOk(V) && job.inputs <= V && forall p :: p in job.inputs ==> p.level <= job.level + 1
    requires job.level + 1 <= MAX_MEM_COMPACT_LEVEL && maxFileSize > 0 && x in K && Opening(V, job, maxFileSize, x)
    requires forall e :: e in Content(V) ==> e.key.seqno + 1 < MAX_SEQUENCE
    ensures FlushedOn(V, Ps, K, maxFileSize) && P in Ps && P.level == job.level + 1 && FileOk(P.file)
    ensures !Aside(P.file, Content(job.inputs))
  {
    hide Picks, Descends, Aside, Content, InHull, SomeFileSpans, LevelMeets, FlushOk, FilesOk, FileOk;
    var number := NumberAbove(V);
    var level := job.level + 1;
    P := Intruder(level, x, number, MAX_SEQUENCE - 1);
    Ps := [P];
    OpeningPicks(V, job, maxFileSize, x, number, MAX_SEQUENCE - 1);
    if Picks(V, P, maxFileSize) {
      IntruderFlushes(V, P, level, x, number, MAX_SEQUENCE - 1);
      OneFlushed(V, P, K, maxFileSize);
    } else {
      P := Intruder(1, x, number + 1, MAX_SEQUENCE);
      Ps := TwoFlushed(V, P, K, maxFileSize, x, number);
    }
    var low, high := HullEnds(V, job, x);
    BothSides(P.file, Content(job.inputs), low, high);
  }

  lemma OneFlushed(V: set<Placed>, P: Placed, K: iset<UserKey>, maxFileSize: nat)
    requires FilesOk(V) && FlushOk(V, P) && Picks(V, P, maxFileSize) && |P.file.entries| == 1
    requires P.file.entries[0].key.user in K
    ensures FlushedOn(V, [P], K, maxFileSize) && FlushedInto(V, P, K, maxFileSize) && FileOk(P.file)
  {
    hide Picks;
    assert [P][1..] == [] && FlushedOn(V + {P}, [], K, maxFileSize);
  }

  lemma TwoFlushed(V: set<Placed>, P: Placed, K: iset<UserKey>, maxFileSize: nat, x: UserKey, number: nat)
      returns (Ps: seq<Placed>)
    requires FilesOk(V) && maxFileSize > 0 && x in K && !SomeFileSpans(V, 1, x)
    requires P == Intruder(1, x, number + 1, MAX_SEQUENCE)
    requires Descends(V, Range(Some(x), Some(x)), maxFileSize, 1)
    requires Picks(V, Intruder(2, x, number, MAX_SEQUENCE - 1), maxFileSize)
    requires forall e :: e in Content(V) ==> e.key.seqno + 1 < MAX_SEQUENCE
    requires forall q :: q in V ==> q.file.number < number
    ensures FlushedOn(V, Ps, K, maxFileSize) && P in Ps && FileOk(P.file)
  {
    var Q := Intruder(2, x, number, MAX_SEQUENCE - 1);
    hide Picks, Content, FlushOk, FilesOk, FileOk, SomeFileSpans, Light;
    Ps := [Q, P];
    NoneSpans(V, x, maxFileSize);
    IntruderFlushes(V, Q, 2, x, number, MAX_SEQUENCE - 1);
    OneFlushed(V, Q, K, maxFileSize);
    NextStops(V, Q, P, x, number, MAX_SEQUENCE - 1, maxFileSize);
    StillFlushes(V, Q, P, x, number);
    OneFlushed(V + {Q}, P, K, maxFileSize);
    assert Ps[1..] == [P];
  }

  lemma NoneSpans(V: set<Placed>, x: UserKey, maxFileSize: nat)
    requires FilesOk(V) && !SomeFileSpans(V, 1, x) && Descends(V, Range(Some(x), Some(x)), maxFileSize, 1)
    ensures !SomeFileSpans(V, 2, x)
  {
    forall f | f in V && f.level <= 2 ensures !Spans(f.file, x) {
      assert f.level == 2 ==> !Overlaps(f.file, Range(Some(x), Some(x)));
    }
  }

  lemma StillFlushes(V: set<Placed>, Q: Placed, P: Placed, x: UserKey, number: nat)
    requires FilesOk(V) && !SomeFileSpans(V, 1, x) && FlushOk(V, Q)
    requires Q == Intruder(2, x, number, MAX_SEQUENCE - 1) && P == Intruder(1, x, number + 1, MAX_SEQUENCE)
    requires forall e :: e in Content(V) ==> e.key.seqno + 1 < MAX_SEQUENCE
    requires forall q :: q in V ==> q.file.number < number
    ensures FilesOk(V + {Q}) && FlushOk(V + {Q}, P)
  {
    var V' := V + {Q};
    assert FilesOk(V');
    forall e | e in Content(V') ensures e.key.seqno < MAX_SEQUENCE {
      assert e in Content(V) || e in Q.file.entries;
    }
    assert !SomeFileSpans(V', 1, x);
    IntruderFlushes(V', P, 1, x, number + 1, MAX_SEQUENCE);
  }

  lemma InputLevels(V: set<Placed>, job: Job)
    requires FilesOk(V) && Fits(V, job)
    ensures job.inputs <= V && forall p :: p in job.inputs ==> p.level <= job.level + 1
  {
  }

  /**
   For a job whose output level a flush can reach, and tables over any set of user keys:
   however many tables are flushed in mid-compaction, each to the level picked for it, the
   job can still be installed, if and only if none of these keys is an opening.
   */
  lemma FlushExact(V: set<Placed>, job: Job, K: iset<UserKey>, maxFileSize: nat)
    requires FilesOk(V) && Fits(V, job) && job.level + 1 <= MAX_MEM_COMPACT_LEVEL && maxFileSize > 0
    requires forall e :: e in Content(V) ==> e.key.seqno + 1 < MAX_SEQUENCE
    ensures EveryFlushMisses(V, job, K, maxFileSize) <==> forall x :: x in K ==> !Opening(V, job, maxFileSize, x)
  {
    hide FilesOk, FileOk, Aside, Content, Opening, FlushedOn, Fits;
    InputLevels(V, job);
    if x :| x in K && Opening(V, job, maxFileSize, x) {
      var Ps, P := OpeningAdmits(V, job, K, maxFileSize, x);
      assert P in Ps;
    } else {
      forall Ps: seq<Placed>, P: Placed
        | FlushedOn(V, Ps, K, maxFileSize) && P in Ps && P.level == job.level + 1 && FileOk(P.file)
        ensures Aside(P.file, Content(job.inputs))
      {
        NoOpeningMisses(V, V, job, K, maxFileSize, Ps, P);
      }
    }
  }
}
