/**
 What installing a compaction does to a version
 (DBImpl::InstallCompactionResults, DBImpl::BackgroundCompaction's trivial move,
 and the flush of a memtable, DBImpl::CompactMemTable).
 */
module Install {
  import opened Keys
  import opened Spec
  import opened Versions
  import opened Inputs
  import opened Selection

  /**
   A compaction under way: its level, its input files, the version it was set up
   from (`input_version_`) and `smallest_snapshot`.
   */
  datatype Job = Job(level: nat, inputs: set<Placed>, base: set<Placed>, floor: nat)

  ghost predicate FilesOk(V: set<Placed>) {
    forall p :: p in V ==> p.level < NUM_LEVELS && FileOk(p.file)
  }

  /** A file two or more levels below the input level has `u` in its user-key range. */
  ghost predicate CoveredBelow(V: set<Placed>, level: nat, u: UserKey)
    requires FilesOk(V)
  {
    exists q :: q in V && q.level >= level + 2 && Spans(q.file, u)
  }

  /** A deletion the loop may drop: old enough, and no deeper file covers its key. */
  ghost predicate Obsolete(job: Job, e: Entry)
    requires FilesOk(job.base)
  {
    e.key.kind.Deletion? && e.key.seqno <= job.floor && !CoveredBelow(job.base, job.level, e.key.user)
  }

  /** The entries the compaction loop drops. */
  ghost function Drops(job: Job): iset<Entry>
    requires FilesOk(job.base)
  {
    iset e | e in Content(job.inputs) && (Shadowed(Content(job.inputs), e, job.floor) || Obsolete(job, e))
  }

  /** Tables at the output level made of entries of the inputs. */
  ghost predicate OutputsFit(job: Job, O: set<Placed>) {
    && (forall p :: p in O ==> p.level == job.level + 1 && FileOk(p.file))
    && (forall p, q :: p in O && q in O && p != q ==> Apart(p.file, q.file) && p.file.number != q.file.number)
    && Content(O) <= Content(job.inputs)
  }

  /** The tables the loop wrote: everything it did not drop. */
  ghost predicate OutputsOk(job: Job, O: set<Placed>)
    requires FilesOk(job.base)
  {
    OutputsFit(job, O) && Content(O) == Content(job.inputs) - Drops(job)
  }

  /** The whole of `f` lies on one side of every entry of `S`. */
  ghost predicate Aside(f: File, S: iset<Entry>)
    requires FileOk(f)
  {
    || (forall e :: e in S ==> Before(f.largest, e.key))
    || (forall e :: e in S ==> Before(e.key, f.smallest))
  }

  /** What a version must satisfy for the job's results to fit into it. */
  ghost predicate Fits(V: set<Placed>, job: Job)
    requires FilesOk(V)
  {
    && job.level + 1 < NUM_LEVELS
    && job.inputs <= V
    && (forall p :: p in job.inputs ==> p.level == job.level || p.level == job.level + 1)
    && (forall g, f :: g in V && g !in job.inputs && g.level == job.level && f in job.inputs && f.level == job.level
          ==> Newer(Has(g.file), Has(f.file)))
    && (forall g :: g in V && g !in job.inputs && g.level == job.level + 1 ==> Aside(g.file, Content(job.inputs)))
  }

  // --- the tree invariant survives ---------------------------------------------

  lemma InContent(V: set<Placed>, p: Placed, e: Entry)
    requires p in V && e in p.file.entries
    ensures e in Content(V)
  {
  }

  /** An output file inherits recency from the inputs its entries come from. */
  lemma OutputOlder(V: set<Placed>, job: Job, O: set<Placed>, g: Placed, o: Placed)
    requires TreeOk(V) && Fits(V, job) && OutputsFit(job, O)
    requires g in V && g !in job.inputs && o in O && g.level <= job.level
    ensures Newer(Has(g.file), Has(o.file))
  {
    forall x, y | x in Has(g.file) && y in Has(o.file) && x.key.user == y.key.user
      ensures Later(x, y)
    {
      InContent(O, o, y);
      var f :| f in job.inputs && y in f.file.entries;
      assert f in V && f != g && PairOk(g, f);
      assert y in Has(f.file) && Later(x, y);
    }
  }

  lemma OutputNewer(V: set<Placed>, job: Job, O: set<Placed>, g: Placed, o: Placed)
    requires TreeOk(V) && Fits(V, job) && OutputsFit(job, O)
    requires g in V && o in O && g.level >= job.level + 2
    ensures Newer(Has(o.file), Has(g.file))
  {
    forall y, x | y in Has(o.file) && x in Has(g.file) && x.key.user == y.key.user
      ensures Later(y, x)
    {
      InContent(O, o, y);
      var f :| f in job.inputs && y in f.file.entries;
      assert f in V && f != g && PairOk(f, g);
      assert y in Has(f.file) && Later(y, x);
    }
  }

  lemma OutputApart(V: set<Placed>, job: Job, O: set<Placed>, g: Placed, o: Placed)
    requires TreeOk(V) && Fits(V, job) && OutputsFit(job, O)
    requires g in V && g !in job.inputs && g.level == job.level + 1 && o in O
    ensures Apart(g.file, o.file)
  {
    var first, last := o.file.entries[0], o.file.entries[|o.file.entries| - 1];
    InContent(O, o, first);
    InContent(O, o, last);
    assert Aside(g.file, Content(job.inputs));
  }

  ghost predicate FreshNumbers(V: set<Placed>, O: set<Placed>) {
    forall g, o :: g in V && o in O ==> g.file.number != o.file.number
  }

  /** Replacing the inputs by the outputs keeps levels disjoint and recency in search order. */
  lemma InstallKeepsTree(V: set<Placed>, job: Job, O: set<Placed>)
    requires TreeOk(V) && Fits(V, job) && OutputsFit(job, O)
    requires FreshNumbers(V - job.inputs, O)
    ensures TreeOk(V - job.inputs + O)
  {
    var V' := V - job.inputs + O;
    forall p, q | p in V' && q in V' && p != q
      ensures PairOk(p, q)
    {
      if p in O && q in O {
      } else if p in O {
        assert q in V && q !in job.inputs;
        PairInstalled(V, job, O, q, p);
      } else if q in O {
        assert p in V && p !in job.inputs;
        PairInstalled(V, job, O, p, q);
      }
    }
  }

  lemma PairInstalled(V: set<Placed>, job: Job, O: set<Placed>, g: Placed, o: Placed)
    requires TreeOk(V) && Fits(V, job) && OutputsFit(job, O)
    requires g in V && g !in job.inputs && o in O && g.file.number != o.file.number
    ensures PairOk(g, o) && PairOk(o, g)
  {
    if g.level <= job.level {
      OutputOlder(V, job, O, g, o);
    } else if g.level == job.level + 1 {
      OutputApart(V, job, O, g, o);
    } else {
      OutputNewer(V, job, O, g, o);
    }
  }

  // --- reads survive ----------------------------------------------------------------

  /** In a tree no entry is stored twice. */
  lemma StoredOnce(V: set<Placed>, p: Placed, q: Placed, e: Entry)
    requires TreeOk(V) && p in V && q in V && e in p.file.entries && e in q.file.entries
    ensures p == q
  {
    if p != q {
      assert PairOk(p, q) && PairOk(q, p) && !Later(e, e);
      InRange(p.file, e);
      InRange(q.file, e);
    }
  }

  lemma InstalledContent(V: set<Placed>, job: Job, O: set<Placed>)
    requires TreeOk(V) && FilesOk(job.base) && Fits(V, job) && OutputsOk(job, O)
    ensures Content(V - job.inputs + O) == Content(V) - Drops(job)
  {
    var V' := V - job.inputs + O;
    forall e ensures e in Content(V') <==> e in Content(V) && e !in Drops(job) {
      if e in Content(V') {
        var p :| p in V' && e in p.file.entries;
        if p in O {
          InContent(O, p, e);
          var f :| f in job.inputs && e in f.file.entries;
          InContent(V, f, e);
        } else if e in Drops(job) {
          var f :| f in job.inputs && e in f.file.entries;
          StoredOnce(V, p, f, e);
        }
      }
      if e in Content(V) && e !in Drops(job) {
        var p :| p in V && e in p.file.entries;
        if p in job.inputs {
          InContent(job.inputs, p, e);
          assert e in Content(O);
          var o :| o in O && e in o.file.entries;
          InContent(V', o, e);
        } else {
          InContent(V', p, e);
        }
      }
    }
  }

  lemma OlderIsShadowed(S: iset<Entry>, d: Entry, e: Entry, floor: nat)
    requires d in S && e.key.user == d.key.user && e.key.seqno < d.key.seqno <= floor
    ensures Shadowed(S, e, floor)
  {
  }

  lemma InputContent(V: set<Placed>, job: Job, e: Entry)
    requires job.inputs <= V && e in Content(job.inputs)
    ensures e in Content(V)
  {
    var f :| f in job.inputs && e in f.file.entries;
    InContent(V, f, e);
  }

  /** A trivial move: the file changes level, its entries stay. */
  lemma MoveKeepsTree(V: set<Placed>, job: Job, f: File)
    requires TreeOk(V) && Fits(V, job) && job.inputs == {Placed(job.level, f)}
    ensures TreeOk(V - job.inputs + {Placed(job.level + 1, f)})
    ensures Content(V - job.inputs + {Placed(job.level + 1, f)}) == Content(V)
  {
    var P, O := Placed(job.level, f), {Placed(job.level + 1, f)};
    var V' := V - job.inputs + O;
    assert forall e :: e in Content(O) <==> e in f.entries by {
      assert Placed(job.level + 1, f) in O;
    }
    assert forall e :: e in Content(job.inputs) <==> e in f.entries by {
      assert P in job.inputs;
    }
    forall g, o | g in V - job.inputs && o in O ensures g.file.number != o.file.number {
      assert PairOk(g, P);
    }
    InstallKeepsTree(V, job, O);
    forall e ensures e in Content(V') <==> e in Content(V) {
      if e in Content(V') {
        var p :| p in V' && e in p.file.entries;
        InContent(V, if p in O then P else p, e);
      }
      if e in Content(V) {
        var p :| p in V && e in p.file.entries;
        InContent(V', if p == P then Placed(job.level + 1, f) else p, e);
      }
    }
  }

  // --- from a selection of files to a job --------------------------------------------

  ghost function JobOf(V: set<Placed>, c: Compaction, floor: nat): Job {
    Job(c.level,
        (set f | f in c.inputs0 :: Placed(c.level, f)) + (set f | f in c.inputs1 :: Placed(c.level + 1, f)),
        V, floor)
  }

  lemma ListedLevelsOk(levels: seq<seq<File>>, V: set<Placed>)
    requires Listing(levels, V) && TreeOk(V)
    ensures LevelsOk(levels)
  {
    forall l | 1 <= l < NUM_LEVELS ensures DisjointSorted(levels[l]) {
      ListedDisjoint(levels, V, l);
    }
  }

  /** A selection seen as a set: `r` is the user-key range of the chosen input-level files. */
  ghost predicate Chosen(V: set<Placed>, job: Job, r: Range)
    requires FilesOk(V)
  {
    && job.level + 1 < NUM_LEVELS && r.lo.Some? && r.hi.Some?
    && job.inputs <= V
    && (forall p :: p in job.inputs ==> p.level == job.level || p.level == job.level + 1)
    && (forall p :: p in job.inputs && p.level == job.level ==> Within(p.file, r))
    && (forall g :: g in V && g.level == job.level + 1 ==> (g in job.inputs <==> Overlaps(g.file, r)))
    && (forall g, f :: g in V && g !in job.inputs && g.level == job.level && f in job.inputs && f.level == job.level
          ==> Newer(Has(g.file), Has(f.file)))
  }

  lemma ChosenAreListed(levels: seq<seq<File>>, V: set<Placed>, c: Compaction, p: Placed)
    requires Listing(levels, V) && LevelsOk(levels) && Complete(levels, c) && p in JobOf(V, c, 0).inputs
    ensures p in V
    ensures (p.level == c.level && p.file in c.inputs0 && Within(p.file, c.range))
            || (p.level == c.level + 1 && p.file in c.inputs1)
  {
    if p.level == c.level { assert p.file in levels[c.level]; } else { assert p.file in levels[c.level + 1]; }
  }

  lemma LeftBehindFits(levels: seq<seq<File>>, V: set<Placed>, c: Compaction, g: Placed, f: Placed)
    requires Listing(levels, V) && TreeOk(V) && Unique(Content(V)) && LevelsOk(levels) && Complete(levels, c)
    requires g in V && g.level == c.level && g.file !in c.inputs0 && f.file in c.inputs0
    ensures Newer(Has(g.file), Has(f.file))
  {
    assert g.file in levels[c.level];
    LevelUnique(levels, V, c.level);
    LeftBehindIsNewer(c.level, levels[c.level], c.inputs0, f.file, g.file);
  }

  lemma NextLevelChosen(levels: seq<seq<File>>, V: set<Placed>, c: Compaction, g: Placed)
    requires Listing(levels, V) && LevelsOk(levels) && Complete(levels, c) && g in V && g.level == c.level + 1
    ensures g.file in c.inputs1 <==> Overlaps(g.file, c.range)
  {
    assert g.file in levels[c.level + 1];
  }

  lemma CompleteIsChosen(levels: seq<seq<File>>, V: set<Placed>, c: Compaction, floor: nat)
    requires Listing(levels, V) && TreeOk(V) && Unique(Content(V)) && LevelsOk(levels) && Complete(levels, c)
    ensures Chosen(V, JobOf(V, c, floor), c.range)
  {
    hide LevelsOk, Listing, Selected;
    var job := JobOf(V, c, floor);
    forall p | p in job.inputs
      ensures p in V && (p.level == c.level || p.level == c.level + 1)
      ensures (p.level == c.level ==> Within(p.file, c.range))
    {
      ChosenAreListed(levels, V, c, p);
    }
    forall g, f | g in V && g !in job.inputs && g.level == job.level && f in job.inputs && f.level == job.level
      ensures Newer(Has(g.file), Has(f.file))
    {
      LeftBehindFits(levels, V, c, g, f);
    }
    forall g | g in V && g.level == job.level + 1 ensures g in job.inputs <==> Overlaps(g.file, c.range) {
      NextLevelChosen(levels, V, c, g);
    }
  }

  lemma LevelUnique(levels: seq<seq<File>>, V: set<Placed>, l: nat)
    requires Listing(levels, V) && Unique(Content(V)) && l < NUM_LEVELS
    ensures Unique(AllOf(levels[l]))
  {
    forall e | e in AllOf(levels[l]) ensures e in Content(V) {
      var f :| f in levels[l] && e in f.entries;
      InContent(V, Placed(l, f), e);
    }
  }

  /** A file of the next level that was not chosen lies aside of everything that was. */
  lemma LeftOutIsAside(V: set<Placed>, job: Job, r: Range, g: Placed)
    requires TreeOk(V) && Chosen(V, job, r)
    requires g in V && g.level == job.level + 1 && g !in job.inputs
    ensures Aside(g.file, Content(job.inputs))
  {
    forall e | e in Content(job.inputs)
      ensures if g.file.largest.user < r.lo.value then Before(g.file.largest, e.key) else Before(e.key, g.file.smallest)
    {
      var f :| f in job.inputs && e in f.file.entries;
      InRange(f.file, e);
      if f.level != job.level {
        assert f in V && PairOk(f, g);
      }
    }
  }

  lemma ChosenFits(V: set<Placed>, job: Job, r: Range)
    requires TreeOk(V) && Chosen(V, job, r)
    ensures Fits(V, job)
  {
    forall g | g in V && g !in job.inputs && g.level == job.level + 1
      ensures Aside(g.file, Content(job.inputs))
    {
      LeftOutIsAside(V, job, r, g);
    }
  }

  lemma SpansCovers(V: set<Placed>, level: nat, g: Placed, u: UserKey)
    requires FilesOk(V) && g in V && g.level >= level + 2 && Spans(g.file, u)
    ensures CoveredBelow(V, level, u)
  {
  }

  lemma ApartFromRange(g: File, f: File, r: Range, e: Entry, d: Entry)
    requires FileOk(g) && FileOk(f) && e in g.entries && d in f.entries && Within(f, r) && !Overlaps(g, r)
    requires r.lo.Some? && r.hi.Some?
    ensures e.key.user != d.key.user
  {
    InRange(g, e);
    InRange(f, d);
  }
}
