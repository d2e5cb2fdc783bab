/**
 Reading the logs back (DBImpl::Recover, DBImpl::RecoverLogFile): the loops that
 rebuild level-0 tables, and the proof that they take the engine from any crash to
 the end of its recovery.

 When a memtable counts as full, and the size of a table, are left open: `full` and
 `sizeOf` stand for MemTable::ApproximateMemoryUsage and the table builder.
 */
module RecoverLogs {
  import opened Keys
  import opened Spec
  import opened Versions
  import opened Selection
  import opened Engine
  import opened EngineSteps
  import opened EngineRecovery
  import opened EngineMain
  import opened Durability

  // --- MemTable::Add and WriteBatchInternal::InsertInto ----------------------------------

  ghost predicate Distinct(mem: seq<Entry>, e: Entry) {
    forall x :: x in mem ==> x.key.seqno != e.key.seqno
  }

  /** MemTable::Add puts an operation at its place in the internal order. */
  method MemAdd(mem: seq<Entry>, e: Entry) returns (mem': seq<Entry>)
    requires Sorted(mem) && Distinct(mem, e)
    ensures Sorted(mem') && Elements(mem') == Elements(mem) + iset{e} && mem' != []
  {
    var i := 0;
    while i < |mem| && Before(mem[i].key, e.key)
      invariant 0 <= i <= |mem|
      invariant forall k :: 0 <= k < i ==> Before(mem[k].key, e.key)
    {
      i := i + 1;
    }
    mem' := mem[..i] + [e] + mem[i..];
    InsertKeepsSorted(mem, i, e);
  }

  lemma BeforeRest(mem: seq<Entry>, i: nat, e: Entry, k: nat)
    requires Sorted(mem) && Distinct(mem, e) && i <= k < |mem| && !Before(mem[i].key, e.key)
    ensures Before(e.key, mem[k].key)
  {
    assert mem[i] in mem && mem[i].key.seqno != e.key.seqno;
    assert i < k ==> Before(mem[i].key, mem[k].key);
  }

  lemma InsertKeepsSorted(mem: seq<Entry>, i: nat, e: Entry)
    requires Sorted(mem) && Distinct(mem, e) && i <= |mem|
    requires forall k :: 0 <= k < i ==> Before(mem[k].key, e.key)
    requires i < |mem| ==> !Before(mem[i].key, e.key)
    ensures Sorted(mem[..i] + [e] + mem[i..]) && Elements(mem[..i] + [e] + mem[i..]) == Elements(mem) + iset{e}
  {
    var mem' := mem[..i] + [e] + mem[i..];
    forall k | i <= k < |mem| ensures Before(e.key, mem[k].key) {
      BeforeRest(mem, i, e, k);
    }
    hide Before, Distinct;
    forall a, b | 0 <= a < b < |mem'| ensures Before(mem'[a].key, mem'[b].key) {
      var a', b' := if a <= i then a else a - 1, if b <= i then b else b - 1;
      if a != i && b != i {
        assert mem'[a] == mem[a'] && mem'[b] == mem[b'] && a' < b';
        assert Before(mem[a'].key, mem[b'].key);
      }
    }
    assert mem == mem[..i] + mem[i..];
  }

  /** InsertInto adds the operations of one record. */
  method InsertInto(mem: seq<Entry>, rec: seq<Entry>) returns (mem': seq<Entry>)
    requires Sorted(mem) && RecordOk(rec) && AllLater(mem, rec)
    ensures Sorted(mem') && Elements(mem') == Elements(mem) + Elements(rec)
  {
    mem' := mem;
    var i := 0;
    while i < |rec|
      invariant 0 <= i <= |rec|
      invariant Sorted(mem') && Elements(mem') == Elements(mem) + Elements(rec[..i])
    {
      forall x | x in mem' ensures x.key.seqno != rec[i].key.seqno {
        assert x in Elements(mem');
      }
      mem' := MemAdd(mem', rec[i]);
      assert rec[..i + 1] == rec[..i] + [rec[i]];
      i := i + 1;
    }
    assert rec[..i] == rec;
  }

  // --- WriteLevel0Table --------------------------------------------------------------------

  ghost predicate Bounded(es: iset<Entry>) {
    forall e :: e in es ==> e.key.seqno <= MAX_SEQUENCE
  }

  /** BuildTable: an empty memtable leaves no table behind. */
  method WriteLevel0Table(mem: seq<Entry>, number: nat, sizeOf: seq<Entry> -> nat) returns (table: Option<File>)
    requires Sorted(mem) && Bounded(Elements(mem))
    ensures table.None? <==> mem == []
    ensures table.Some? ==> FileOk(table.value) && table.value.number == number && table.value.entries == mem
  {
    if mem == [] {
      return None;
    }
    var f := File(number, sizeOf(mem), mem[0].key, mem[|mem| - 1].key, mem);
    assert mem[0] in Elements(mem) && mem[|mem| - 1] in Elements(mem);
    assert |mem| > 1 ==> Before(mem[0].key, mem[|mem| - 1].key);
    forall e | e in mem ensures e.key.seqno <= MAX_SEQUENCE {
      assert e in Elements(mem);
    }
    return Some(f);
  }

  // --- RecoverLogFile ----------------------------------------------------------------------

  ghost predicate TablesOk(files: seq<File>) {
    forall i :: 0 <= i < |files| ==> FileOk(files[i])
  }

  /** Table numbers rise and lie in `[lo, hi)`. */
  ghost predicate NumbersIn(files: seq<File>, lo: nat, hi: nat) {
    && lo <= hi
    && (forall i :: 0 <= i < |files| ==> lo <= files[i].number < hi)
    && (forall i, j :: 0 <= i < j < |files| ==> files[i].number < files[j].number)
  }

  /** `files` hold exactly `S`, in tables that are sound, numbered upwards and ever more recent. */
  ghost predicate Rebuilds(files: seq<File>, S: iset<Entry>, lo: nat, hi: nat) {
    TablesOk(files) && NumbersIn(files, lo, hi) && RisingSequences(files) && AllOf(files) == S
  }

  lemma AppendTable(files: seq<File>, S: iset<Entry>, lo: nat, hi: nat, f: File)
    requires Rebuilds(files, S, lo, hi) && FileOk(f) && f.number == hi && Newer(Has(f), S)
    ensures Rebuilds(files + [f], S + Has(f), lo, hi + 1)
  {
    var files' := files + [f];
    forall i | 0 <= i < |files| ensures Newer(Has(f), Has(files[i])) {
      forall y | y in Has(files[i]) ensures y in S {
        assert y in AllOf(files);
      }
    }
    forall i, j | 0 <= i < j < |files'| ensures Newer(Has(files'[j]), Has(files'[i])) {
      if j < |files| {
        assert Newer(Has(files[j]), Has(files[i]));
      }
    }
    forall e ensures e in AllOf(files') <==> e in S || e in Has(f) {
      if e in AllOf(files') {
        var g :| g in files' && e in g.entries;
        assert g in files ==> e in AllOf(files);
      }
      if e in S {
        assert e in AllOf(files);
        var g :| g in files && e in g.entries;
        assert g in files';
      }
      assert f in files';
    }
  }

  lemma PrefixContent(log: seq<seq<Entry>>, i: nat)
    requires i < |log|
    ensures LogContent(log[..i + 1]) == LogContent(log[..i]) + Elements(log[i])
  {
    forall e ensures InRecord(log[..i + 1], e) <==> InRecord(log[..i], e) || e in log[i] {
      if InRecord(log[..i], e) {
        var k :| 0 <= k < i && e in log[..i][k];
        assert e in log[..i + 1][k];
      }
      if e in log[i] {
        assert e in log[..i + 1][i];
      }
      if InRecord(log[..i + 1], e) {
        var k :| 0 <= k < i + 1 && e in log[..i + 1][k];
        assert k < i ==> e in log[..i][k];
      }
    }
  }

  /** What a later record holds is later than what the earlier ones hold. */
  lemma EarlierContent(log: seq<seq<Entry>>, i: nat, x: Entry, y: Entry)
    requires Ascending(log) && i < |log| && x in LogContent(log[..i]) && y in log[i]
    ensures x.key.seqno < y.key.seqno
  {
    var k :| 0 <= k < i && x in log[..i][k];
    assert AllLater(log[k], log[i]);
  }

  ghost function MemOf(mem: Option<seq<Entry>>): iset<Entry> {
    if mem.Some? then Elements(mem.value) else iset{}
  }

  /** `last` is the larger of `start` and the largest sequence number in `S`. */
  ghost predicate IsMax(last: nat, start: nat, S: iset<Entry>) {
    && start <= last && (forall e :: e in S ==> e.key.seqno <= last)
    && (last == start || exists e :: e in S && e.key.seqno == last)
  }

  /** What RecoverLogFile's loop has done after `i` records: tables holding `done`, and a memtable with the rest. */
  ghost predicate Reading(log: seq<seq<Entry>>, i: nat, S: iset<Entry>, files: seq<File>, done: iset<Entry>,
                          mem: Option<seq<Entry>>, lo: nat, number: nat) {
    && i <= |log| && Rebuilds(files, done, lo, number)
    && (mem.Some? ==> Sorted(mem.value)) && MemOf(mem) <= LogContent(log[..i])
    && done <= S + LogContent(log[..i]) && done + MemOf(mem) == S + LogContent(log[..i])
    && Newer(MemOf(mem), done)
  }

  lemma ReadRecord(log: seq<seq<Entry>>, i: nat, S: iset<Entry>, files: seq<File>, done: iset<Entry>,
                   mem: Option<seq<Entry>>, lo: nat, number: nat, mem': seq<Entry>)
    requires Reading(log, i, S, files, done, mem, lo, number) && i < |log| && RecordsOk(log)
    requires Newer(LogContent(log), S)
    requires Sorted(mem') && Elements(mem') == MemOf(mem) + Elements(log[i])
    ensures Reading(log, i + 1, S, files, done, Some(mem'), lo, number)
  {
    PrefixContent(log, i);
    forall y, x | y in MemOf(Some(mem')) && x in done && y.key.user == x.key.user ensures Later(y, x) {
      if y in log[i] {
        if x in S {
          assert y in LogContent(log);
        } else {
          EarlierContent(log, i, x, y);
        }
      }
    }
  }

  lemma MemIsEarlier(log: seq<seq<Entry>>, i: nat, mem: seq<Entry>)
    requires RecordsOk(log) && i < |log| && Elements(mem) <= LogContent(log[..i])
    ensures AllLater(mem, log[i])
  {
    forall x, y | x in mem && y in log[i] ensures x.key.seqno < y.key.seqno {
      assert x in Elements(mem);
      EarlierContent(log, i, x, y);
    }
  }

  lemma WriteOut(log: seq<seq<Entry>>, i: nat, S: iset<Entry>, files: seq<File>, done: iset<Entry>,
                 mem: seq<Entry>, lo: nat, number: nat, table: Option<File>)
    requires Reading(log, i, S, files, done, Some(mem), lo, number)
    requires table.None? <==> mem == []
    requires table.Some? ==> FileOk(table.value) && table.value.number == number && table.value.entries == mem
    ensures Reading(log, i, S, if table.Some? then files + [table.value] else files, done + Elements(mem), None, lo,
                    number + 1)
  {
    if table.Some? {
      AppendTable(files, done, lo, number, table.value);
    } else {
      assert done + Elements(mem) == done;
    }
  }

  lemma MaxRecord(log: seq<seq<Entry>>, i: nat, last: nat, start: nat)
    requires i < |log| && RecordsOk(log) && IsMax(last, start, LogContent(log[..i]))
    ensures var rec := log[i];
            IsMax(if rec != [] && rec[|rec| - 1].key.seqno > last then rec[|rec| - 1].key.seqno else last,
                  start, LogContent(log[..i + 1]))
  {
    PrefixContent(log, i);
    var rec := log[i];
    if rec != [] {
      assert RecordOk(rec) && rec[|rec| - 1] in Elements(rec);
      assert rec[|rec| - 1] in LogContent(log[..i + 1]);
    }
  }

  lemma StartMem(log: seq<seq<Entry>>, i: nat, S: iset<Entry>, files: seq<File>, done: iset<Entry>,
                 mem: Option<seq<Entry>>, lo: nat, number: nat, before: seq<Entry>)
    requires Reading(log, i, S, files, done, mem, lo, number) && i < |log| && RecordsOk(log)
    requires before == if mem.Some? then mem.value else []
    ensures Sorted(before) && Elements(before) == MemOf(mem) && RecordOk(log[i]) && AllLater(before, log[i])
  {
    assert Elements(before) == MemOf(mem);
    MemIsEarlier(log, i, before);
  }

  lemma EndReading(log: seq<seq<Entry>>, S: iset<Entry>, files: seq<File>, done: iset<Entry>, lo: nat, number: nat)
    requires Reading(log, |log|, S, files, done, None, lo, number)
    ensures Rebuilds(files, S + LogContent(log), lo, number)
  {
    assert log[..|log|] == log;
    assert done == S + LogContent(log);
  }

  method FlushRead(ghost log: seq<seq<Entry>>, ghost i: nat, ghost S: iset<Entry>, files: seq<File>,
                   ghost done: iset<Entry>,
                   mem: seq<Entry>, ghost lo: nat, number: nat, sizeOf: seq<Entry> -> nat)
    returns (files': seq<File>, number': nat, ghost done': iset<Entry>)
    requires Reading(log, i, S, files, done, Some(mem), lo, number) && Bounded(LogContent(log))
    ensures Reading(log, i, S, files', done', None, lo, number') && number' == number + 1
  {
    forall e | e in Elements(mem) ensures e in LogContent(log) {
      assert e in LogContent(log[..i]);
      var k :| 0 <= k < i && e in log[..i][k];
      assert e in log[k];
    }
    var table := WriteLevel0Table(mem, number, sizeOf);
    WriteOut(log, i, S, files, done, mem, lo, number, table);
    files' := if table.Some? then files + [table.value] else files;
    number', done' := number + 1, done + Elements(mem);
  }

  /**
   Reads one log into level-0 tables after those in `files0`.  The tables hold what
   they held before plus exactly what the log holds, and `last` takes in the largest
   sequence number found.
   */
  method RecoverLogFile(log: seq<seq<Entry>>, files0: seq<File>, ghost S: iset<Entry>, ghost lo: nat, number0: nat,
                        last0: nat, full: nat -> bool, sizeOf: seq<Entry> -> nat)
    returns (files: seq<File>, number: nat, last: nat)
    requires RecordsOk(log) && Bounded(LogContent(log)) && Newer(LogContent(log), S)
    requires Rebuilds(files0, S, lo, number0)
    ensures Rebuilds(files, S + LogContent(log), lo, number)
    ensures IsMax(last, last0, LogContent(log)) && number0 <= number
  {
    hide Reading, Rebuilds, IsMax, LogContent, Bounded, Newer, Sorted, RecordsOk, RecordOk, AllLater, MemOf;
    files, number, last := files0, number0, last0;
    var mem: Option<seq<Entry>> := None;
    ghost var done := S;
    var i := 0;
    StartReading(log, S, files0, lo, number0, last0);
    while i < |log|
      invariant 0 <= i <= |log|
      invariant Reading(log, i, S, files, done, mem, lo, number)
      invariant IsMax(last, last0, LogContent(log[..i])) && number0 <= number
    {
      var rec := log[i];
      var before := if mem.Some? then mem.value else [];
      StartMem(log, i, S, files, done, mem, lo, number, before);
      var after := InsertInto(before, rec);
      ReadRecord(log, i, S, files, done, mem, lo, number, after);
      mem := Some(after);
      MaxRecord(log, i, last, last0);
      if rec != [] && rec[|rec| - 1].key.seqno > last {
        last := rec[|rec| - 1].key.seqno;
      }
      i := i + 1;
      if full(i) {
        files, number, done := FlushRead(log, i, S, files, done, after, lo, number, sizeOf);
        mem := None;
      }
    }
    assert log[..i] == log;
    if mem.Some? {
      files, number, done := FlushRead(log, i, S, files, done, mem.value, lo, number, sizeOf);
      mem := None;
    }
    EndReading(log, S, files, done, lo, number);
  }

  lemma StartReading(log: seq<seq<Entry>>, S: iset<Entry>, files: seq<File>, lo: nat, number: nat, last: nat)
    requires Rebuilds(files, S, lo, number)
    ensures Reading(log, 0, S, files, S, None, lo, number) && IsMax(last, last, LogContent(log[..0]))
  {
  }

  // --- Recover -----------------------------------------------------------------------------

  method Least(ns: set<nat>) returns (m: nat)
    requires ns != {}
    ensures m in ns && forall n :: n in ns ==> m <= n
  {
    m :| m in ns;
    var rest := ns - {m};
    while rest != {}
      invariant m in ns && rest <= ns && forall n :: n in ns && n !in rest ==> m <= n
      decreases |rest|
    {
      var n :| n in rest;
      rest := rest - {n};
      if n < m {
        m := n;
      }
    }
  }

  ghost predicate Rising(ns: seq<nat>) {
    forall i, j :: 0 <= i < j < |ns| ==> ns[i] < ns[j]
  }

  /** The logs the manifest still needs, oldest first. */
  method LogsToRead(logs: map<nat, seq<seq<Entry>>>, minLog: nat) returns (ns: seq<nat>)
    ensures Rising(ns) && forall n :: n in ns <==> n in logs && n >= minLog
  {
    var wanted := set n | n in logs && n >= minLog;
    var rest := wanted;
    ns := [];
    while rest != {}
      invariant rest <= wanted && Rising(ns)
      invariant forall n :: n in wanted <==> n in ns || n in rest
      invariant forall m, n :: m in ns && n in rest ==> m < n
      decreases |rest|
    {
      var n := Least(rest);
      rest := rest - {n};
      assert forall i :: 0 <= i < |ns| ==> ns[i] in ns;
      ns := ns + [n];
    }
  }

  ghost predicate InLogs(logs: map<nat, seq<seq<Entry>>>, ns: seq<nat>, e: Entry) {
    exists n :: n in ns && n in logs && InRecord(logs[n], e)
  }

  ghost function LogsContent(logs: map<nat, seq<seq<Entry>>>, ns: seq<nat>): iset<Entry> {
    iset e | InLogs(logs, ns, e)
  }

  /** Each log is sound, and later logs hold only later operations on the keys they share. */
  ghost predicate LogsOk(logs: map<nat, seq<seq<Entry>>>, minLog: nat) {
    && (forall n :: n in logs && n >= minLog ==> RecordsOk(logs[n]) && Bounded(LogContent(logs[n])))
    && (forall m, n :: m in logs && n in logs && minLog <= m < n ==> Newer(LogContent(logs[n]), LogContent(logs[m])))
  }

  lemma NextLog(logs: map<nat, seq<seq<Entry>>>, minLog: nat, ns: seq<nat>, k: nat)
    requires LogsOk(logs, minLog) && Rising(ns) && k < |ns| && forall n :: n in ns ==> n in logs && n >= minLog
    ensures Newer(LogContent(logs[ns[k]]), LogsContent(logs, ns[..k]))
    ensures LogsContent(logs, ns[..k + 1]) == LogsContent(logs, ns[..k]) + LogContent(logs[ns[k]])
  {
    assert ns[..k + 1] == ns[..k] + [ns[k]];
    forall y, x | y in LogContent(logs[ns[k]]) && x in LogsContent(logs, ns[..k]) && y.key.user == x.key.user
      ensures Later(y, x)
    {
      var m :| m in ns[..k] && m in logs && InRecord(logs[m], x);
      assert m in ns && m < ns[k];
      assert x in LogContent(logs[m]) && Newer(LogContent(logs[ns[k]]), LogContent(logs[m]));
    }
    forall e ensures InLogs(logs, ns[..k + 1], e) <==> InLogs(logs, ns[..k], e) || InRecord(logs[ns[k]], e) {
      if InLogs(logs, ns[..k], e) {
        var m :| m in ns[..k] && m in logs && InRecord(logs[m], e);
        assert m in ns[..k + 1];
      }
      assert ns[k] in ns[..k + 1];
    }
  }

  lemma MaxTrans(a: nat, b: nat, c: nat, S: iset<Entry>, T: iset<Entry>)
    requires IsMax(b, a, S) && IsMax(c, b, T)
    ensures IsMax(c, a, S + T)
  {
    if c != b {
      var e :| e in T && e.key.seqno == c;
      assert e in S + T;
    } else if b != a {
      var e :| e in S && e.key.seqno == b;
      assert e in S + T;
    }
  }

  /** The loop over the logs, with MarkFileNumberUsed after each. */
  method ReadLogs(logs: map<nat, seq<seq<Entry>>>, minLog: nat, number0: nat, full: (nat, nat) -> bool,
                  sizeOf: seq<Entry> -> nat)
    returns (files: seq<File>, number: nat, last: nat, ghost ns: seq<nat>)
    requires LogsOk(logs, minLog)
    ensures (forall n :: n in ns <==> n in logs && n >= minLog)
    ensures number0 <= number && Rebuilds(files, LogsContent(logs, ns), number0, number)
    ensures IsMax(last, 0, LogsContent(logs, ns))
    ensures forall n :: n in ns ==> n < number
  {
    hide Rebuilds, IsMax, LogContent, Newer, LogsContent;
    var order := LogsToRead(logs, minLog);
    ns := order;
    files, number, last := [], number0, 0;
    NothingRead(logs, ns, number0);
    var k := 0;
    while k < |order|
      invariant 0 <= k <= |order| && number0 <= number
      invariant Rebuilds(files, LogsContent(logs, order[..k]), number0, number)
      invariant IsMax(last, 0, LogsContent(logs, order[..k]))
      invariant forall i :: 0 <= i < k ==> order[i] < number
    {
      var n := order[k];
      assert n in order;
      NextLog(logs, minLog, order, k);
      var start := last;
      var read;
      files, read, last := RecoverLogFile(logs[n], files, LogsContent(logs, order[..k]), number0, number, start,
                                          (i: nat) => full(n, i), sizeOf);
      MaxTrans(0, start, last, LogsContent(logs, order[..k]), LogContent(logs[n]));
      number := if read <= n then n + 1 else read;
      MoreNumbers(files, LogsContent(logs, order[..k]) + LogContent(logs[n]), number0, read, number);
      k := k + 1;
    }
    assert order[..k] == order;
  }

  lemma MoreNumbers(files: seq<File>, S: iset<Entry>, lo: nat, hi: nat, hi': nat)
    requires Rebuilds(files, S, lo, hi) && hi <= hi'
    ensures Rebuilds(files, S, lo, hi')
  {
  }

  lemma NothingRead(logs: map<nat, seq<seq<Entry>>>, ns: seq<nat>, number: nat)
    ensures Rebuilds([], LogsContent(logs, ns[..0]), number, number) && IsMax(0, 0, LogsContent(logs, ns[..0]))
  {
    assert LogsContent(logs, ns[..0]) == iset{};
    assert AllOf([]) == iset{};
  }

  // --- the recovered state ---------------------------------------------------------------------

  lemma NeededLogsOk(s: State)
    requires DownInv(s)
    ensures LogsOk(s.logs, s.manifest.logNumber)
  {
    var minLog := s.manifest.logNumber;
    forall n | n in s.logs && n >= minLog ensures RecordsOk(s.logs[n]) && Bounded(LogContent(s.logs[n])) {
      forall e | e in LogContent(s.logs[n]) ensures e.key.seqno <= MAX_SEQUENCE {
        InLogBounded(s, n, e);
      }
    }
    forall m, n | m in s.logs && n in s.logs && minLog <= m < n
      ensures Newer(LogContent(s.logs[n]), LogContent(s.logs[m]))
    {
      LaterLogNewer(s, m, n);
    }
  }

  lemma InLogBounded(s: State, n: nat, e: Entry)
    requires DownInv(s) && n in s.logs && n >= s.manifest.logNumber && e in LogContent(s.logs[n])
    ensures e.key.seqno < MAX_SEQUENCE
  {
    var c := s.core;
    assert InNeededLog(s, e);
    NeededLogs(s, e);
    assert e in ViewContent(c.mems[c.mem], ImmOf(c.mems, s.imm), s.version) && Inserted(c, e);
  }

  /** Two needed logs that hold anything are those of the two memtables. */
  lemma LaterLogNewer(s: State, m: nat, n: nat)
    requires DownInv(s) && m in s.logs && n in s.logs && s.manifest.logNumber <= m < n
    ensures Newer(LogContent(s.logs[n]), LogContent(s.logs[m]))
  {
    var c := s.core;
    if s.logs[m] != [] && s.logs[n] != [] {
      assert (m == c.mem || Some(m) == s.imm) && (n == c.mem || Some(n) == s.imm);
      assert n == c.mem && Some(m) == s.imm && ImmOf(c.mems, s.imm) == LogContent(s.logs[m]);
    }
  }

  lemma TableWritten(run: Run, f: File) returns (run': Run)
    requires IsRun(run) && run.s.phase.Down? && f.number !in Numbers(run.s.manifest.version)
    ensures IsRun(run') && run'.Then? && run'.before == run && run'.s.tables == run.s.tables[f.number := f.entries]
    ensures run'.s == run.s.(tables := run'.s.tables, nextFile := run'.s.nextFile)
  {
    var s := run.s;
    run' := Then(run, RecoverTable(f.number, f.entries),
                 s.(tables := s.tables[f.number := f.entries],
                    nextFile := if s.nextFile <= f.number then f.number + 1 else s.nextFile));
  }

  /** The tables are written one after the other, each under a number the manifest has not seen. */
  lemma {:induction false} TablesWritten(run: Run, files: seq<File>) returns (run': Run)
    requires IsRun(run) && run.s.phase.Down? && RisingNumbers(files, run.s.manifest.nextFile)
    requires Below(Numbers(run.s.manifest.version), run.s.manifest.nextFile)
    ensures IsRun(run') && Follows(run', run)
    ensures run'.s == run.s.(tables := run'.s.tables, nextFile := run'.s.nextFile)
    ensures forall f :: f in files ==> f.number in run'.s.tables && run'.s.tables[f.number] == f.entries
    decreases |files|
  {
    hide IsRun;
    run' := run;
    if files != [] {
      var n := |files| - 1;
      var mid := TablesWritten(run, files[..n]);
      run' := TableWritten(mid, files[n]);
      assert files == files[..n] + [files[n]];
    }
  }

  /** A new, empty log changes nothing about what recovery found. */
  lemma NewLogHarmless(s: State, s': State, n: nat, files: seq<File>, last: nat)
    requires n !in s.logs && s'.logs == s.logs[n := []] && s'.manifest == s.manifest
    requires Rebuilt(s, files) && RecoveredLast(s, last)
    ensures Rebuilt(s', files) && RecoveredLast(s', last)
  {
    hide FileOk, RisingNumbers, RisingSequences, InFiles, InNeededLog;
    forall e ensures InNeededLog(s', e) <==> InNeededLog(s, e) {
      NewLogEmpty(s, s', n, e);
    }
  }

  lemma NewLogEmpty(s: State, s': State, n: nat, e: Entry)
    requires n !in s.logs && s'.logs == s.logs[n := []] && s'.manifest == s.manifest
    ensures InNeededLog(s', e) <==> InNeededLog(s, e)
  {
    if InNeededLog(s, e) {
      var m :| m in s.logs && m >= s.manifest.logNumber && InRecord(s.logs[m], e);
      assert m in s'.logs && s'.logs[m] == s.logs[m];
    }
  }

  lemma LogAdded(run: Run, n: nat) returns (run': Run)
    requires IsRun(run) && run.s.phase.Down? && n !in run.s.logs
    ensures IsRun(run') && run'.Then? && run'.before == run && run'.s.logs == run.s.logs[n := []]
    ensures run'.s == run.s.(logs := run'.s.logs, safe := run'.s.safe, torn := run.s.torn - {n},
                             nextFile := run'.s.nextFile)
  {
    var s := run.s;
    run' := Then(run, RecoverLog(n), s.(logs := s.logs[n := []], safe := s.safe[n := 0], torn := s.torn - {n},
                                        nextFile := if s.nextFile <= n then n + 1 else s.nextFile));
  }

  lemma RecoveryEnds(run: Run, files: seq<File>, log: nat, last: nat) returns (run': Run)
    requires IsRun(run) && IsRecovered(run.s, RecoveredState(run.s, files, log, last), files, log, last)
    ensures IsRun(run') && run'.Then? && run'.before == run && run'.step == Recovered(files, log, last)
    ensures run'.s.core.history == run.s.core.history
  {
    hide IsRecovered;
    run' := Then(run, Recovered(files, log, last), RecoveredState(run.s, files, log, last));
  }

  /** Tables, new log and manifest record follow each other as steps of the engine. */
  lemma RecoverySteps(run: Run, files: seq<File>, number: nat, last: nat) returns (run': Run)
    requires IsRun(run) && run.s.phase.Down? && Below(Numbers(run.s.manifest.version), run.s.manifest.nextFile)
    requires Rebuilt(run.s, files) && RecoveredLast(run.s, last) && run.s.manifest.nextFile < number
    requires (forall f :: f in files ==> f.number < number) && forall n :: n in run.s.logs ==> n < number
    ensures IsRun(run') && Follows(run', run) && run'.Then? && run'.step == Recovered(files, number, last)
    ensures run'.s.core.history == run.s.core.history
  {
    assert RisingNumbers(files, run.s.manifest.nextFile);
    hide Rebuilt, RecoveredLast, RecoveredState, RisingNumbers, IsRun, Below, IsRecovered;
    var run1 := TablesWritten(run, files);
    var run2 := LogAdded(run1, number);
    ReadyToEnd(run.s, run1.s, run2.s, files, number, last);
    run' := RecoveryEnds(run2, files, number, last);
    assert Follows(run2, run);
  }

  lemma ReadyToEnd(s: State, s1: State, s2: State, files: seq<File>, number: nat, last: nat)
    requires s.phase.Down? && Rebuilt(s, files) && RecoveredLast(s, last) && s.manifest.nextFile < number
    requires (forall f :: f in files ==> f.number < number) && forall n :: n in s.logs ==> n < number
    requires s1 == s.(tables := s1.tables, nextFile := s1.nextFile)
    requires forall f :: f in files ==> f.number in s1.tables && s1.tables[f.number] == f.entries
    requires s2 == s1.(logs := s1.logs[number := []], safe := s2.safe, torn := s1.torn - {number},
                       nextFile := s2.nextFile)
    ensures IsRecovered(s2, RecoveredState(s2, files, number, last), files, number, last)
  {
    hide Rebuilt, RecoveredLast, RecoveredState;
    NewLogHarmless(s, s2, number, files, last);
  }

  /**
   DBImpl::Recover and the rest of DB::Open after a crash at any point of any run: no
   table the manifest names is missing, and what the loops over the logs arrive at is
   the end of a recovery that keeps everything the crash left.
   */
  method Recover(ghost run: Run, logs: map<nat, seq<seq<Entry>>>, present: set<nat>, live: set<nat>,
                 minLog: nat, nextFile: nat, manifestLast: nat, full: (nat, nat) -> bool, sizeOf: seq<Entry> -> nat)
    returns (missing: bool, files: seq<File>, number: nat, last: nat, ghost run': Run)
    requires IsRun(run) && run.s.phase.Down?
    requires logs == run.s.logs && run.s.tables.Keys <= present && live == Numbers(run.s.manifest.version)
    requires Manifest(run.s.manifest.version, minLog, manifestLast, nextFile) == run.s.manifest
    ensures !missing && IsRun(run') && Follows(run', run)
    ensures run'.Then? && run'.step == Recovered(files, number, last) && run'.s.core.history == run.s.core.history
  {
    hide DownInv, Rebuilt, Rebuilds, IsMax, LogsOk, LogsContent, IsRun, Follows;
    missing, files, number, last, run' := false, [], nextFile + 1, manifestLast, run;
    ghost var s := run.s;
    RunIsDown(run);
    NothingMissing(s);
    if !(live <= present) {
      missing := true;
      return;
    }
    NeededLogsOk(s);
    var found;
    ghost var ns;
    files, number, found, ns := ReadLogs(logs, minLog, nextFile + 1, full, sizeOf);
    last := if manifestLast < found then found else manifestLast;
    ReadLogsRecover(s, ns, files, number, found);
    run' := RecoverySteps(run, files, number, last);
  }

  lemma RunIsDown(run: Run)
    requires IsRun(run) && run.s.phase.Down?
    ensures DownInv(run.s) && Below(Numbers(run.s.manifest.version), run.s.manifest.nextFile)
  {
    RunInv(run);
  }

  lemma NothingMissing(s: State)
    requires DownInv(s)
    ensures Numbers(s.manifest.version) <= s.tables.Keys
  {
    forall n | n in Numbers(s.manifest.version) ensures n in s.tables {
      var p :| p in s.manifest.version && p.file.number == n;
      assert TableThere(s.tables, s.doomedTables, p.file);
    }
  }

  lemma ReadLogsRecover(s: State, ns: seq<nat>, files: seq<File>, number: nat, found: nat)
    requires DownInv(s) && s.manifest.nextFile + 1 <= number
    requires forall n :: n in ns <==> n in s.logs && n >= s.manifest.logNumber
    requires Rebuilds(files, LogsContent(s.logs, ns), s.manifest.nextFile + 1, number)
    requires IsMax(found, 0, LogsContent(s.logs, ns))
    requires forall n :: n in ns ==> n < number
    ensures Rebuilt(s, files)
    ensures RecoveredLast(s, if s.manifest.lastSequence < found then found else s.manifest.lastSequence)
    ensures (forall f :: f in files ==> f.number < number) && forall n :: n in s.logs ==> n < number
  {
    ReadIsRebuilt(s, ns, files, number);
    ReadIsLast(s, ns, found);
    assert s.core.mem in ns && s.manifest.logNumber <= s.core.mem && NumbersIn(files, s.manifest.nextFile + 1, number);
  }

  lemma ReadIsRebuilt(s: State, ns: seq<nat>, files: seq<File>, number: nat)
    requires forall n :: n in ns <==> n in s.logs && n >= s.manifest.logNumber
    requires Rebuilds(files, LogsContent(s.logs, ns), s.manifest.nextFile + 1, number)
    ensures Rebuilt(s, files)
  {
    hide FileOk, Newer, Has, LogsContent;
    forall e ensures InFiles(files, e) <==> InNeededLog(s, e) {
      ReadIsNeeded(s, ns, e);
      assert InFiles(files, e) <==> e in AllOf(files);
    }
  }

  lemma ReadIsLast(s: State, ns: seq<nat>, found: nat)
    requires forall n :: n in ns <==> n in s.logs && n >= s.manifest.logNumber
    requires IsMax(found, 0, LogsContent(s.logs, ns))
    ensures RecoveredLast(s, if s.manifest.lastSequence < found then found else s.manifest.lastSequence)
  {
    hide LogsContent, InNeededLog;
    forall e ensures InNeededLog(s, e) <==> e in LogsContent(s.logs, ns) {
      ReadIsNeeded(s, ns, e);
    }
  }

  lemma ReadIsNeeded(s: State, ns: seq<nat>, e: Entry)
    requires forall n :: n in ns <==> n in s.logs && n >= s.manifest.logNumber
    ensures InNeededLog(s, e) <==> e in LogsContent(s.logs, ns)
  {
    if InNeededLog(s, e) {
      var n :| n in s.logs && n >= s.manifest.logNumber && InRecord(s.logs[n], e);
      assert n in ns;
    }
  }
}
