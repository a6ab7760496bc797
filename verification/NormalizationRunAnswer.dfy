/** What a whole normalization run answers, in terms of the lines of its files (src/normalization/reader.py:30-92,
    pipeline.py:42-159). */
module NormalizationRunAnswer {
  import opened Cdc
  import opened Ordering
  import opened Normalization
  import opened NormalizationOrder
  import opened NormalizationRun
  import opened NormalizationAnswer

  // ---- Lines ----

  predicate IsParsed(l: Line) { l.Parsed? }

  predicate IsMalformed(l: Line) { l.Malformed? }

  predicate IsFilled(l: Line) { !l.Blank? }

  lemma {:induction false} FilledIs(lines: seq<Line>)
    ensures Filled(lines) == |Positions(lines, IsFilled)|
  {
    if lines == [] {
      assert Positions(lines, IsFilled) == {};
    } else {
      var init, last := lines[..|lines| - 1], lines[|lines| - 1];
      FilledIs(init);
      PositionsGrow(init, last, IsFilled);
      assert lines == init + [last];
      assert |init| !in Positions(init, IsFilled);
    }
  }

  lemma FilledUpTo(f: File, n: nat)
    requires n < |f.lines|
    ensures Filled(f.lines[..n + 1]) == |set j | 0 <= j <= n && !f.lines[j].Blank?|
  {
    FilledIs(f.lines[..n + 1]);
    assert Positions(f.lines[..n + 1], IsFilled) == set j | 0 <= j <= n && !f.lines[j].Blank?;
  }

  /** The record of line `j` of the file. Blank lines are not numbered, and the numbers run on from `start`. */
  ghost predicate LineOf(f: File, j: nat, start: nat, r: Record)
    requires j < |f.lines|
  {
    && f.lines[j].Parsed? && r.change == f.lines[j].change && r.batchId == f.lines[j].batchId
    && r.ingestionBatchId == (if r.batchId != "" then r.batchId else f.batchHint)
    && r.sourceFile == f.logicalId && r.line == j + 1
    && r.order == start + |set i | 0 <= i <= j && !f.lines[i].Blank?|
  }

  /** The quarantine row of line `j` of the file, which is not JSON. */
  predicate BadLineOf(f: File, j: nat, q: Quarantined)
    requires j < |f.lines|
  {
    && f.lines[j].Malformed? && q.code == "MALFORMED_JSON" && q.raw == Unparsed(f.lines[j].text)
    && q.eventId == "" && q.table == "" && q.sourceFile == f.logicalId && q.batchId == f.batchHint && q.line == j + 1
  }

  lemma LastLine(f: File, n: nat, start: nat, r: Record)
    requires n < |f.lines|
    ensures r in RecordsIn(f, n + 1, start) <==> r in RecordsIn(f, n, start) || LineOf(f, n, start, r)
  {
    FilledUpTo(f, n);
    hide Filled;
  }

  lemma LastBadLine(f: File, n: nat, q: Quarantined)
    requires n < |f.lines|
    ensures q in MalformedIn(f, n + 1) <==> q in MalformedIn(f, n) || BadLineOf(f, n, q)
  {}

  lemma {:induction false} RecordsOfFile(f: File, n: nat, start: nat, r: Record)
    requires n <= |f.lines|
    ensures r in RecordsIn(f, n, start) <==> exists j :: 0 <= j < n && LineOf(f, j, start, r)
  {
    if n > 0 {
      RecordsOfFile(f, n - 1, start, r);
      LastLine(f, n - 1, start, r);
      hide RecordsIn, LineOf;
      if LineOf(f, n - 1, start, r) {
        assert 0 <= n - 1 < n;
      }
    }
  }

  lemma {:induction false} MalformedOfFile(f: File, n: nat, q: Quarantined)
    requires n <= |f.lines|
    ensures q in MalformedIn(f, n) <==> exists j :: 0 <= j < n && BadLineOf(f, j, q)
  {
    if n > 0 {
      MalformedOfFile(f, n - 1, q);
      LastBadLine(f, n - 1, q);
      hide MalformedIn, BadLineOf;
      if BadLineOf(f, n - 1, q) {
        assert 0 <= n - 1 < n;
      }
    }
  }

  /** Some line of some file reads as the record. */
  ghost predicate Reads(fs: seq<File>, r: Record) {
    exists k, n :: 0 <= k < |fs| && 0 <= n < |fs[k].lines| && LineOf(fs[k], n, FilledAll(fs[..k]), r)
  }

  ghost predicate Breaks(fs: seq<File>, q: Quarantined) {
    exists k, n :: 0 <= k < |fs| && 0 <= n < |fs[k].lines| && BadLineOf(fs[k], n, q)
  }

  lemma ReadsOneMore(init: seq<File>, f: File, r: Record)
    ensures Reads(init + [f], r) <==>
      Reads(init, r) || exists j :: 0 <= j < |f.lines| && LineOf(f, j, FilledAll(init), r)
  {
    var fs := init + [f];
    hide FilledAll, LineOf;
    assert fs[..|init|] == init && fs[|init|] == f;
    forall k | 0 <= k < |init| ensures fs[..k] == init[..k] && fs[k] == init[k] {}
    if k, n :| 0 <= k < |init| && 0 <= n < |init[k].lines| && LineOf(init[k], n, FilledAll(init[..k]), r) {
      assert LineOf(fs[k], n, FilledAll(fs[..k]), r);
    }
    if j :| 0 <= j < |f.lines| && LineOf(f, j, FilledAll(init), r) {
      assert LineOf(fs[|init|], j, FilledAll(fs[..|init|]), r);
    }
    if k, n :| 0 <= k < |fs| && 0 <= n < |fs[k].lines| && LineOf(fs[k], n, FilledAll(fs[..k]), r) {
      if k < |init| {
        assert LineOf(init[k], n, FilledAll(init[..k]), r);
      } else {
        assert LineOf(f, n, FilledAll(init), r);
      }
    }
  }

  lemma BreaksOneMore(init: seq<File>, f: File, q: Quarantined)
    ensures Breaks(init + [f], q) <==> Breaks(init, q) || exists j :: 0 <= j < |f.lines| && BadLineOf(f, j, q)
  {
    var fs := init + [f];
    hide BadLineOf;
    assert fs[|init|] == f;
    forall k | 0 <= k < |init| ensures fs[k] == init[k] {}
    if k, n :| 0 <= k < |init| && 0 <= n < |init[k].lines| && BadLineOf(init[k], n, q) {
      assert BadLineOf(fs[k], n, q);
    }
    if j :| 0 <= j < |f.lines| && BadLineOf(f, j, q) {
      assert BadLineOf(fs[|init|], j, q);
    }
    if k, n :| 0 <= k < |fs| && 0 <= n < |fs[k].lines| && BadLineOf(fs[k], n, q) {
      if k < |init| {
        assert BadLineOf(init[k], n, q);
      } else {
        assert BadLineOf(f, n, q);
      }
    }
  }

  /** The reader returns exactly the lines that parse, each with its batch, file, line and number. */
  lemma {:induction false} RecordsAre(fs: seq<File>, r: Record)
    ensures r in ReadRecords(fs) <==> Reads(fs, r)
  {
    if fs != [] {
      var init, last := fs[..|fs| - 1], fs[|fs| - 1];
      RecordsAre(init, r);
      RecordsOfFile(last, |last.lines|, FilledAll(init), r);
      ReadsOneMore(init, last, r);
      assert fs == init + [last];
      hide Reads, FilledAll, LineOf;
    }
  }

  /** And quarantines exactly the lines that are neither blank nor JSON. */
  lemma {:induction false} MalformedAre(fs: seq<File>, q: Quarantined)
    ensures q in ReadMalformed(fs) <==> Breaks(fs, q)
  {
    if fs != [] {
      var init, last := fs[..|fs| - 1], fs[|fs| - 1];
      MalformedAre(init, q);
      MalformedOfFile(last, |last.lines|, q);
      BreaksOneMore(init, last, q);
      assert fs == init + [last];
      hide Breaks, BadLineOf;
    }
  }

  // ---- How many lines ----

  /** The lines of a kind, by file and position. */
  ghost function LinesWhere(fs: seq<File>, keep: Line -> bool): set<(int, int)> {
    set k, n | 0 <= k < |fs| && 0 <= n < |fs[k].lines| && keep(fs[k].lines[n]) :: (k, n)
  }

  lemma {:induction false} ImageSize(k: int, ns: set<int>)
    ensures |set n | n in ns :: (k, n)| == |ns|
  {
    var image := set n | n in ns :: (k, n);
    if ns == {} {
      assert image == {};
    } else {
      var n := Pick(ns);
      ImageSize(k, ns - {n});
      assert image == (set m | m in ns - {n} :: (k, m)) + {(k, n)};
    }
  }

  lemma LinesGrow(init: seq<File>, f: File, keep: Line -> bool)
    ensures |LinesWhere(init + [f], keep)| == |LinesWhere(init, keep)| + |Positions(f.lines, keep)|
  {
    var k := |init|;
    var last := set n | n in Positions(f.lines, keep) :: (k, n);
    ImageSize(k, Positions(f.lines, keep));
    forall x ensures x in LinesWhere(init + [f], keep) <==> x in LinesWhere(init, keep) || x in last {
      assert (init + [f])[k] == f && forall j :: 0 <= j < k ==> (init + [f])[j] == init[j];
    }
    assert LinesWhere(init + [f], keep) == LinesWhere(init, keep) + last;
    assert LinesWhere(init, keep) !! last;
  }

  lemma {:induction false} FileSizes(f: File, n: nat, start: nat)
    requires n <= |f.lines|
    ensures |RecordsIn(f, n, start)| == |Positions(f.lines[..n], IsParsed)|
    ensures |MalformedIn(f, n)| == |Positions(f.lines[..n], IsMalformed)|
  {
    if n == 0 {
      assert Positions(f.lines[..n], IsParsed) == {} && Positions(f.lines[..n], IsMalformed) == {};
    } else {
      var init, last := f.lines[..n - 1], f.lines[n - 1];
      FileSizes(f, n - 1, start);
      assert f.lines[..n] == init + [last];
      OneMoreSize(init, last, IsParsed);
      OneMoreSize(init, last, IsMalformed);
      hide Positions, Filled;
      assert |RecordsIn(f, n, start)| == |RecordsIn(f, n - 1, start)| + if last.Parsed? then 1 else 0;
      assert |MalformedIn(f, n)| == |MalformedIn(f, n - 1)| + if last.Malformed? then 1 else 0;
      assert IsParsed(last) == last.Parsed? && IsMalformed(last) == last.Malformed?;
    }
  }

  lemma OneMoreSize(init: seq<Line>, last: Line, keep: Line -> bool)
    ensures |Positions(init + [last], keep)| == |Positions(init, keep)| + if keep(last) then 1 else 0
  {
    PositionsGrow(init, last, keep);
    assert |init| !in Positions(init, keep);
  }

  /** The reader returns one record per line that parses, and one quarantine row per line that does not. */
  lemma {:induction false} ReadSizes(fs: seq<File>)
    ensures |ReadRecords(fs)| == |LinesWhere(fs, IsParsed)|
    ensures |ReadMalformed(fs)| == |LinesWhere(fs, IsMalformed)|
  {
    if fs == [] {
      assert LinesWhere(fs, IsParsed) == {} && LinesWhere(fs, IsMalformed) == {};
    } else {
      var init, last := fs[..|fs| - 1], fs[|fs| - 1];
      assert fs == init + [last];
      ReadSizes(init);
      FileSizes(last, |last.lines|, FilledAll(init));
      FullPrefix(last.lines);
      LinesGrow(init, last, IsParsed);
      LinesGrow(init, last, IsMalformed);
      hide Positions, LinesWhere, RecordsIn, MalformedIn, FilledAll;
    }
  }

  // ---- The whole run ----

  /** Ascending by table, event id, code, content digest and source file. */
  predicate QuarantinedBefore(a: Quarantined, b: Quarantined, digest: Digest) {
    && StringLe(a.table, b.table)
    && (a.table == b.table ==>
          && StringLe(a.eventId, b.eventId)
          && (a.eventId == b.eventId ==>
                && StringLe(a.code, b.code)
                && (a.code == b.code ==>
                      && StringLe(digest(a.raw), digest(b.raw))
                      && (digest(a.raw) == digest(b.raw) ==> StringLe(a.sourceFile, b.sourceFile)))))
  }

  /** Valid records are those that break no rule; the others are quarantined under the rule they break. */
  ghost predicate Validated(fs: seq<File>, valid: seq<Record>, rules: Rules) {
    && (forall r :: r in valid <==> Reads(fs, r) && rules(r.change).None?)
    && forall i, j :: 0 <= i < j < |valid| ==> valid[i].order != valid[j].order
  }

  ghost predicate Refuses(fs: seq<File>, q: Quarantined, rules: Rules) {
    exists r :: Reads(fs, r) && rules(r.change).Some? && Quarantines(q, rules(r.change).value, r)
  }

  /** Lines that are not JSON, records that break a rule, and what the processor rejects. */
  ghost predicate Belongs(q: Quarantined, fs: seq<File>, valid: seq<Record>, rules: Rules, p: Primitives) {
    Breaks(fs, q) || Refuses(fs, q, rules) || exists r :: r in valid && Rejects(q, valid, r, p)
  }

  ghost predicate InQuarantineOrder(qs: seq<Quarantined>, digest: Digest) {
    forall i, j :: 0 <= i < j < |qs| ==> QuarantinedBefore(qs[i], qs[j], digest)
  }

  /** Each table of the accepted list has its attained bounds, no other table has any. */
  ghost predicate Ranges(m: Metrics, accepted: seq<Event>) {
    forall table: string ::
      && (table in m.minSequence <==> exists e :: e in accepted && e.change.table == table)
      && (table in m.maxSequence <==> table in m.minSequence)
      && (forall e :: e in accepted && e.change.table == table ==>
            m.minSequence[table] <= e.change.sequence <= m.maxSequence[table])
      && (table in m.minSequence ==>
            && (exists e :: e in accepted && e.change.table == table && e.change.sequence == m.minSequence[table])
            && (exists e :: e in accepted && e.change.table == table && e.change.sequence == m.maxSequence[table]))
  }

  /** Every line that counts is accepted, dropped or quarantined. */
  ghost predicate Totals(m: Metrics, result: RunResult, fs: seq<File>) {
    && m.parsed == |LinesWhere(fs, IsParsed)| && m.malformed == |LinesWhere(fs, IsMalformed)|
    && m.rawSeen == m.parsed + m.malformed == m.accepted + m.dropped + m.quarantined
    && m.accepted == |result.accepted| && m.quarantined == |result.quarantine|
    && (m.withQuarantine <==> result.quarantine != [])
  }

  ghost predicate VerdictCounts(m: Metrics, valid: seq<Record>, p: Primitives) {
    && m.dropped == |set i | 0 <= i < |valid| && Redundant(valid, valid[i], p)|
    && m.eventConflicts == |set i | 0 <= i < |valid| && !OneContent(valid, valid[i], p)|
    && m.sequenceConflicts == |set i | 0 <= i < |valid| && Rivalled(valid, valid[i], p)|
  }

  /** The non-empty table names of all records read, in alphabetical order. */
  ghost predicate Tables(names: seq<string>, fs: seq<File>) {
    && (forall t :: t in names <==> t != "" && exists r :: Reads(fs, r) && r.change.table == t)
    && forall i, j :: 0 <= i < j < |names| ==> StringLe(names[i], names[j]) && names[i] != names[j]
  }

  /** The answer of a run, in full, for the records that pass validation. */
  ghost predicate RunAnswers(result: RunResult, fs: seq<File>, valid: seq<Record>, rules: Rules, p: Primitives,
                             digest: Digest) {
    && Validated(fs, valid, rules)
    && AcceptedAnswer(result.accepted, valid, p)
    && (forall q :: q in result.quarantine <==> Belongs(q, fs, valid, rules, p))
    && InQuarantineOrder(result.quarantine, digest)
    && Totals(result.metrics, result, fs) && VerdictCounts(result.metrics, valid, p)
    && Tables(result.metrics.tablesSeen, fs) && Ranges(result.metrics, result.accepted)
  }

  lemma ValidatedIs(fs: seq<File>, rules: Rules)
    ensures Validated(fs, ValidRecords(ReadRecords(fs), rules), rules)
  {
    ValidUniqueOrders(fs, rules);
    forall r ensures r in ReadRecords(fs) <==> Reads(fs, r) {
      RecordsAre(fs, r);
    }
    hide Reads, ReadRecords;
  }

  lemma RejectedMembers(rs: seq<Record>, rules: Rules, q: Quarantined)
    ensures q in Rejected(rs, rules)
            <==> exists r :: r in rs && rules(r.change).Some? && Quarantines(q, rules(r.change).value, r)
  {
    var out := InvalidRecords(rs, rules);
    if q in Rejected(rs, rules) {
      var i :| 0 <= i < |out| && Rejected(rs, rules)[i] == q;
      assert out[i] in out;
    }
    if r :| r in rs && rules(r.change).Some? && Quarantines(q, rules(r.change).value, r) {
      var i :| 0 <= i < |out| && out[i] == r;
      assert Rejected(rs, rules)[i] == q;
    }
  }

  lemma RefusedIs(fs: seq<File>, rules: Rules, q: Quarantined)
    ensures q in Rejected(ReadRecords(fs), rules) <==> Refuses(fs, q, rules)
  {
    RejectedMembers(ReadRecords(fs), rules, q);
    forall r ensures r in ReadRecords(fs) <==> Reads(fs, r) {
      RecordsAre(fs, r);
    }
    hide Reads, ReadRecords, Rejected, Quarantines;
  }

  lemma QuarantineOrderIs(a: Quarantined, b: Quarantined, digest: Digest)
    requires QuarantineLe(a, b, digest)
    ensures QuarantinedBefore(a, b, digest)
  {
    StringCases(a.table, b.table, a.table);
    StringCases(a.eventId, b.eventId, a.eventId);
    StringCases(a.code, b.code, a.code);
    StringCases(digest(a.raw), digest(b.raw), digest(a.raw));
    StringCases(a.sourceFile, b.sourceFile, a.sourceFile);
    hide StringLe;
  }

  lemma CollatedMembers(fs: seq<File>, rules: Rules, p: Primitives, q: Quarantined)
    ensures q in Collated(fs, rules, p) <==> Belongs(q, fs, ValidRecords(ReadRecords(fs), rules), rules, p)
  {
    MalformedAre(fs, q);
    RefusedIs(fs, rules, q);
    QuarantineIs(ValidRecords(ReadRecords(fs), rules), p);
    hide Breaks, Refuses, Rejects, Process, ReadMalformed, Rejected, ReadRecords, ValidRecords;
  }

  lemma SortedMembers(fs: seq<File>, rules: Rules, p: Primitives, digest: Digest, q: Quarantined)
    ensures q in Normalize(fs, rules, p, digest).quarantine
            <==> Belongs(q, fs, ValidRecords(ReadRecords(fs), rules), rules, p)
  {
    CollatedMembers(fs, rules, p, q);
    SortMembers(Collated(fs, rules, p), (a: Quarantined, b: Quarantined) => QuarantineLe(a, b, digest));
    hide Belongs, Collated, ReadRecords, ValidRecords, Process, Sort;
  }

  lemma SortedInOrder(all: seq<Quarantined>, digest: Digest)
    ensures InQuarantineOrder(QuarantineSorted(all, digest), digest)
  {
    var sorted := QuarantineSorted(all, digest);
    var le := (a: Quarantined, b: Quarantined) => QuarantineLe(a, b, digest);
    QuarantineLeOrder(digest);
    SortSorted(all, le);
    hide Sort, QuarantinedBefore, QuarantineLe, QuarantineSorted;
    forall i, j | 0 <= i < j < |sorted| ensures QuarantinedBefore(sorted[i], sorted[j], digest) {
      assert le(sorted[i], sorted[j]);
      QuarantineOrderIs(sorted[i], sorted[j], digest);
    }
  }

  lemma TablesAre(fs: seq<File>)
    ensures Tables(TablesSeen(ReadRecords(fs)), fs)
  {
    forall r ensures r in ReadRecords(fs) <==> Reads(fs, r) {
      RecordsAre(fs, r);
    }
    TablesSeenAre(ReadRecords(fs), "");
    forall t
      ensures t in TablesSeen(ReadRecords(fs)) <==> t != "" && exists r :: Reads(fs, r) && r.change.table == t
    {
      TablesSeenAre(ReadRecords(fs), t);
    }
    hide Reads, ReadRecords, TablesSeen;
  }

  lemma RangesAre(m: Metrics, accepted: seq<Event>)
    requires m.minSequence == MinSequences(accepted) && m.maxSequence == MaxSequences(accepted)
    ensures Ranges(m, accepted)
  {
    forall table: string
      ensures table in m.minSequence <==> exists e :: e in accepted && e.change.table == table
      ensures table in m.maxSequence <==> table in m.minSequence
      ensures forall e :: e in accepted && e.change.table == table ==>
        m.minSequence[table] <= e.change.sequence <= m.maxSequence[table]
      ensures table in m.minSequence ==>
        exists e :: e in accepted && e.change.table == table && e.change.sequence == m.minSequence[table]
      ensures table in m.minSequence ==>
        exists e :: e in accepted && e.change.table == table && e.change.sequence == m.maxSequence[table]
    {
      SequenceRanges(accepted, table);
    }
  }

  lemma QuarantineEmpty(all: seq<Quarantined>, digest: Digest)
    ensures QuarantineSorted(all, digest) == [] <==> all == []
  {
    SortMembers(all, (a: Quarantined, b: Quarantined) => QuarantineLe(a, b, digest));
    SameEmptiness(all, QuarantineSorted(all, digest));
  }

  lemma TotalsAre(fs: seq<File>, rules: Rules, p: Primitives, digest: Digest)
    ensures var result := Normalize(fs, rules, p, digest); Totals(result.metrics, result, fs)
  {
    hide Collated, Process, ReadRecords, ValidRecords, TablesSeen, MinSequences, MaxSequences, ReadMalformed, FilledAll;
    hide LinesWhere, QuarantineSorted;
    var result, all := Normalize(fs, rules, p, digest), Collated(fs, rules, p);
    RunConserves(fs, rules, p, digest);
    ReadSizes(fs);
    QuarantineEmpty(all, digest);
  }

  lemma VerdictsCounted(fs: seq<File>, rules: Rules, p: Primitives, digest: Digest)
    ensures VerdictCounts(Normalize(fs, rules, p, digest).metrics, ValidRecords(ReadRecords(fs), rules), p)
  {
    ProcessAnswers(ValidRecords(ReadRecords(fs), rules), p);
    hide Collated, Process, ReadRecords, ValidRecords, TablesSeen, MinSequences, MaxSequences, QuarantineSorted,
      OneContent, Redundant, Rivalled, AcceptedAnswer, QuarantineAnswer, ReadMalformed;
  }

  lemma SameEmptiness<T>(a: seq<T>, b: seq<T>)
    requires forall x :: x in a <==> x in b
    ensures a == [] <==> b == []
  {
    if a != [] {
      assert a[0] in a;
    }
    if b != [] {
      assert b[0] in b;
    }
  }

  /** What a run answers about any files: the accepted list, the sorted quarantine and every metric. */
  lemma RunIsAnswered(fs: seq<File>, rules: Rules, p: Primitives, digest: Digest)
    ensures RunAnswers(Normalize(fs, rules, p, digest), fs, ValidRecords(ReadRecords(fs), rules), rules, p, digest)
  {
    var result := Normalize(fs, rules, p, digest);
    ValidatedIs(fs, rules);
    ProcessAnswers(ValidRecords(ReadRecords(fs), rules), p);
    forall q
      ensures q in result.quarantine <==> Belongs(q, fs, ValidRecords(ReadRecords(fs), rules), rules, p)
    {
      SortedMembers(fs, rules, p, digest, q);
    }
    SortedInOrder(Collated(fs, rules, p), digest);
    TotalsAre(fs, rules, p, digest);
    VerdictsCounted(fs, rules, p, digest);
    TablesAre(fs);
    RangesAre(result.metrics, result.accepted);
    hide ValidRecords, ReadRecords, Process, Validated, AcceptedAnswer, Belongs, InQuarantineOrder, Totals,
      VerdictCounts, Tables, Ranges, QuarantineAnswer, CountsAnswer, Collated, TablesSeen, MinSequences, MaxSequences,
      ReadMalformed, QuarantineSorted;
  }
}
