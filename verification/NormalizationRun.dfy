/** A whole normalization run: reading, validation, processing, and the sorted quarantine
    (src/normalization/pipeline.py:42-159). Nothing is lost, and the order of the input files does not matter. */
module NormalizationRun {
  import opened Cdc
  import opened Ordering
  import opened Normalization
  import opened NormalizationOrder

  type Digest = Raw -> string

  /** The quarantine sort key: table, event id, code, content digest, source file. */
  predicate QuarantineLe(a: Quarantined, b: Quarantined, digest: Digest) {
    if a.table != b.table then StringLe(a.table, b.table)
    else if a.eventId != b.eventId then StringLe(a.eventId, b.eventId)
    else if a.code != b.code then StringLe(a.code, b.code)
    else if digest(a.raw) != digest(b.raw) then StringLe(digest(a.raw), digest(b.raw))
    else StringLe(a.sourceFile, b.sourceFile)
  }

  function QuarantineSorted(q: seq<Quarantined>, digest: Digest): seq<Quarantined> {
    Sort(q, (a: Quarantined, b: Quarantined) => QuarantineLe(a, b, digest))
  }

  datatype Metrics = Metrics(
    rawSeen: nat, parsed: nat, accepted: nat, dropped: nat, quarantined: nat, malformed: nat,
    eventConflicts: nat, sequenceConflicts: nat, tablesSeen: seq<string>,
    minSequence: map<string, int>, maxSequence: map<string, int>, withQuarantine: bool)

  datatype RunResult = RunResult(accepted: seq<Event>, quarantine: seq<Quarantined>, metrics: Metrics)

  function Collated(fs: seq<File>, rules: Rules, p: Primitives): seq<Quarantined> {
    var rs := ReadRecords(fs);
    ReadMalformed(fs) + Rejected(rs, rules) + Process(ValidRecords(rs, rules), p).quarantined
  }

  /** The non-empty table names among the parsed records, sorted. */
  function TablesSeen(rs: seq<Record>): seq<string> {
    Sort(Dedupe(Filter(Map(rs, (r: Record) => r.change.table), (t: string) => t != "")), StringLe)
  }

  /** The lowest, and the highest, sequence number per table. */
  function MinSequences(es: seq<Event>): map<string, int> {
    if es == [] then map[]
    else
      var m, e := MinSequences(es[..|es| - 1]), es[|es| - 1];
      if e.change.table in m && m[e.change.table] <= e.Sequence() then m else m[e.change.table := e.Sequence()]
  }

  function MaxSequences(es: seq<Event>): map<string, int> {
    if es == [] then map[]
    else
      var m, e := MaxSequences(es[..|es| - 1]), es[|es| - 1];
      if e.change.table in m && m[e.change.table] >= e.Sequence() then m else m[e.change.table := e.Sequence()]
  }

  /** Each table of the list has its attained bounds, and no other table has any. */
  lemma {:induction false} SequenceRanges(es: seq<Event>, table: string)
    ensures table in MinSequences(es) <==> exists e :: e in es && e.change.table == table
    ensures table in MaxSequences(es) <==> table in MinSequences(es)
    ensures forall e :: e in es && e.change.table == table ==>
      MinSequences(es)[table] <= e.Sequence() <= MaxSequences(es)[table]
    ensures table in MinSequences(es) ==>
      exists e :: e in es && e.change.table == table && e.Sequence() == MinSequences(es)[table]
    ensures table in MinSequences(es) ==>
      exists e :: e in es && e.change.table == table && e.Sequence() == MaxSequences(es)[table]
  {
    if es != [] {
      assert es == es[..|es| - 1] + [es[|es| - 1]];
      SequenceRanges(es[..|es| - 1], table);
    }
  }

  function Normalize(fs: seq<File>, rules: Rules, p: Primitives, digest: Digest): RunResult {
    var rs := ReadRecords(fs);
    var out := Process(ValidRecords(rs, rules), p);
    var all := Collated(fs, rules, p);
    RunResult(out.accepted, QuarantineSorted(all, digest),
           Metrics(|rs| + |ReadMalformed(fs)|, |rs|, |out.accepted|, out.dropped, |all|, |ReadMalformed(fs)|,
                   out.eventConflicts, out.sequenceConflicts, TablesSeen(rs), MinSequences(out.accepted),
                   MaxSequences(out.accepted), all != []))
  }

  lemma {:induction false} FilterUniqueOrders(rs: seq<Record>, keep: Record -> bool)
    requires UniqueOrders(rs)
    ensures UniqueOrders(Filter(rs, keep))
  {
    if rs != [] {
      var init := rs[..|rs| - 1];
      FilterUniqueOrders(init, keep);
      forall r | r in Filter(init, keep) ensures r.order != rs[|rs| - 1].order {
        var i :| 0 <= i < |init| && init[i] == r;
        assert rs[i] == r;
      }
      assert forall i :: 0 <= i < |Filter(init, keep)| ==> Filter(init, keep)[i] in Filter(init, keep);
    }
  }

  lemma ValidUniqueOrders(fs: seq<File>, rules: Rules)
    ensures UniqueOrders(ValidRecords(ReadRecords(fs), rules))
  {
    ReadUniqueOrders(fs);
    FilterUniqueOrders(ReadRecords(fs), (r: Record) => rules(r.change).None?);
  }

  // ---- Conservation ----

  lemma ValidOrNot(rs: seq<Record>, rules: Rules)
    ensures |ValidRecords(rs, rules)| + |InvalidRecords(rs, rules)| == |rs|
  {
    var kept, dropped := ValidRecords(rs, rules), InvalidRecords(rs, rules);
    forall r ensures (multiset(kept) + multiset(dropped))[r] == multiset(rs)[r] {
      FilterCounts(rs, (r: Record) => rules(r.change).None?, r);
      FilterCounts(rs, (r: Record) => rules(r.change).Some?, r);
      match rules(r.change)
      case None =>
      case Some(_) =>
    }
    assert multiset(kept) + multiset(dropped) == multiset(rs);
    assert |multiset(kept) + multiset(dropped)| == |multiset(rs)| == |rs|;
    assert |multiset(kept)| == |kept| && |multiset(dropped)| == |dropped|;
  }

  /** Conservation over a whole run: every raw record seen is accepted, dropped as an exact duplicate,
      or quarantined. */
  lemma RunConserves(fs: seq<File>, rules: Rules, p: Primitives, digest: Digest)
    ensures var m := Normalize(fs, rules, p, digest).metrics;
      && m.rawSeen == m.accepted + m.dropped + m.quarantined
      && m.rawSeen == FilledAll(fs)
      && m.quarantined == |Normalize(fs, rules, p, digest).quarantine|
  {
    var rs := ReadRecords(fs);
    RawSeen(fs);
    ValidOrNot(rs, rules);
    Conservation(ValidRecords(rs, rules), p);
    SortMembers(Collated(fs, rules, p), (a: Quarantined, b: Quarantined) => QuarantineLe(a, b, digest));
  }

  // ---- The quarantine order ----

  predicate Tied(a: Quarantined, b: Quarantined, digest: Digest) {
    && a.table == b.table && a.eventId == b.eventId && a.code == b.code
    && digest(a.raw) == digest(b.raw) && a.sourceFile == b.sourceFile
  }

  /** The sort key completed by the line number. */
  predicate LineLe(a: Quarantined, b: Quarantined, digest: Digest) {
    if Tied(a, b, digest) then a.line <= b.line else QuarantineLe(a, b, digest)
  }

  lemma QuarantineLeOrder(digest: Digest)
    ensures TotalPreorder((a: Quarantined, b: Quarantined) => QuarantineLe(a, b, digest))
    ensures forall a, b :: QuarantineLe(a, b, digest) && QuarantineLe(b, a, digest) ==> Tied(a, b, digest)
  {
    forall a: Quarantined, b: Quarantined
      ensures QuarantineLe(a, b, digest) || QuarantineLe(b, a, digest)
      ensures QuarantineLe(a, b, digest) && QuarantineLe(b, a, digest) ==> Tied(a, b, digest)
    {
      KeyCases(a, b, b, digest);
    }
    forall a: Quarantined, b: Quarantined, c: Quarantined | QuarantineLe(a, b, digest) && QuarantineLe(b, c, digest)
      ensures QuarantineLe(a, c, digest)
    {
      KeyCases(a, b, c, digest);
    }
  }

  lemma KeyCases(a: Quarantined, b: Quarantined, c: Quarantined, digest: Digest)
    ensures QuarantineLe(a, b, digest) || QuarantineLe(b, a, digest)
    ensures QuarantineLe(a, b, digest) && QuarantineLe(b, a, digest) ==> Tied(a, b, digest)
    ensures QuarantineLe(a, b, digest) && QuarantineLe(b, c, digest) ==> QuarantineLe(a, c, digest)
  {
    StringCases(a.table, b.table, c.table);
    StringCases(a.eventId, b.eventId, c.eventId);
    StringCases(a.code, b.code, c.code);
    StringCases(digest(a.raw), digest(b.raw), digest(c.raw));
    StringCases(a.sourceFile, b.sourceFile, c.sourceFile);
  }

  lemma LineLeOrder(digest: Digest)
    ensures TotalPreorder((a: Quarantined, b: Quarantined) => LineLe(a, b, digest))
  {
    forall a: Quarantined, b: Quarantined ensures LineLe(a, b, digest) || LineLe(b, a, digest) {
      KeyCases(a, b, b, digest);
    }
    forall a: Quarantined, b: Quarantined, c: Quarantined | LineLe(a, b, digest) && LineLe(b, c, digest)
      ensures LineLe(a, c, digest)
    {
      LineCases(a, b, c, digest);
    }
  }

  lemma TiedLe(a: Quarantined, b: Quarantined, c: Quarantined, digest: Digest)
    requires Tied(a, b, digest)
    ensures QuarantineLe(a, c, digest) == QuarantineLe(b, c, digest)
    ensures QuarantineLe(c, a, digest) == QuarantineLe(c, b, digest)
    ensures Tied(a, c, digest) == Tied(b, c, digest) && QuarantineLe(a, b, digest)
  {
    StringCases(a.sourceFile, b.sourceFile, "");
  }

  lemma LineCases(a: Quarantined, b: Quarantined, c: Quarantined, digest: Digest)
    requires LineLe(a, b, digest) && LineLe(b, c, digest)
    ensures LineLe(a, c, digest)
  {
    KeyCases(a, b, c, digest);
    KeyCases(b, c, b, digest);
    if Tied(a, b, digest) {
      TiedLe(a, b, c, digest);
    } else if Tied(b, c, digest) {
      TiedLe(c, b, a, digest);
    } else if Tied(a, c, digest) {
      TiedLe(a, c, b, digest);
      assert false;
    }
  }

  // ---- The collated list keeps ties in line order ----

  /** Digests identify content, and no validation rule reports a malformed line. */
  ghost predicate Faithful(digest: Digest, rules: Rules) {
    && (forall a, b :: digest(a) == digest(b) ==> a == b)
    && (forall c :: rules(c) != Some(MALFORMED_JSON))
  }

  ghost predicate LinesInOrder(qs: seq<Quarantined>) {
    forall i, j :: 0 <= i < j < |qs| && qs[i].sourceFile == qs[j].sourceFile ==> qs[i].line < qs[j].line
  }

  lemma {:induction false} MalformedFile(f: File, n: nat)
    requires n <= |f.lines|
    ensures LinesInOrder(MalformedIn(f, n))
    ensures forall q :: q in MalformedIn(f, n) ==>
      q.sourceFile == f.logicalId && 1 <= q.line <= n && q.code == MALFORMED_JSON
  {
    if n > 0 {
      MalformedFile(f, n - 1);
      var before := MalformedIn(f, n - 1);
      assert forall i :: 0 <= i < |before| ==> before[i] in before;
    }
  }

  lemma {:induction false} MalformedOrder(fs: seq<File>)
    requires DistinctIds(fs)
    ensures LinesInOrder(ReadMalformed(fs))
    ensures forall q :: q in ReadMalformed(fs) ==>
      q.code == MALFORMED_JSON && exists i :: 0 <= i < |fs| && q.sourceFile == fs[i].logicalId
  {
    if fs != [] {
      var init, last := fs[..|fs| - 1], fs[|fs| - 1];
      MalformedOrder(init);
      MalformedFile(last, |last.lines|);
      var before, after := ReadMalformed(init), MalformedIn(last, |last.lines|);
      assert forall i :: 0 <= i < |before| ==> before[i] in before;
      assert forall i :: 0 <= i < |after| ==> after[i] in after;
      forall q | q in before ensures q.sourceFile != last.logicalId {
        var i :| 0 <= i < |init| && q.sourceFile == init[i].logicalId;
        assert fs[i] == init[i];
      }
      forall q | q in ReadMalformed(fs)
        ensures q.code == MALFORMED_JSON && exists i :: 0 <= i < |fs| && q.sourceFile == fs[i].logicalId
      {
        if q in before {
          var i :| 0 <= i < |init| && q.sourceFile == init[i].logicalId;
          assert fs[i] == init[i];
        } else {
          assert q in after && fs[|fs| - 1] == last;
        }
      }
    }
  }

  /** A quarantined record, as opposed to an unparsed line, is determined by its code, content and source file. */
  predicate OfRecord(q: Quarantined) {
    q.code != MALFORMED_JSON && q.raw.Fields? && q.line == 0 && q.eventId == q.raw.change.eventId
    && q.table == q.raw.change.table && q.batchId == q.raw.batchId
  }

  lemma RecordsQuarantined(rs: seq<Record>, rules: Rules, p: Primitives, digest: Digest)
    requires Faithful(digest, rules)
    ensures forall q :: q in Rejected(rs, rules) ==> OfRecord(q)
    ensures forall q :: q in Process(rs, p).quarantined ==> OfRecord(q)
  {
    forall q | q in Rejected(rs, rules) ensures OfRecord(q) {
      var i :| 0 <= i < |InvalidRecords(rs, rules)| && Rejected(rs, rules)[i] == q;
      assert InvalidRecords(rs, rules)[i] in InvalidRecords(rs, rules);
    }
    CodesDiffer();
    QuarantinedOfRecord(DUPLICATE_EVENT_CONFLICT, With(Enrich(rs, p), EVENT_CONFLICT));
    QuarantinedOfRecord(EQUAL_SEQUENCE_CONFLICT, With(Enrich(rs, p), SEQUENCE_CONFLICT));
    hide Rejected, QuarantineAll, With, Enrich, OfRecord, Accepted;
  }

  lemma CodesDiffer()
    ensures DUPLICATE_EVENT_CONFLICT != MALFORMED_JSON && EQUAL_SEQUENCE_CONFLICT != MALFORMED_JSON
  {
    assert DUPLICATE_EVENT_CONFLICT[0] != MALFORMED_JSON[0] && EQUAL_SEQUENCE_CONFLICT[0] != MALFORMED_JSON[0];
  }

  lemma QuarantinedOfRecord(code: string, es: seq<Enriched>)
    requires code != MALFORMED_JSON
    ensures forall q :: q in QuarantineAll(code, es) ==> OfRecord(q)
  {}

  lemma CollatedShape(fs: seq<File>, rules: Rules, p: Primitives, digest: Digest)
    requires Faithful(digest, rules) && DistinctIds(fs)
    ensures forall i, j ::
      0 <= i < j < |Collated(fs, rules, p)| && Tied(Collated(fs, rules, p)[i], Collated(fs, rules, p)[j], digest) ==>
      LineLe(Collated(fs, rules, p)[i], Collated(fs, rules, p)[j], digest)
    ensures forall x, y ::
      x in Collated(fs, rules, p) && y in Collated(fs, rules, p) && Tied(x, y, digest) && x.line == y.line ==> x == y
  {
    var rs := ReadRecords(fs);
    var m, v, k := ReadMalformed(fs), Rejected(rs, rules), Process(ValidRecords(rs, rules), p).quarantined;
    MalformedOrder(fs);
    RecordsQuarantined(rs, rules, p, digest);
    RecordsQuarantined(ValidRecords(rs, rules), rules, p, digest);
    SplitShape(m, v + k, digest);
    assert m + v + k == m + (v + k);
  }

  lemma SplitShape(m: seq<Quarantined>, o: seq<Quarantined>, digest: Digest)
    requires LinesInOrder(m) && (forall q :: q in m ==> q.code == MALFORMED_JSON)
    requires forall q :: q in o ==> OfRecord(q)
    requires forall a, b :: digest(a) == digest(b) ==> a == b
    ensures forall i, j :: 0 <= i < j < |m + o| && Tied((m + o)[i], (m + o)[j], digest) ==>
      LineLe((m + o)[i], (m + o)[j], digest)
    ensures forall x, y :: x in m + o && y in m + o && Tied(x, y, digest) && x.line == y.line ==> x == y
  {
    var q := m + o;
    assert forall i :: 0 <= i < |m| ==> q[i] == m[i] && m[i] in m;
    assert forall i :: |m| <= i < |q| ==> q[i] == o[i - |m|] && o[i - |m|] in o;
    forall x, y | x in q && y in q && Tied(x, y, digest) && x.line == y.line ensures x == y {
      if x in m {
        var i :| 0 <= i < |m| && m[i] == x;
        var j :| 0 <= j < |m| && m[j] == y;
      }
    }
  }

  ghost predicate TiesInLineOrder(q: seq<Quarantined>, digest: Digest) {
    forall i, j :: 0 <= i < j < |q| && Tied(q[i], q[j], digest) ==> LineLe(q[i], q[j], digest)
  }

  lemma SortCollated(q: seq<Quarantined>, digest: Digest)
    requires TiesInLineOrder(q, digest)
    ensures Sorted(QuarantineSorted(q, digest), (a: Quarantined, b: Quarantined) => LineLe(a, b, digest))
    ensures multiset(QuarantineSorted(q, digest)) == multiset(q)
  {
    var le := (a: Quarantined, b: Quarantined) => QuarantineLe(a, b, digest);
    var finer := (a: Quarantined, b: Quarantined) => LineLe(a, b, digest);
    QuarantineLeOrder(digest);
    LineLeOrder(digest);
    forall a, b | le(a, b) && !le(b, a) ensures finer(a, b) {
      if Tied(a, b, digest) {
        TiedLe(a, b, a, digest);
        KeyCases(a, a, a, digest);
      }
    }
    SortStable(q, le, finer);
    SortPermutes(q, le);
  }

  /** Two collations of the same rows sort to the same list. */
  lemma SameSorted(x: seq<Quarantined>, y: seq<Quarantined>, digest: Digest)
    requires multiset(x) == multiset(y) && TiesInLineOrder(x, digest) && TiesInLineOrder(y, digest)
    requires forall a, b :: a in x && b in x && Tied(a, b, digest) && a.line == b.line ==> a == b
    ensures QuarantineSorted(x, digest) == QuarantineSorted(y, digest)
  {
    var finer := (a: Quarantined, b: Quarantined) => LineLe(a, b, digest);
    SortCollated(x, digest);
    SortCollated(y, digest);
    LineLeOrder(digest);
    QuarantineLeOrder(digest);
    forall a, b | a in QuarantineSorted(x, digest) && b in QuarantineSorted(x, digest) && finer(a, b) && finer(b, a)
      ensures a == b
    {
      SameMultisetMembers(QuarantineSorted(x, digest), x, a);
      SameMultisetMembers(QuarantineSorted(x, digest), x, b);
    }
    SortedUnique(QuarantineSorted(x, digest), QuarantineSorted(y, digest), finer);
  }

  /** The order in which files are given changes neither the accepted list, nor the quarantine list, nor any count. */
  lemma RunIgnoresFileOrder(fs: seq<File>, gs: seq<File>, rules: Rules, p: Primitives, digest: Digest)
    requires DistinctIds(fs) && DistinctIds(gs) && multiset(fs) == multiset(gs) && Faithful(digest, rules)
    ensures Normalize(fs, rules, p, digest) == Normalize(gs, rules, p, digest)
  {
    hide Faithful, DistinctIds, Process, QuarantineSorted, TablesSeen, MinSequences, MaxSequences, ReadRecords,
      ReadMalformed, Rejected, ValidRecords, QuarantineLe, Tied;
    var x, y := Collated(fs, rules, p), Collated(gs, rules, p);
    FileOrderIrrelevant(fs, gs, rules, p);
    CollatedShape(fs, rules, p, digest);
    CollatedShape(gs, rules, p, digest);
    SameSorted(x, y, digest);
    SameSizes(fs, gs, rules, p);
    SameTables(fs, gs);
  }

  lemma TablesSeenAre(rs: seq<Record>, t: string)
    ensures t in TablesSeen(rs) <==> t != "" && exists r :: r in rs && r.change.table == t
    ensures Distinct(TablesSeen(rs)) && Sorted(TablesSeen(rs), StringLe)
  {
    var names := Map(rs, (r: Record) => r.change.table);
    var kept := Dedupe(Filter(names, (t: string) => t != ""));
    StringLeTotalPreorder();
    SortSorted(kept, StringLe);
    SortPermutes(kept, StringLe);
    PermutationDistinct(kept, TablesSeen(rs));
    SortMembers(kept, StringLe);
    if t in names {
      var i :| 0 <= i < |names| && names[i] == t;
      assert rs[i] in rs;
    }
    if r :| r in rs && r.change.table == t {
      var i :| 0 <= i < |rs| && rs[i] == r;
      assert names[i] == t;
    }
  }

  lemma SameTables(fs: seq<File>, gs: seq<File>)
    requires multiset(fs) == multiset(gs)
    ensures TablesSeen(ReadRecords(fs)) == TablesSeen(ReadRecords(gs))
  {
    var a, b := ReadRecords(fs), ReadRecords(gs);
    ReadingPermuted(fs, gs);
    forall t ensures t in TablesSeen(a) <==> t in TablesSeen(b) {
      TablesSeenAre(a, t);
      TablesSeenAre(b, t);
      TablesForgotten(a, b, t);
      TablesForgotten(b, a, t);
    }
    TablesSeenAre(a, "");
    TablesSeenAre(b, "");
    StringLeTotalPreorder();
    hide TablesSeen;
    DistinctSameMembers(TablesSeen(a), TablesSeen(b));
    SortedUnique(TablesSeen(a), TablesSeen(b), StringLe);
  }

  lemma TablesForgotten(a: seq<Record>, b: seq<Record>, t: string)
    requires multiset(Forgotten(a)) == multiset(Forgotten(b))
    ensures (exists r :: r in a && r.change.table == t) ==> exists r :: r in b && r.change.table == t
  {
    if r :| r in a && r.change.table == t {
      var i :| 0 <= i < |a| && a[i] == r;
      assert Forgotten(a)[i] == Forget(r);
      SameMultisetMembers(Forgotten(a), Forgotten(b), Forget(r));
      var j :| 0 <= j < |b| && Forgotten(b)[j] == Forget(r);
      assert b[j].change.table == t;
    }
  }

  lemma SameSizes(fs: seq<File>, gs: seq<File>, rules: Rules, p: Primitives)
    requires multiset(fs) == multiset(gs) && multiset(ReadMalformed(fs)) == multiset(ReadMalformed(gs))
    requires multiset(Collated(fs, rules, p)) == multiset(Collated(gs, rules, p))
    ensures |ReadMalformed(fs)| == |ReadMalformed(gs)| && |ReadRecords(fs)| == |ReadRecords(gs)|
    ensures |Collated(fs, rules, p)| == |Collated(gs, rules, p)|
  {
    ReadingPermuted(fs, gs);
    assert |multiset(ReadMalformed(fs))| == |multiset(ReadMalformed(gs))|;
    assert |multiset(Collated(fs, rules, p))| == |multiset(Collated(gs, rules, p))|;
    assert |multiset(Forgotten(ReadRecords(fs)))| == |multiset(Forgotten(ReadRecords(gs)))|;
  }
}
