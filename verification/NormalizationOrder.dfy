/** Normalization does not depend on the order of its input: neither on the order of the records nor on the order in
    which files with distinct logical ids are read, although reading another order renumbers every record
    (src/normalization/processor.py:148-219, reader.py:30-92). */
module NormalizationOrder {
  import opened Cdc
  import opened Ordering
  import opened Normalization

  // ---- Reading ----

  datatype Line = Blank | Malformed(text: string) | Parsed(change: Change, batchId: string)

  datatype File = File(logicalId: string, batchHint: string, lines: seq<Line>)

  /** The lines that count: everything but blank ones. */
  function Filled(lines: seq<Line>): nat {
    if lines == [] then 0 else Filled(lines[..|lines| - 1]) + if lines[|lines| - 1].Blank? then 0 else 1
  }

  /** The records of the first `n` lines of a file, numbered on from `start`. */
  function RecordsIn(f: File, n: nat, start: nat): seq<Record>
    requires n <= |f.lines|
  {
    if n == 0 then []
    else
      RecordsIn(f, n - 1, start) +
      match f.lines[n - 1]
      case Parsed(change, b) =>
        [Record(change, b, if b != "" then b else f.batchHint, f.logicalId, n, start + Filled(f.lines[..n]))]
      case _ => []
  }

  function MalformedIn(f: File, n: nat): seq<Quarantined>
    requires n <= |f.lines|
  {
    if n == 0 then []
    else
      MalformedIn(f, n - 1) +
      match f.lines[n - 1]
      case Malformed(text) => [Quarantined(MALFORMED_JSON, Unparsed(text), "", "", f.logicalId, f.batchHint, n)]
      case _ => []
  }

  function FilledAll(fs: seq<File>): nat {
    if fs == [] then 0 else FilledAll(fs[..|fs| - 1]) + Filled(fs[|fs| - 1].lines)
  }

  function ReadRecords(fs: seq<File>): seq<Record> {
    if fs == [] then []
    else
      var init, last := fs[..|fs| - 1], fs[|fs| - 1];
      ReadRecords(init) + RecordsIn(last, |last.lines|, FilledAll(init))
  }

  function ReadMalformed(fs: seq<File>): seq<Quarantined> {
    if fs == [] then []
    else ReadMalformed(fs[..|fs| - 1]) + MalformedIn(fs[|fs| - 1], |fs[|fs| - 1].lines|)
  }

  /** Every line that counts becomes one record or one quarantined line. */
  lemma {:induction false} LinesAreRead(f: File, n: nat, start: nat)
    requires n <= |f.lines|
    ensures |RecordsIn(f, n, start)| + |MalformedIn(f, n)| == Filled(f.lines[..n])
  {
    if n > 0 {
      LinesAreRead(f, n - 1, start);
      assert f.lines[..n][..n - 1] == f.lines[..n - 1];
    }
  }

  lemma {:induction false} RawSeen(fs: seq<File>)
    ensures |ReadRecords(fs)| + |ReadMalformed(fs)| == FilledAll(fs)
  {
    if fs != [] {
      var init, last := fs[..|fs| - 1], fs[|fs| - 1];
      RawSeen(init);
      LinesAreRead(last, |last.lines|, FilledAll(init));
      FullPrefix(last.lines);
    }
  }

  // ---- The numbering of a reading ----

  ghost predicate DistinctIds(fs: seq<File>) {
    forall i, j :: 0 <= i < j < |fs| ==> fs[i].logicalId != fs[j].logicalId
  }

  /** Records are numbered in order, and within one file by line. */
  ghost predicate InReadingOrder(rs: seq<Record>) {
    forall i, j :: 0 <= i < j < |rs| ==>
      rs[i].order < rs[j].order && (rs[i].sourceFile == rs[j].sourceFile ==> rs[i].line < rs[j].line)
  }

  lemma AppendInOrder(before: seq<Record>, r: Record)
    requires InReadingOrder(before) && forall q :: q in before ==> q.order < r.order && q.line < r.line
    ensures InReadingOrder(before + [r])
  {
    forall i | 0 <= i < |before| ensures before[i].order < r.order && before[i].line < r.line {
      assert before[i] in before;
    }
  }

  lemma {:induction false} FileOrder(f: File, n: nat, start: nat)
    requires n <= |f.lines|
    ensures InReadingOrder(RecordsIn(f, n, start))
    ensures forall r :: r in RecordsIn(f, n, start) ==>
      r.sourceFile == f.logicalId && 1 <= r.line <= n && start < r.order <= start + Filled(f.lines[..n])
  {
    if n > 0 {
      FileOrder(f, n - 1, start);
      assert f.lines[..n][..n - 1] == f.lines[..n - 1];
      var before := RecordsIn(f, n - 1, start);
      if f.lines[n - 1].Parsed? {
        var r := RecordsIn(f, n, start)[|before|];
        assert RecordsIn(f, n, start) == before + [r];
        AppendInOrder(before, r);
      }
      hide InReadingOrder;
    }
  }

  /** Whatever the file ids, no two records share an ingestion order number. */
  lemma {:induction false} ReadUniqueOrders(fs: seq<File>)
    ensures UniqueOrders(ReadRecords(fs)) && forall r :: r in ReadRecords(fs) ==> r.order <= FilledAll(fs)
  {
    if fs != [] {
      var init, last := fs[..|fs| - 1], fs[|fs| - 1];
      ReadUniqueOrders(init);
      FileOrder(last, |last.lines|, FilledAll(init));
      FullPrefix(last.lines);
      var before, after := ReadRecords(init), RecordsIn(last, |last.lines|, FilledAll(init));
      assert forall i :: 0 <= i < |before| ==> before[i] in before;
      assert forall i :: 0 <= i < |after| ==> after[i] in after;
    }
  }

  lemma {:induction false} ReadingOrder(fs: seq<File>)
    requires DistinctIds(fs)
    ensures InReadingOrder(ReadRecords(fs))
    ensures forall r :: r in ReadRecords(fs) ==>
      r.order <= FilledAll(fs) && exists i :: 0 <= i < |fs| && r.sourceFile == fs[i].logicalId
  {
    if fs != [] {
      var init, last := fs[..|fs| - 1], fs[|fs| - 1];
      ReadingOrder(init);
      FileOrder(last, |last.lines|, FilledAll(init));
      FullPrefix(last.lines);
      var before, after := ReadRecords(init), RecordsIn(last, |last.lines|, FilledAll(init));
      assert forall i :: 0 <= i < |before| ==> before[i] in before;
      assert forall i :: 0 <= i < |after| ==> after[i] in after;
      forall r | r in before ensures r.sourceFile != last.logicalId {
        var i :| 0 <= i < |init| && r.sourceFile == init[i].logicalId;
        assert fs[i] == init[i];
      }
      forall r | r in ReadRecords(fs)
        ensures r.order <= FilledAll(fs) && exists i :: 0 <= i < |fs| && r.sourceFile == fs[i].logicalId
      {
        if r in before {
          var i :| 0 <= i < |init| && r.sourceFile == init[i].logicalId;
          assert fs[i] == init[i];
        } else {
          assert r in after && fs[|fs| - 1] == last;
        }
      }
    }
  }

  // ---- Forgetting the numbering ----

  /** A record numbered by its line alone. */
  function Forget(r: Record): Record { r.(order := r.line) }

  function Forgotten(rs: seq<Record>): seq<Record> { Map(rs, (r: Record) => Forget(r)) }

  ghost predicate Aligned(es: seq<Enriched>, fs: seq<Enriched>) {
    && |es| == |fs|
    && (forall i :: 0 <= i < |es| ==> fs[i].event == es[i].event && fs[i].record == Forget(es[i].record))
    && (forall i, j :: 0 <= i < j < |es| ==>
          es[i].record.order < es[j].record.order
          && (es[i].record.sourceFile == es[j].record.sourceFile ==> es[i].record.line < es[j].record.line))
  }

  lemma LateSurvives(rs: seq<Record>, i: nat, p: Primitives)
    requires i < |rs|
    ensures IsLate(Forgotten(rs), Forget(rs[i]), p) == IsLate(rs, rs[i], p)
  {
    if s :| s in rs && StringLt(s.Batch(), rs[i].Batch()) && Earlier(rs[i], s, p) {
      var j :| 0 <= j < |rs| && rs[j] == s;
      assert Forgotten(rs)[j] in Forgotten(rs);
    }
    if s :| s in Forgotten(rs) && StringLt(s.Batch(), Forget(rs[i]).Batch()) && Earlier(Forget(rs[i]), s, p) {
      var j :| 0 <= j < |rs| && Forgotten(rs)[j] == s;
      assert rs[j] in rs;
    }
  }

  lemma EnrichAligned(rs: seq<Record>, p: Primitives)
    requires InReadingOrder(rs)
    ensures Aligned(Enrich(rs, p), Enrich(Forgotten(rs), p))
  {
    forall i | 0 <= i < |rs|
      ensures Enrich(Forgotten(rs), p)[i].event == Enrich(rs, p)[i].event
      ensures Enrich(Forgotten(rs), p)[i].record == Forget(Enrich(rs, p)[i].record)
    {
      LateSurvives(rs, i, p);
    }
  }

  lemma AlignedConflict(es: seq<Enriched>, fs: seq<Enriched>, i: nat)
    requires Aligned(es, fs) && i < |es|
    ensures Conflicted(es, es[i]) == Conflicted(fs, fs[i])
  {
    if f :| f in es && f.event.Id() == es[i].event.Id() && f.event.fingerprint != es[i].event.fingerprint {
      var j :| 0 <= j < |es| && es[j] == f;
      assert fs[j] in fs;
    }
    if f :| f in fs && f.event.Id() == fs[i].event.Id() && f.event.fingerprint != fs[i].event.fingerprint {
      var j :| 0 <= j < |fs| && fs[j] == f;
      assert es[j] in es;
    }
  }

  lemma AlignedProvenance(es: seq<Enriched>, fs: seq<Enriched>, i: nat, j: nat)
    requires Aligned(es, fs) && i < |es| && j < |es|
    ensures ProvenanceLe(es[i].record, es[j].record) == ProvenanceLe(fs[i].record, fs[j].record)
  {}

  lemma AlignedWins(es: seq<Enriched>, fs: seq<Enriched>, i: nat)
    requires Aligned(es, fs) && i < |es|
    ensures Wins(es, es[i]) == Wins(fs, fs[i])
  {
    forall j | 0 <= j < |es|
      ensures ProvenanceLe(es[i].record, es[j].record) == ProvenanceLe(fs[i].record, fs[j].record)
    {
      AlignedProvenance(es, fs, i, j);
    }
    if Wins(es, es[i]) {
      forall f | f in fs && f.event.Id() == fs[i].event.Id() ensures ProvenanceLe(fs[i].record, f.record) {
        var j :| 0 <= j < |fs| && fs[j] == f;
        assert es[j] in es;
      }
    }
    if Wins(fs, fs[i]) {
      forall f | f in es && f.event.Id() == es[i].event.Id() ensures ProvenanceLe(es[i].record, f.record) {
        var j :| 0 <= j < |es| && es[j] == f;
        assert fs[j] in fs;
      }
    }
  }

  lemma AlignedCollides(es: seq<Enriched>, fs: seq<Enriched>, i: nat)
    requires Aligned(es, fs) && i < |es|
    requires forall j :: 0 <= j < |es| ==> Retained(es, es[j]) == Retained(fs, fs[j])
    ensures Collides(es, es[i]) == Collides(fs, fs[i])
  {
    if f :| f in es && f != es[i] && Retained(es, f) && SameSlot(es[i].event, f.event) {
      var j :| 0 <= j < |es| && es[j] == f;
      assert fs[j] in fs && fs[j] != fs[i];
    }
    if f :| f in fs && f != fs[i] && Retained(fs, f) && SameSlot(fs[i].event, f.event) {
      var j :| 0 <= j < |fs| && fs[j] == f;
      assert es[j] in es && es[j] != es[i];
    }
  }

  lemma AlignedVerdicts(es: seq<Enriched>, fs: seq<Enriched>)
    requires Aligned(es, fs)
    ensures forall i :: 0 <= i < |es| ==> VerdictOf(es, es[i]) == VerdictOf(fs, fs[i])
  {
    forall j | 0 <= j < |es|
      ensures Conflicted(es, es[j]) == Conflicted(fs, fs[j]) && Wins(es, es[j]) == Wins(fs, fs[j])
    {
      AlignedConflict(es, fs, j);
      AlignedWins(es, fs, j);
    }
    forall i | 0 <= i < |es| ensures VerdictOf(es, es[i]) == VerdictOf(fs, fs[i]) {
      AlignedCollides(es, fs, i);
    }
  }

  /** The numbering drops out of everything a verdict list shows. */
  lemma AlignedLists(es: seq<Enriched>, fs: seq<Enriched>, v: Verdict, code: string)
    requires Aligned(es, fs)
    ensures EventsOf(With(es, v)) == EventsOf(With(fs, v))
    ensures QuarantineAll(code, With(es, v)) == QuarantineAll(code, With(fs, v))
    ensures |With(es, v)| == |With(fs, v)|
  {
    AlignedVerdicts(es, fs);
    FilterAligned(es, fs, (e: Enriched) => VerdictOf(es, e) == v, (e: Enriched) => VerdictOf(fs, e) == v,
                  (e: Enriched) => e.event, (e: Enriched) => e.event);
    FilterAligned(es, fs, (e: Enriched) => VerdictOf(es, e) == v, (e: Enriched) => VerdictOf(fs, e) == v,
                  (e: Enriched) => QuarantineOf(code, e.record), (e: Enriched) => QuarantineOf(code, e.record));
    assert |EventsOf(With(es, v))| == |With(es, v)| && |EventsOf(With(fs, v))| == |With(fs, v)|;
  }

  // ---- Permuting records ----

  lemma SameMembersSameVerdict(a: seq<Enriched>, b: seq<Enriched>, e: Enriched)
    requires forall x :: x in a <==> x in b
    ensures VerdictOf(a, e) == VerdictOf(b, e)
  {
    assert forall x :: Conflicted(a, x) == Conflicted(b, x);
    assert forall x :: Wins(a, x) == Wins(b, x);
    assert forall x :: Retained(a, x) == Retained(b, x);
  }

  lemma PermutedEnrich(a: seq<Record>, b: seq<Record>, p: Primitives)
    requires multiset(a) == multiset(b)
    ensures multiset(Enrich(a, p)) == multiset(Enrich(b, p))
  {
    forall r ensures r in a <==> r in b {
      SameMultisetMembers(a, b, r);
    }
    forall r ensures IsLate(a, r, p) == IsLate(b, r, p) {}
    MapPermutes(a, b, (r: Record) => EnrichWith(r, IsLate(a, r, p), p));
    assert Enrich(b, p) == Map(b, (r: Record) => EnrichWith(r, IsLate(a, r, p), p));
  }

  lemma PermutedLists(a: seq<Enriched>, b: seq<Enriched>, v: Verdict)
    requires multiset(a) == multiset(b)
    ensures multiset(With(a, v)) == multiset(With(b, v))
  {
    forall x ensures x in a <==> x in b {
      SameMultisetMembers(a, b, x);
    }
    forall x ensures VerdictOf(a, x) == VerdictOf(b, x) {
      SameMembersSameVerdict(a, b, x);
    }
    FilterSame(b, (e: Enriched) => VerdictOf(a, e) == v, (e: Enriched) => VerdictOf(b, e) == v);
    FilterPermutes(a, b, (e: Enriched) => VerdictOf(a, e) == v);
  }

  lemma PermutedAccepted(a: seq<Enriched>, b: seq<Enriched>)
    requires Pinned(a) && multiset(a) == multiset(b)
    ensures Accepted(a) == Accepted(b)
  {
    PermutedLists(a, b, ACCEPTED);
    MapPermutes(With(a, ACCEPTED), With(b, ACCEPTED), (e: Enriched) => e.event);
    var x, y := EventsOf(With(a, ACCEPTED)), EventsOf(With(b, ACCEPTED));
    SortPermutes(x, AcceptLe);
    SortPermutes(y, AcceptLe);
    AcceptLeOrder();
    SortSorted(x, AcceptLe);
    SortSorted(y, AcceptLe);
    forall e, f | e in Accepted(a) && f in Accepted(a) && AcceptLe(e, f) && AcceptLe(f, e) ensures e == f {
      AcceptedIdsUnique(a, e, f);
    }
    SortedUnique(Accepted(a), Accepted(b), AcceptLe);
  }

  /** Two outcomes that say the same, up to the order in which the quarantined rows were collected. */
  ghost predicate SameOutcome(x: Processed, y: Processed) {
    && x.accepted == y.accepted && multiset(x.quarantined) == multiset(y.quarantined)
    && x.dropped == y.dropped && x.eventConflicts == y.eventConflicts && x.sequenceConflicts == y.sequenceConflicts
  }

  lemma PermutedOutcome(a: seq<Record>, b: seq<Record>, p: Primitives)
    requires multiset(a) == multiset(b) && Pinned(Enrich(a, p))
    ensures SameOutcome(Process(a, p), Process(b, p))
  {
    PermutedEnrich(a, b, p);
    var x, y := Enrich(a, p), Enrich(b, p);
    PermutedAccepted(x, y);
    PermutedQuarantine(x, y, EVENT_CONFLICT, DUPLICATE_EVENT_CONFLICT);
    PermutedQuarantine(x, y, SEQUENCE_CONFLICT, EQUAL_SEQUENCE_CONFLICT);
    PermutedQuarantine(x, y, DROPPED, "");
  }

  lemma PermutedQuarantine(x: seq<Enriched>, y: seq<Enriched>, v: Verdict, code: string)
    requires multiset(x) == multiset(y)
    ensures multiset(QuarantineAll(code, With(x, v))) == multiset(QuarantineAll(code, With(y, v)))
    ensures |With(x, v)| == |With(y, v)|
  {
    PermutedLists(x, y, v);
    assert |multiset(With(x, v))| == |multiset(With(y, v))|;
    MapPermutes(With(x, v), With(y, v), (e: Enriched) => QuarantineOf(code, e.record));
  }

  /** Record order is irrelevant. */
  lemma RecordOrderIrrelevant(a: seq<Record>, b: seq<Record>, p: Primitives)
    requires UniqueOrders(a) && multiset(a) == multiset(b)
    ensures SameOutcome(Process(a, p), Process(b, p))
  {
    EnrichedPinned(a, p);
    PermutedOutcome(a, b, p);
  }

  // ---- Permuting files ----

  /** Renumbering the records of a reading by their lines changes nothing in the outcome. */
  lemma NumberingIrrelevant(rs: seq<Record>, p: Primitives)
    requires InReadingOrder(rs)
    ensures Process(rs, p) == Process(Forgotten(rs), p) && Pinned(Enrich(Forgotten(rs), p))
  {
    var es, fs := Enrich(rs, p), Enrich(Forgotten(rs), p);
    EnrichAligned(rs, p);
    AlignedLists(es, fs, ACCEPTED, "");
    AlignedLists(es, fs, DROPPED, "");
    AlignedLists(es, fs, EVENT_CONFLICT, DUPLICATE_EVENT_CONFLICT);
    AlignedLists(es, fs, SEQUENCE_CONFLICT, EQUAL_SEQUENCE_CONFLICT);
  }

  function FileRecords(f: File): seq<Record> { Forgotten(RecordsIn(f, |f.lines|, 0)) }

  lemma {:induction false} NumberingOf(f: File, n: nat, start: nat)
    requires n <= |f.lines|
    ensures Forgotten(RecordsIn(f, n, start)) == Forgotten(RecordsIn(f, n, 0))
  {
    if n > 0 {
      NumberingOf(f, n - 1, start);
      MapSnoc(RecordsIn(f, n - 1, start), RecordsIn(f, n, start));
      MapSnoc(RecordsIn(f, n - 1, 0), RecordsIn(f, n, 0));
    }
  }

  lemma MapSnoc(a: seq<Record>, b: seq<Record>)
    requires |a| <= |b| && b[..|a|] == a
    ensures Forgotten(b) == Forgotten(a) + Forgotten(b[|a|..])
  {
    assert b == a + b[|a|..];
  }

  lemma {:induction false} ReadingByFile(fs: seq<File>)
    ensures Forgotten(ReadRecords(fs)) == FlatMap(fs, (f: File) => FileRecords(f))
    ensures ReadMalformed(fs) == FlatMap(fs, (f: File) => MalformedIn(f, |f.lines|))
  {
    if fs != [] {
      var init, last := fs[..|fs| - 1], fs[|fs| - 1];
      ReadingByFile(init);
      NumberingOf(last, |last.lines|, FilledAll(init));
      MapSnoc(ReadRecords(init), ReadRecords(fs));
      assert ReadRecords(fs)[|ReadRecords(init)|..] == RecordsIn(last, |last.lines|, FilledAll(init));
      FlatMapConcat(init, [last], (f: File) => FileRecords(f));
      FlatMapConcat(init, [last], (f: File) => MalformedIn(f, |f.lines|));
      assert fs == init + [last] && [last][1..] == [];
    }
  }

  // ---- Validation ----

  /** The code of the first rule a record breaks, if any. */
  type Rules = Change -> Option<string>

  function ValidRecords(rs: seq<Record>, rules: Rules): seq<Record> {
    Filter(rs, (r: Record) => rules(r.change).None?)
  }

  function InvalidRecords(rs: seq<Record>, rules: Rules): seq<Record> {
    Filter(rs, (r: Record) => rules(r.change).Some?)
  }

  function CodeOf(r: Record, rules: Rules): string { if rules(r.change).Some? then rules(r.change).value else "" }

  function Rejected(rs: seq<Record>, rules: Rules): seq<Quarantined> {
    Map(InvalidRecords(rs, rules), (r: Record) => QuarantineOf(CodeOf(r, rules), r))
  }

  lemma {:induction false} FilterReadingOrder(rs: seq<Record>, keep: Record -> bool)
    requires InReadingOrder(rs)
    ensures InReadingOrder(Filter(rs, keep))
  {
    if rs != [] {
      var init, last := rs[..|rs| - 1], rs[|rs| - 1];
      FilterReadingOrder(init, keep);
      var kept := Filter(init, keep);
      forall i | 0 <= i < |kept|
        ensures kept[i].order < last.order && (kept[i].sourceFile == last.sourceFile ==> kept[i].line < last.line)
      {
        assert kept[i] in init;
      }
    }
  }

  /** Validation looks at content only, so forgetting the numbering first or last is the same. */
  lemma ForgetValid(rs: seq<Record>, rules: Rules)
    ensures Forgotten(ValidRecords(rs, rules)) == ValidRecords(Forgotten(rs), rules)
    ensures Rejected(rs, rules) == Rejected(Forgotten(rs), rules)
  {
    FilterAligned(rs, Forgotten(rs), (r: Record) => rules(r.change).None?, (r: Record) => rules(r.change).None?,
                  (r: Record) => Forget(r), (r: Record) => r);
    assert Map(ValidRecords(Forgotten(rs), rules), (r: Record) => r) == ValidRecords(Forgotten(rs), rules);
    FilterAligned(rs, Forgotten(rs), (r: Record) => rules(r.change).Some?, (r: Record) => rules(r.change).Some?,
                  (r: Record) => QuarantineOf(CodeOf(r, rules), r), (r: Record) => QuarantineOf(CodeOf(r, rules), r));
  }

  /** File order is irrelevant: files with distinct logical ids may be read in any order. */
  lemma FileOrderIrrelevant(fs: seq<File>, gs: seq<File>, rules: Rules, p: Primitives)
    requires DistinctIds(fs) && DistinctIds(gs) && multiset(fs) == multiset(gs)
    ensures SameOutcome(Process(ValidRecords(ReadRecords(fs), rules), p),
                        Process(ValidRecords(ReadRecords(gs), rules), p))
    ensures multiset(ReadMalformed(fs)) == multiset(ReadMalformed(gs))
    ensures multiset(Rejected(ReadRecords(fs), rules)) == multiset(Rejected(ReadRecords(gs), rules))
  {
    var a, b := ReadRecords(fs), ReadRecords(gs);
    ReadingOrder(fs);
    ReadingOrder(gs);
    FilterReadingOrder(a, (r: Record) => rules(r.change).None?);
    FilterReadingOrder(b, (r: Record) => rules(r.change).None?);
    NumberingIrrelevant(ValidRecords(a, rules), p);
    NumberingIrrelevant(ValidRecords(b, rules), p);
    ForgetValid(a, rules);
    ForgetValid(b, rules);
    ReadingPermuted(fs, gs);
    FilterPermutes(Forgotten(a), Forgotten(b), (r: Record) => rules(r.change).None?);
    FilterPermutes(Forgotten(a), Forgotten(b), (r: Record) => rules(r.change).Some?);
    PermutedOutcome(ValidRecords(Forgotten(a), rules), ValidRecords(Forgotten(b), rules), p);
    MapPermutes(InvalidRecords(Forgotten(a), rules), InvalidRecords(Forgotten(b), rules),
                (r: Record) => QuarantineOf(CodeOf(r, rules), r));
  }

  lemma ReadingPermuted(fs: seq<File>, gs: seq<File>)
    requires multiset(fs) == multiset(gs)
    ensures multiset(Forgotten(ReadRecords(fs))) == multiset(Forgotten(ReadRecords(gs)))
    ensures multiset(ReadMalformed(fs)) == multiset(ReadMalformed(gs))
  {
    ReadingByFile(fs);
    ReadingByFile(gs);
    FlatMapPermutes(fs, gs, (f: File) => FileRecords(f));
    FlatMapPermutes(fs, gs, (f: File) => MalformedIn(f, |f.lines|));
  }
}
