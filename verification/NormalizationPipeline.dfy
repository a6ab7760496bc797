/** The normalization code itself: the reader's counter, the late-arrival and enrichment loops, and the run
    (src/normalization/reader.py, processor.py, pipeline.py), each proved against its specification. */
module NormalizationPipeline {
  import opened Cdc
  import opened Ordering
  import opened Normalization
  import opened NormalizationOrder
  import opened NormalizationRun
  import opened NormalizationWindows
  import opened NormalizationAnswer
  import opened NormalizationRunAnswer

  // ---- Reader ----

  /** One file, its counted lines numbered on from `start`. */
  method ReadFile(f: File, start: nat) returns (records: seq<Record>, malformed: seq<Quarantined>, ingestionOrder: nat)
    ensures records == RecordsIn(f, |f.lines|, start) && malformed == MalformedIn(f, |f.lines|)
    ensures ingestionOrder == start + Filled(f.lines)
  {
    records, malformed, ingestionOrder := [], [], start;
    for n := 0 to |f.lines|
      invariant records == RecordsIn(f, n, start) && malformed == MalformedIn(f, n)
      invariant ingestionOrder == start + Filled(f.lines[..n])
    {
      var line := f.lines[n];
      assert f.lines[..n + 1][..n] == f.lines[..n];
      if line.Blank? {
        continue;
      }
      ingestionOrder := ingestionOrder + 1;
      if line.Malformed? {
        malformed := malformed + [Quarantined(MALFORMED_JSON, Unparsed(line.text), "", "", f.logicalId, f.batchHint,
                                              n + 1)];
      } else {
        var batch := if line.batchId != "" then line.batchId else f.batchHint;
        records := records + [Record(line.change, line.batchId, batch, f.logicalId, n + 1, ingestionOrder)];
      }
    }
    FullPrefix(f.lines);
  }

  /** Reads every file in turn, numbering the lines that count across all of them. */
  method ReadRawCdcFiles(fs: seq<File>) returns (records: seq<Record>, malformed: seq<Quarantined>)
    ensures records == ReadRecords(fs) && malformed == ReadMalformed(fs)
  {
    records, malformed := [], [];
    var ingestionOrder := 0;
    for k := 0 to |fs|
      invariant records == ReadRecords(fs[..k]) && malformed == ReadMalformed(fs[..k])
      invariant ingestionOrder == FilledAll(fs[..k])
    {
      assert fs[..k + 1][..k] == fs[..k];
      var more, bad, next := ReadFile(fs[k], ingestionOrder);
      records, malformed, ingestionOrder := records + more, malformed + bad, next;
    }
    FullPrefix(fs);
  }

  // ---- Late arrival ----

  /** The timestamps of the records whose batch is one of `ids`. */
  ghost function Times(rs: seq<Record>, ids: seq<string>, p: Primitives): set<int> {
    set s | s in rs && s.Batch() in ids && p.parse(s.change.eventTs).Some? :: p.parse(s.change.eventTs).value
  }

  ghost predicate IsMaximum(times: set<int>, m: Option<int>) {
    && (times == {} <==> m.None?)
    && (m.Some? ==> m.value in times && forall t :: t in times ==> t <= m.value)
  }

  function Batches(rs: seq<Record>): seq<string> { Map(rs, (r: Record) => r.Batch()) }

  lemma BatchIds(rs: seq<Record>)
    ensures var ids := Sort(Dedupe(Batches(rs)), StringLe);
      && (forall i, j :: 0 <= i < j < |ids| ==> StringLt(ids[i], ids[j]))
      && (forall r :: r in rs ==> r.Batch() in ids)
  {
    var keys := Dedupe(Batches(rs));
    var ids := Sort(keys, StringLe);
    StringLeTotalPreorder();
    SortSorted(keys, StringLe);
    SortPermutes(keys, StringLe);
    SortMembers(keys, StringLe);
    PermutationDistinct(keys, ids);
    forall r | r in rs ensures r.Batch() in ids {
      var i :| 0 <= i < |rs| && rs[i] == r;
      assert Batches(rs)[i] in Batches(rs);
    }
  }

  /** In a strictly ascending list, the elements before position `k` are those strictly below it. */
  lemma BeforeIsBelow(ids: seq<string>, k: nat, b: string)
    requires k < |ids| && b in ids && forall i, j :: 0 <= i < j < |ids| ==> StringLt(ids[i], ids[j])
    ensures b in ids[..k] <==> StringLt(b, ids[k])
  {
    var i :| 0 <= i < |ids| && ids[i] == b;
    if i < k {
      assert ids[..k][i] == b;
    } else {
      StringCases(b, ids[k], b);
      forall j | 0 <= j < k ensures ids[j] != b {
        assert StringLt(ids[j], ids[i]);
      }
    }
  }

  /** `m` is the maximum timestamp over the first `k` batches. */
  ghost predicate Boundary(rs: seq<Record>, ids: seq<string>, k: nat, p: Primitives, m: Option<int>) {
    k <= |ids| && IsMaximum(Times(rs, ids[..k], p), m)
  }

  lemma TimesGrow(rs: seq<Record>, i: nat, b: string, p: Primitives)
    requires i < |rs|
    ensures Times(rs[..i + 1], [b], p) ==
      Times(rs[..i], [b], p)
      + if rs[i].Batch() == b && p.parse(rs[i].change.eventTs).Some? then {p.parse(rs[i].change.eventTs).value} else {}
  {
    assert rs[..i + 1] == rs[..i] + [rs[i]];
  }

  lemma TimesOfNext(rs: seq<Record>, ids: seq<string>, k: nat, p: Primitives)
    requires k < |ids|
    ensures Times(rs, ids[..k + 1], p) == Times(rs, ids[..k], p) + Times(rs, [ids[k]], p)
  {
    assert ids[..k + 1] == ids[..k] + [ids[k]];
  }

  /** `m` is the maximum timestamp over the first `k` batches and what the first `i` records add to batch `k`. */
  ghost predicate MaximumSoFar(rs: seq<Record>, ids: seq<string>, k: nat, i: nat, p: Primitives, m: Option<int>)
    requires k < |ids| && i <= |rs|
  {
    IsMaximum(Times(rs, ids[..k], p) + Times(rs[..i], [ids[k]], p), m)
  }

  lemma MaximumStarts(rs: seq<Record>, ids: seq<string>, k: nat, p: Primitives, m: Option<int>)
    requires k < |ids| && Boundary(rs, ids, k, p, m)
    ensures MaximumSoFar(rs, ids, k, 0, p, m)
  {
    assert Times(rs[..0], [ids[k]], p) == {};
    hide Times, IsMaximum;
    assert Times(rs, ids[..k], p) + {} == Times(rs, ids[..k], p);
  }

  lemma MaximumGrows(rs: seq<Record>, ids: seq<string>, k: nat, i: nat, p: Primitives, m: Option<int>)
    requires k < |ids| && i < |rs| && MaximumSoFar(rs, ids, k, i, p, m)
    ensures var ts := p.parse(rs[i].change.eventTs);
      var raises := rs[i].Batch() == ids[k] && ts.Some? && (m.None? || ts.value > m.value);
      MaximumSoFar(rs, ids, k, i + 1, p, if raises then ts else m)
  {
    TimesGrow(rs, i, ids[k], p);
    hide Times;
  }

  lemma MaximumEnds(rs: seq<Record>, ids: seq<string>, k: nat, p: Primitives, m: Option<int>)
    requires k < |ids| && MaximumSoFar(rs, ids, k, |rs|, p, m)
    ensures Boundary(rs, ids, k + 1, p, m)
  {
    hide Times, IsMaximum;
    FullPrefix(rs);
    TimesOfNext(rs, ids, k, p);
  }

  /** The inner loop: the running maximum over one batch more. */
  method RaiseMaximum(rs: seq<Record>, ids: seq<string>, k: nat, p: Primitives, start: Option<int>)
    returns (running: Option<int>)
    requires k < |ids| && Boundary(rs, ids, k, p, start)
    ensures Boundary(rs, ids, k + 1, p, running)
  {
    hide Boundary, MaximumSoFar, Record.Batch;
    running := start;
    MaximumStarts(rs, ids, k, p, start);
    for i := 0 to |rs|
      invariant MaximumSoFar(rs, ids, k, i, p, running)
    {
      MaximumGrows(rs, ids, k, i, p, running);
      var ts := p.parse(rs[i].change.eventTs);
      if rs[i].Batch() == ids[k] && ts.Some? && (running.None? || ts.value > running.value) {
        running := ts;
      }
    }
    MaximumEnds(rs, ids, k, p, running);
  }

  lemma IdsDistinct(rs: seq<Record>)
    ensures Distinct(Sort(Dedupe(Batches(rs)), StringLe))
  {
    SortPermutes(Dedupe(Batches(rs)), StringLe);
    PermutationDistinct(Dedupe(Batches(rs)), Sort(Dedupe(Batches(rs)), StringLe));
  }

  /** The first `n` batches have their boundary. */
  ghost predicate Bounded(rs: seq<Record>, ids: seq<string>, n: nat, p: Primitives, prior: map<string, Option<int>>)
    requires n <= |ids|
  {
    forall k :: 0 <= k < n ==> ids[k] in prior && Boundary(rs, ids, k, p, prior[ids[k]])
  }

  lemma BoundedGrows(rs: seq<Record>, ids: seq<string>, n: nat, p: Primitives, prior: map<string, Option<int>>,
                     m: Option<int>)
    requires n < |ids| && Distinct(ids) && Bounded(rs, ids, n, p, prior) && Boundary(rs, ids, n, p, m)
    ensures Bounded(rs, ids, n + 1, p, prior[ids[n] := m])
  {
    hide Boundary;
    forall k | 0 <= k < n ensures ids[k] != ids[n] {}
  }

  lemma NothingBefore(rs: seq<Record>, ids: seq<string>, p: Primitives)
    ensures Boundary(rs, ids, 0, p, None) && Bounded(rs, ids, 0, p, map[])
  {
    assert Times(rs, ids[..0], p) == {};
  }

  /** The late-arrival loop: for every batch, the maximum timestamp over all strictly smaller batches. */
  method LateBoundaries(rs: seq<Record>, ids: seq<string>, p: Primitives) returns (prior: map<string, Option<int>>)
    requires Distinct(ids)
    ensures Bounded(rs, ids, |ids|, p, prior)
  {
    hide Boundary, Bounded, Distinct;
    prior := map[];
    var running: Option<int> := None;
    NothingBefore(rs, ids, p);
    for k := 0 to |ids|
      invariant Boundary(rs, ids, k, p, running) && Bounded(rs, ids, k, p, prior)
    {
      BoundedGrows(rs, ids, k, p, prior, running);
      prior := prior[ids[k] := running];
      running := RaiseMaximum(rs, ids, k, p, running);
    }
  }

  /** Below the running maximum is the same as late: the loop computes the quantified definition. */
  lemma BelowMaximumIsLate(rs: seq<Record>, r: Record, ids: seq<string>, k: nat, m: Option<int>, p: Primitives)
    requires r in rs && ids == Sort(Dedupe(Batches(rs)), StringLe) && k < |ids| && ids[k] == r.Batch()
    requires Boundary(rs, ids, k, p, m)
    ensures IsLate(rs, r, p)
            <==> m.Some? && p.parse(r.change.eventTs).Some? && p.parse(r.change.eventTs).value < m.value
  {
    BatchIds(rs);
    forall s | s in rs ensures s.Batch() in ids[..k] <==> StringLt(s.Batch(), r.Batch()) {
      BeforeIsBelow(ids, k, s.Batch());
    }
    if s :| s in rs && StringLt(s.Batch(), r.Batch()) && Earlier(r, s, p) {
      assert p.parse(s.change.eventTs).value in Times(rs, ids[..k], p);
    }
    if m.Some? {
      var s :| s in rs && s.Batch() in ids[..k]
               && p.parse(s.change.eventTs).Some? && p.parse(s.change.eventTs).value == m.value;
      assert Earlier(r, s, p) <==> p.parse(r.change.eventTs).Some? && p.parse(r.change.eventTs).value < m.value;
    }
  }

  lemma EnrichedAt(rs: seq<Record>, p: Primitives)
    ensures |Enrich(rs, p)| == |rs|
    ensures forall i :: 0 <= i < |rs| ==> Enrich(rs, p)[i] == EnrichWith(rs[i], IsLate(rs, rs[i], p), p)
  {}

  /** The boundary of a record's batch tells whether it is late. */
  ghost predicate Decides(rs: seq<Record>, r: Record, prior: map<string, Option<int>>, p: Primitives) {
    && r.Batch() in prior
    && var m, ts := prior[r.Batch()], p.parse(r.change.eventTs);
       IsLate(rs, r, p) <==> m.Some? && ts.Some? && ts.value < m.value
  }

  lemma BoundariesDecide(rs: seq<Record>, ids: seq<string>, prior: map<string, Option<int>>, p: Primitives)
    requires ids == Sort(Dedupe(Batches(rs)), StringLe)
    requires Bounded(rs, ids, |ids|, p, prior)
    ensures forall i :: 0 <= i < |rs| ==> Decides(rs, rs[i], prior, p)
  {
    forall i | 0 <= i < |rs| ensures Decides(rs, rs[i], prior, p) {
      var r := rs[i];
      BatchIds(rs);
      assert r in rs;
      var k :| 0 <= k < |ids| && ids[k] == r.Batch();
      BelowMaximumIsLate(rs, r, ids, k, prior[ids[k]], p);
    }
  }

  // ---- Processing ----

  class SparkCDCNormalizationProcessor {
    const p: Primitives

    constructor (p: Primitives)
      ensures this.p == p
    {
      this.p := p;
    }

    /** Step 1: the late-arrival boundary of every batch. */
    method Boundaries(rs: seq<Record>) returns (prior: map<string, Option<int>>)
      ensures forall i :: 0 <= i < |rs| ==> Decides(rs, rs[i], prior, p)
    {
      var ids := Sort(Dedupe(Batches(rs)), StringLe);
      IdsDistinct(rs);
      prior := LateBoundaries(rs, ids, p);
      BoundariesDecide(rs, ids, prior, p);
    }

    /** Steps 1 and 2: late-arrival boundaries, then one enriched row per record. */
    method EnrichRecords(rs: seq<Record>) returns (rows: seq<Enriched>)
      ensures rows == Enrich(rs, p)
    {
      hide Enrich, EnrichWith, IsLate, Decides;
      var prior := Boundaries(rs);
      EnrichedAt(rs, p);
      ghost var enriched := Enrich(rs, p);
      rows := [];
      for i := 0 to |rs|
        invariant rows == enriched[..i]
      {
        var row := EnrichRecord(rs, rs[i], prior);
        rows := rows + [row];
      }
    }

    method EnrichRecord(rs: seq<Record>, r: Record, prior: map<string, Option<int>>) returns (row: Enriched)
      requires Decides(rs, r, prior, p)
      ensures row == EnrichWith(r, IsLate(rs, r, p), p)
    {
      hide IsLate, EnrichWith;
      var boundary, ts := prior[r.Batch()], p.parse(r.change.eventTs);
      var late := boundary.Some? && ts.Some? && ts.value < boundary.value;
      row := EnrichWith(r, late, p);
    }

    /** Steps 4 to 7: the window columns, the filters in stages, the order of the accepted events. */
    method Process(rs: seq<Record>) returns (out: Processed)
      ensures out == Collected(Staged(Enrich(rs, p)))
      ensures UniqueOrders(rs) ==> out == Normalization.Process(rs, p) && Answers(out, rs, p)
    {
      if UniqueOrders(rs) {
        CollectedIsProcess(rs, p);
        ProcessAnswers(rs, p);
      }
      if rs == [] {
        return Processed([], [], 0, 0, 0);
      }
      var rows := EnrichRecords(rs);
      var numbered := NumberedRows(rows);
      var conflicting := RowsOf(Filter(numbered, IsConflicting));
      var redundant := RowsOf(Filter(numbered, IsRedundant));
      var candidates := Filter(numbered, IsCandidate);
      var slotted := Map(candidates, (n: Numbered) => Slotted(n, |SlotMates(candidates, n)|));
      var colliding := SlottedRowsOf(Filter(slotted, (s: Slotted) => s.seqCollisionCount > 1));
      var clean := SlottedRowsOf(Filter(slotted, (s: Slotted) => s.seqCollisionCount == 1));
      hide Enrich, NumberedRows, Normalization.Process, Answers;
      out := Processed(Sort(EventsOf(clean), AcceptLe),
                       QuarantineAll(DUPLICATE_EVENT_CONFLICT, conflicting)
                       + QuarantineAll(EQUAL_SEQUENCE_CONFLICT, colliding),
                       |redundant|, |conflicting|, |colliding|);
    }
  }

  // ---- The run ----

  /** Step 2: the records that pass validation, and the others quarantined with the rule they break. */
  method Validate(rs: seq<Record>, rules: Rules) returns (valid: seq<Record>, rejected: seq<Quarantined>)
    ensures valid == ValidRecords(rs, rules) && rejected == Rejected(rs, rules)
  {
    valid, rejected := [], [];
    for i := 0 to |rs|
      invariant valid == ValidRecords(rs[..i], rules) && rejected == Rejected(rs[..i], rules)
    {
      assert rs[..i + 1][..i] == rs[..i];
      RejectedGrows(rs, i, rules);
      match rules(rs[i].change)
      case None => valid := valid + [rs[i]];
      case Some(code) => rejected := rejected + [QuarantineOf(code, rs[i])];
    }
    FullPrefix(rs);
  }

  lemma RejectedGrows(rs: seq<Record>, i: nat, rules: Rules)
    requires i < |rs|
    ensures Rejected(rs[..i + 1], rules) == Rejected(rs[..i], rules)
      + if rules(rs[i].change).Some? then [QuarantineOf(rules(rs[i].change).value, rs[i])] else []
  {
    assert rs[..i + 1][..i] == rs[..i];
  }

  /** The loop over the accepted events: the lowest and the highest sequence number of each table. */
  method SequencesByTable(es: seq<Event>) returns (lowest: map<string, int>, highest: map<string, int>)
    ensures lowest == MinSequences(es) && highest == MaxSequences(es)
  {
    lowest, highest := map[], map[];
    for i := 0 to |es|
      invariant lowest == MinSequences(es[..i]) && highest == MaxSequences(es[..i])
    {
      assert es[..i + 1][..i] == es[..i];
      var table, sequence := es[i].change.table, es[i].Sequence();
      if table !in lowest || sequence < lowest[table] {
        lowest := lowest[table := sequence];
      }
      if table !in highest || sequence > highest[table] {
        highest := highest[table := sequence];
      }
    }
    FullPrefix(es);
  }

  class CDCNormalizationPipeline {
    const processor: SparkCDCNormalizationProcessor

    constructor (p: Primitives)
      ensures processor.p == p
    {
      processor := new SparkCDCNormalizationProcessor(p);
    }

    /** Steps 1 to 4 and 6 of a run: read, validate, process, collate, sort, count. */
    method RunPipeline(fs: seq<File>, rules: Rules, digest: Digest) returns (result: RunResult)
      ensures result == Normalize(fs, rules, processor.p, digest)
      ensures exists valid :: RunAnswers(result, fs, valid, rules, processor.p, digest)
    {
      RunIsAnswered(fs, rules, processor.p, digest);
      hide RunAnswers;
      var parsed, malformed := ReadRawCdcFiles(fs);
      var valid, rejected := Validate(parsed, rules);
      var out := processor.Process(valid);
      ValidUniqueOrders(fs, rules);
      var all := malformed + rejected + out.quarantined;
      var minSequence, maxSequence := SequencesByTable(out.accepted);
      result := RunResult(out.accepted, QuarantineSorted(all, digest),
                       Metrics(|parsed| + |malformed|, |parsed|, |out.accepted|, out.dropped, |all|, |malformed|,
                               out.eventConflicts, out.sequenceConflicts, TablesSeen(parsed), minSequence, maxSequence,
                               all != []));
    }
  }
}
