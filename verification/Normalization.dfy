/** Normalization as a partition of its input (src/normalization/processor.py, fingerprint.py, models.py).

    Canonical rendering, fingerprint, timestamp parsing, validation and content digest are uninterpreted functions. */
module Normalization {
  import opened Cdc
  import opened Ordering

  datatype Primitives = Primitives(
    canon: map<string, string> -> string,
    fingerprint: Change -> string,
    parse: string -> Option<int>)

  /** A raw record as read: its content, where it came from, its line in that file and its place in the
      reading order. */
  datatype Record = Record(
    change: Change, batchId: string, ingestionBatchId: string, sourceFile: string, line: nat, order: nat)
  {
    /** `ingestion_batch_id or batch_id`. */
    function Batch(): string { if ingestionBatchId != "" then ingestionBatchId else batchId }
  }

  datatype Enriched = Enriched(record: Record, event: Event)

  // ---- Late arrival ----

  predicate StringLt(a: string, b: string) { a != b && StringLe(a, b) }

  /** A strictly earlier ingestion batch holds a strictly later timestamp. */
  predicate IsLate(rs: seq<Record>, r: Record, p: Primitives) {
    exists s :: s in rs && StringLt(s.Batch(), r.Batch()) && Earlier(r, s, p)
  }

  predicate Earlier(r: Record, s: Record, p: Primitives) {
    p.parse(r.change.eventTs).Some? && p.parse(s.change.eventTs).Some?
    && p.parse(r.change.eventTs).value < p.parse(s.change.eventTs).value
  }

  // ---- Enrichment ----

  function EnrichWith(r: Record, late: bool, p: Primitives): Enriched {
    var change := r.change.(canonical := p.canon(r.change.businessKey));
    Enriched(r, Event(change, EntityKey(change.table, change.canonical), p.fingerprint(r.change), r.batchId,
                      r.ingestionBatchId, r.sourceFile, late))
  }

  function Enrich(rs: seq<Record>, p: Primitives): seq<Enriched> {
    Map(rs, (r: Record) => EnrichWith(r, IsLate(rs, r, p), p))
  }

  // ---- Verdicts ----

  /** The event id has been delivered with more than one fingerprint. */
  predicate Conflicted(es: seq<Enriched>, e: Enriched) {
    exists f :: f in es && f.event.Id() == e.event.Id() && f.event.fingerprint != e.event.fingerprint
  }

  /** The deterministic delivery order: batch, ingestion batch, source file, reading order. */
  predicate ProvenanceLe(a: Record, b: Record) {
    if a.batchId != b.batchId then StringLe(a.batchId, b.batchId)
    else if a.ingestionBatchId != b.ingestionBatchId then StringLe(a.ingestionBatchId, b.ingestionBatchId)
    else if a.sourceFile != b.sourceFile then StringLe(a.sourceFile, b.sourceFile)
    else a.order <= b.order
  }

  /** The first delivery of its event id. */
  predicate Wins(es: seq<Enriched>, e: Enriched) {
    forall f :: f in es && f.event.Id() == e.event.Id() ==> ProvenanceLe(e.record, f.record)
  }

  predicate Retained(es: seq<Enriched>, e: Enriched) { !Conflicted(es, e) && Wins(es, e) }

  /** Another retained event claims the same sequence number of the same entity. */
  predicate Collides(es: seq<Enriched>, e: Enriched) {
    exists f :: f in es && f != e && Retained(es, f) && SameSlot(e.event, f.event)
  }

  datatype Verdict = ACCEPTED | DROPPED | EVENT_CONFLICT | SEQUENCE_CONFLICT

  /** An event is accepted exactly when its id has one fingerprint, it is that id's first delivery, and no other such
      event shares its entity and sequence. */
  function VerdictOf(es: seq<Enriched>, e: Enriched): Verdict {
    if Conflicted(es, e) then EVENT_CONFLICT
    else if !Wins(es, e) then DROPPED
    else if Collides(es, e) then SEQUENCE_CONFLICT
    else ACCEPTED
  }

  function With(es: seq<Enriched>, v: Verdict): seq<Enriched> { Filter(es, (e: Enriched) => VerdictOf(es, e) == v) }

  function EventsOf(es: seq<Enriched>): seq<Event> { Map(es, (e: Enriched) => e.event) }

  /** The authoritative order of accepted events: table, canonical key, sequence, event id. */
  predicate AcceptLe(a: Event, b: Event) {
    if a.change.table != b.change.table then StringLe(a.change.table, b.change.table)
    else if a.change.canonical != b.change.canonical then StringLe(a.change.canonical, b.change.canonical)
    else if a.Sequence() != b.Sequence() then a.Sequence() < b.Sequence()
    else StringLe(a.Id(), b.Id())
  }

  function Accepted(es: seq<Enriched>): seq<Event> { Sort(EventsOf(With(es, ACCEPTED)), AcceptLe) }

  // ---- Quarantine ----

  /** The raw content a quarantined record keeps: an unparsed line, or a record's fields without reader metadata. */
  datatype Raw = Unparsed(text: string) | Fields(change: Change, batchId: string)

  datatype Quarantined = Quarantined(
    code: string, raw: Raw, eventId: string, table: string, sourceFile: string, batchId: string, line: nat)

  function QuarantineOf(code: string, r: Record): Quarantined {
    Quarantined(code, Fields(r.change, r.batchId), r.change.eventId, r.change.table, r.sourceFile, r.batchId, 0)
  }

  const DUPLICATE_EVENT_CONFLICT := "DUPLICATE_EVENT_CONFLICT"
  const EQUAL_SEQUENCE_CONFLICT := "SEQUENCE_CONFLICT"
  const MALFORMED_JSON := "MALFORMED_JSON"

  function QuarantineAll(code: string, es: seq<Enriched>): seq<Quarantined> {
    Map(es, (e: Enriched) => QuarantineOf(code, e.record))
  }

  datatype Processed = Processed(
    accepted: seq<Event>, quarantined: seq<Quarantined>, dropped: nat, eventConflicts: nat, sequenceConflicts: nat)

  function Process(rs: seq<Record>, p: Primitives): Processed {
    var es := Enrich(rs, p);
    Processed(Accepted(es),
              QuarantineAll(DUPLICATE_EVENT_CONFLICT, With(es, EVENT_CONFLICT))
              + QuarantineAll(EQUAL_SEQUENCE_CONFLICT, With(es, SEQUENCE_CONFLICT)),
              |With(es, DROPPED)|, |With(es, EVENT_CONFLICT)|, |With(es, SEQUENCE_CONFLICT)|)
  }

  // ---- The reading order makes records distinct ----

  ghost predicate UniqueOrders(rs: seq<Record>) {
    forall i, j :: 0 <= i < j < |rs| ==> rs[i].order != rs[j].order
  }

  /** A file and a place in the reading order pin down one row. */
  ghost predicate Pinned(es: seq<Enriched>) {
    forall i, j :: 0 <= i < j < |es| ==>
      es[i].record.sourceFile != es[j].record.sourceFile || es[i].record.order != es[j].record.order
  }

  lemma EnrichedPinned(rs: seq<Record>, p: Primitives)
    requires UniqueOrders(rs)
    ensures Pinned(Enrich(rs, p))
  {}

  lemma PinnedRows(es: seq<Enriched>, x: Enriched, y: Enriched)
    requires Pinned(es) && x in es && y in es && x.record.sourceFile == y.record.sourceFile
    requires x.record.order == y.record.order
    ensures x == y
  {
    var i :| 0 <= i < |es| && es[i] == x;
    var j :| 0 <= j < |es| && es[j] == y;
    if i < j { assert false; }
    if j < i { assert false; }
  }

  /** What enrichment gives each row. */
  lemma EnrichedFrom(rs: seq<Record>, p: Primitives, e: Enriched)
    requires e in Enrich(rs, p)
    ensures e.record in rs && e == EnrichWith(e.record, IsLate(rs, e.record, p), p)
  {}

  // ---- Partition ----

  lemma {:induction false} VerdictsPartition(es: seq<Enriched>, xs: seq<Enriched>)
    ensures var list := (v: Verdict) => Filter(xs, (e: Enriched) => VerdictOf(es, e) == v);
      multiset(list(ACCEPTED)) + multiset(list(DROPPED))
      + multiset(list(EVENT_CONFLICT)) + multiset(list(SEQUENCE_CONFLICT)) == multiset(xs)
  {
    var list := (v: Verdict) => Filter(xs, (e: Enriched) => VerdictOf(es, e) == v);
    forall x ensures multiset(list(ACCEPTED))[x] + multiset(list(DROPPED))[x] + multiset(list(EVENT_CONFLICT))[x]
                     + multiset(list(SEQUENCE_CONFLICT))[x] == multiset(xs)[x]
    {
      FilterCounts(xs, (e: Enriched) => VerdictOf(es, e) == ACCEPTED, x);
      FilterCounts(xs, (e: Enriched) => VerdictOf(es, e) == DROPPED, x);
      FilterCounts(xs, (e: Enriched) => VerdictOf(es, e) == EVENT_CONFLICT, x);
      FilterCounts(xs, (e: Enriched) => VerdictOf(es, e) == SEQUENCE_CONFLICT, x);
    }
  }

  /** Partition: every delivery gets exactly one verdict, with multiplicity. */
  lemma Partition(es: seq<Enriched>)
    ensures multiset(With(es, ACCEPTED)) + multiset(With(es, DROPPED))
            + multiset(With(es, EVENT_CONFLICT)) + multiset(With(es, SEQUENCE_CONFLICT)) == multiset(es)
  {
    VerdictsPartition(es, es);
  }

  /** Conservation: the records processed are the accepted, the dropped and the quarantined ones. */
  lemma Conservation(rs: seq<Record>, p: Primitives)
    ensures var out := Process(rs, p);
      && |rs| == |out.accepted| + out.dropped + |out.quarantined|
      && |out.quarantined| == out.eventConflicts + out.sequenceConflicts
  {
    var es := Enrich(rs, p);
    Partition(es);
    var a, d, c, s := With(es, ACCEPTED), With(es, DROPPED), With(es, EVENT_CONFLICT), With(es, SEQUENCE_CONFLICT);
    assert |multiset(a) + multiset(d) + multiset(c) + multiset(s)| == |multiset(es)|;
    assert |multiset(a)| == |a| && |multiset(d)| == |d| && |multiset(c)| == |c| && |multiset(s)| == |s|;
    SortMembers(EventsOf(a), AcceptLe);
  }

  lemma ProvenanceOrder(a: Record, b: Record, c: Record)
    ensures ProvenanceLe(a, b) || ProvenanceLe(b, a)
    ensures ProvenanceLe(a, b) && ProvenanceLe(b, c) ==> ProvenanceLe(a, c)
    ensures ProvenanceLe(a, b) && ProvenanceLe(b, a) ==> a.sourceFile == b.sourceFile && a.order == b.order
  {
    StringCases(a.batchId, b.batchId, c.batchId);
    StringCases(a.ingestionBatchId, b.ingestionBatchId, c.ingestionBatchId);
    StringCases(a.sourceFile, b.sourceFile, c.sourceFile);
  }

  lemma StringCases(a: string, b: string, c: string)
    ensures StringLe(a, b) || StringLe(b, a)
    ensures StringLe(a, b) && StringLe(b, a) ==> a == b
    ensures StringLe(a, b) && StringLe(b, c) ==> StringLe(a, c)
    ensures StringLe(b, c) && StringLe(c, b) ==> b == c
    ensures StringLe(a, c) && StringLe(c, a) ==> a == c
  {
    StringLeTotal(a, b);
    if StringLe(a, b) && StringLe(b, a) { StringLeAntisymmetric(a, b); }
    if StringLe(b, c) && StringLe(c, b) { StringLeAntisymmetric(b, c); }
    if StringLe(a, c) && StringLe(c, a) { StringLeAntisymmetric(a, c); }
    if StringLe(a, b) && StringLe(b, c) { StringLeTransitive(a, b, c); }
  }

  lemma WinnersMeet(es: seq<Enriched>, v: Enriched, w: Enriched)
    requires Pinned(es) && v in es && w in es && Wins(es, v) && Wins(es, w) && v.event.Id() == w.event.Id()
    ensures v == w
  {
    ProvenanceOrder(v.record, w.record, v.record);
    PinnedRows(es, v, w);
  }

  // ---- The accepted list ----

  lemma AcceptLeOrder()
    ensures TotalPreorder(AcceptLe)
    ensures forall a, b :: AcceptLe(a, b) && AcceptLe(b, a) ==>
      (a.change.table == b.change.table && a.change.canonical == b.change.canonical
       && a.Sequence() == b.Sequence() && a.Id() == b.Id())
  {
    forall a: Event, b: Event
      ensures AcceptLe(a, b) || AcceptLe(b, a)
      ensures AcceptLe(a, b) && AcceptLe(b, a) ==>
        (a.change.table == b.change.table && a.change.canonical == b.change.canonical
         && a.Sequence() == b.Sequence() && a.Id() == b.Id())
    {
      StringCases(a.change.table, b.change.table, "");
      StringCases(a.change.canonical, b.change.canonical, "");
      StringCases(a.Id(), b.Id(), "");
    }
    forall a: Event, b: Event, c: Event | AcceptLe(a, b) && AcceptLe(b, c) ensures AcceptLe(a, c) {
      StringCases(a.change.table, b.change.table, c.change.table);
      StringCases(a.change.canonical, b.change.canonical, c.change.canonical);
      StringCases(a.Id(), b.Id(), c.Id());
    }
  }

  lemma EventsOfMembers(xs: seq<Enriched>, e: Event)
    ensures e in EventsOf(xs) <==> exists x :: x in xs && x.event == e
  {
    if e in EventsOf(xs) {
      var i :| 0 <= i < |xs| && EventsOf(xs)[i] == e;
      assert xs[i] in xs;
    }
    if x :| x in xs && x.event == e {
      var i :| 0 <= i < |xs| && xs[i] == x;
      assert EventsOf(xs)[i] == e;
    }
  }

  /** Membership in the accepted list, in full. */
  lemma AcceptedIff(es: seq<Enriched>, e: Event)
    ensures e in Accepted(es) <==> exists x :: x in es && x.event == e && Retained(es, x) && !Collides(es, x)
  {
    SortMembers(EventsOf(With(es, ACCEPTED)), AcceptLe);
    EventsOfMembers(With(es, ACCEPTED), e);
    forall x ensures x in With(es, ACCEPTED) <==> x in es && Retained(es, x) && !Collides(es, x) {}
  }

  /** Accepted events have distinct ids: one row each. */
  lemma AcceptedIdsUnique(es: seq<Enriched>, e: Event, f: Event)
    requires Pinned(es) && e in Accepted(es) && f in Accepted(es) && e.Id() == f.Id()
    ensures e == f
  {
    AcceptedIff(es, e);
    AcceptedIff(es, f);
    var x :| x in es && x.event == e && Retained(es, x);
    var y :| y in es && y.event == f && Retained(es, y);
    WinnersMeet(es, x, y);
  }
}
