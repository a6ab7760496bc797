/** What the processor answers, in terms of the records it is given (src/normalization/processor.py:73-314): which
    deliveries are accepted, dropped and quarantined, with every column of the result. */
module NormalizationAnswer {
  import opened Cdc
  import opened Ordering
  import opened Normalization

  // ---- The records ----

  /** Ascending by batch, ingestion batch, source file and reading order. */
  predicate DeliveredBefore(a: Record, b: Record) {
    && StringLe(a.batchId, b.batchId)
    && (a.batchId == b.batchId ==>
          && StringLe(a.ingestionBatchId, b.ingestionBatchId)
          && (a.ingestionBatchId == b.ingestionBatchId ==>
                && StringLe(a.sourceFile, b.sourceFile)
                && (a.sourceFile == b.sourceFile ==> a.order <= b.order)))
  }

  /** Every delivery of the event id has the same content. */
  predicate OneContent(rs: seq<Record>, r: Record, p: Primitives) {
    forall s :: s in rs && s.change.eventId == r.change.eventId ==> p.fingerprint(s.change) == p.fingerprint(r.change)
  }

  predicate FirstDelivery(rs: seq<Record>, r: Record) {
    forall s :: s in rs && s.change.eventId == r.change.eventId ==> DeliveredBefore(r, s)
  }

  /** No other event that survives deduplication claims the same sequence number of the same entity. */
  predicate Unrivalled(rs: seq<Record>, r: Record, p: Primitives) {
    forall s :: s in rs && s != r && OneContent(rs, s, p) && FirstDelivery(rs, s) ==>
      s.change.sequence != r.change.sequence
      || s.change.table + ":" + p.canon(s.change.businessKey) != r.change.table + ":" + p.canon(r.change.businessKey)
  }

  /** The batch that counts for late arrival. */
  function LateBatch(r: Record): string { if r.ingestionBatchId == "" then r.batchId else r.ingestionBatchId }

  /** A record of a strictly smaller batch has a strictly later timestamp. */
  predicate ArrivesLate(rs: seq<Record>, r: Record, p: Primitives) {
    exists s :: s in rs && LateBatch(s) != LateBatch(r) && StringLe(LateBatch(s), LateBatch(r))
                && p.parse(r.change.eventTs).Some? && p.parse(s.change.eventTs).Some?
                && p.parse(s.change.eventTs).value > p.parse(r.change.eventTs).value
  }

  /** The event carries the record's content and provenance, its canonical key, entity, fingerprint and late flag. */
  predicate CarriesRecord(e: Event, r: Record, rs: seq<Record>, p: Primitives) {
    && e.change == r.change.(canonical := p.canon(r.change.businessKey))
    && e.entity == r.change.table + ":" + p.canon(r.change.businessKey) && e.fingerprint == p.fingerprint(r.change)
    && e.batchId == r.batchId && e.ingestionBatchId == r.ingestionBatchId && e.sourceFile == r.sourceFile
    && e.late == ArrivesLate(rs, r, p)
  }

  predicate Accepts(rs: seq<Record>, r: Record, p: Primitives) {
    OneContent(rs, r, p) && FirstDelivery(rs, r) && Unrivalled(rs, r, p)
  }

  /** Another delivery of the same content comes first. */
  predicate Redundant(rs: seq<Record>, r: Record, p: Primitives) { OneContent(rs, r, p) && !FirstDelivery(rs, r) }

  predicate Rivalled(rs: seq<Record>, r: Record, p: Primitives) {
    OneContent(rs, r, p) && FirstDelivery(rs, r) && !Unrivalled(rs, r, p)
  }

  // ---- The answer ----

  /** Ascending by table, canonical key, sequence number and event id. */
  predicate AcceptedBefore(a: Event, b: Event) {
    && StringLe(a.change.table, b.change.table)
    && (a.change.table == b.change.table ==>
          && StringLe(a.change.canonical, b.change.canonical)
          && (a.change.canonical == b.change.canonical ==>
                && a.change.sequence <= b.change.sequence
                && (a.change.sequence == b.change.sequence ==> StringLe(a.change.eventId, b.change.eventId))))
  }

  /** A quarantined record under a code. */
  predicate Quarantines(q: Quarantined, code: string, r: Record) {
    && q.code == code && q.raw == Fields(r.change, r.batchId) && q.eventId == r.change.eventId
    && q.table == r.change.table && q.sourceFile == r.sourceFile && q.batchId == r.batchId && q.line == 0
  }

  /** Conflicting contents, or a first delivery that another event rivals. */
  predicate Rejects(q: Quarantined, rs: seq<Record>, r: Record, p: Primitives) {
    || (!OneContent(rs, r, p) && Quarantines(q, "DUPLICATE_EVENT_CONFLICT", r))
    || (Rivalled(rs, r, p) && Quarantines(q, "SEQUENCE_CONFLICT", r))
  }

  ghost predicate AcceptedAnswer(accepted: seq<Event>, rs: seq<Record>, p: Primitives) {
    && (forall e :: e in accepted <==> exists r :: r in rs && CarriesRecord(e, r, rs, p) && Accepts(rs, r, p))
    && |accepted| == |set i | 0 <= i < |rs| && Accepts(rs, rs[i], p)|
    && forall i, j :: 0 <= i < j < |accepted| ==> AcceptedBefore(accepted[i], accepted[j])
  }

  ghost predicate QuarantineAnswer(out: Processed, rs: seq<Record>, p: Primitives) {
    && (forall q :: q in out.quarantined <==> exists r :: r in rs && Rejects(q, rs, r, p))
    && |out.quarantined| == out.eventConflicts + out.sequenceConflicts
  }

  ghost predicate CountsAnswer(out: Processed, rs: seq<Record>, p: Primitives) {
    && out.dropped == |set i | 0 <= i < |rs| && Redundant(rs, rs[i], p)|
    && out.eventConflicts == |set i | 0 <= i < |rs| && !OneContent(rs, rs[i], p)|
    && out.sequenceConflicts == |set i | 0 <= i < |rs| && Rivalled(rs, rs[i], p)|
  }

  ghost predicate Answers(out: Processed, rs: seq<Record>, p: Primitives) {
    AcceptedAnswer(out.accepted, rs, p) && QuarantineAnswer(out, rs, p) && CountsAnswer(out, rs, p)
  }

  // ---- Verdicts are answers ----

  lemma BeforeIs(a: Record, b: Record)
    ensures ProvenanceLe(a, b) == DeliveredBefore(a, b)
  {
    StringCases(a.batchId, b.batchId, a.batchId);
    StringCases(a.ingestionBatchId, b.ingestionBatchId, a.ingestionBatchId);
    StringCases(a.sourceFile, b.sourceFile, a.sourceFile);
    hide StringLe;
  }

  lemma LateIs(rs: seq<Record>, r: Record, p: Primitives)
    ensures IsLate(rs, r, p) == ArrivesLate(rs, r, p)
  {
    hide StringLe;
    forall s: Record ensures LateBatch(s) == s.Batch() {}
  }

  /** The enriched row of a record. */
  function RowFor(rs: seq<Record>, r: Record, p: Primitives): Enriched { EnrichWith(r, IsLate(rs, r, p), p) }

  lemma RowsAre(rs: seq<Record>, p: Primitives)
    ensures |Enrich(rs, p)| == |rs| && forall i :: 0 <= i < |rs| ==> Enrich(rs, p)[i] == RowFor(rs, rs[i], p)
    ensures forall r :: r in rs ==> RowFor(rs, r, p) in Enrich(rs, p)
    ensures forall x :: x in Enrich(rs, p) ==> x.record in rs && x == RowFor(rs, x.record, p)
  {
    hide EnrichWith, IsLate;
    forall r | r in rs ensures RowFor(rs, r, p) in Enrich(rs, p) {
      var i :| 0 <= i < |rs| && rs[i] == r;
      assert Enrich(rs, p)[i] == RowFor(rs, r, p);
    }
    forall x | x in Enrich(rs, p) ensures x.record in rs && x == RowFor(rs, x.record, p) {
      EnrichedFrom(rs, p, x);
    }
  }

  lemma RowCarries(rs: seq<Record>, r: Record, p: Primitives)
    ensures CarriesRecord(RowFor(rs, r, p).event, r, rs, p) && RowFor(rs, r, p).record == r
  {
    LateIs(rs, r, p);
    hide IsLate, ArrivesLate;
  }

  lemma ContentIs(rs: seq<Record>, r: Record, p: Primitives)
    requires r in rs
    ensures Conflicted(Enrich(rs, p), RowFor(rs, r, p)) <==> !OneContent(rs, r, p)
    ensures Wins(Enrich(rs, p), RowFor(rs, r, p)) <==> FirstDelivery(rs, r)
  {
    var es, x := Enrich(rs, p), RowFor(rs, r, p);
    RowsAre(rs, p);
    hide Enrich, IsLate, ProvenanceLe, DeliveredBefore;
    if s :| s in rs && s.change.eventId == r.change.eventId && p.fingerprint(s.change) != p.fingerprint(r.change) {
      assert RowFor(rs, s, p) in es;
    }
    forall s | s in rs && s.change.eventId == r.change.eventId
      ensures Wins(es, x) ==> DeliveredBefore(r, s)
    {
      BeforeIs(r, s);
      assert RowFor(rs, s, p) in es;
    }
    forall y | y in es && y.event.Id() == x.event.Id() ensures FirstDelivery(rs, r) ==> ProvenanceLe(r, y.record) {
      BeforeIs(r, y.record);
    }
  }

  /** The same place in the sequence of one entity. */
  predicate SamePlace(s: Record, r: Record, p: Primitives) {
    && s.change.sequence == r.change.sequence
    && s.change.table + ":" + p.canon(s.change.businessKey) == r.change.table + ":" + p.canon(r.change.businessKey)
  }

  lemma SlotIs(rs: seq<Record>, r: Record, s: Record, p: Primitives)
    ensures SameSlot(RowFor(rs, r, p).event, RowFor(rs, s, p).event) <==> SamePlace(s, r, p)
    ensures RowFor(rs, r, p) == RowFor(rs, s, p) ==> r == s
  {
    hide IsLate;
  }

  lemma RivalIs(rs: seq<Record>, r: Record, p: Primitives)
    requires r in rs
    ensures Collides(Enrich(rs, p), RowFor(rs, r, p)) <==> !Unrivalled(rs, r, p)
  {
    var es, x := Enrich(rs, p), RowFor(rs, r, p);
    RowsAre(rs, p);
    forall s | s in rs
      ensures Retained(es, RowFor(rs, s, p)) <==> OneContent(rs, s, p) && FirstDelivery(rs, s)
      ensures SameSlot(x.event, RowFor(rs, s, p).event) <==> SamePlace(s, r, p)
      ensures RowFor(rs, s, p) == x ==> s == r
    {
      ContentIs(rs, s, p);
      SlotIs(rs, r, s, p);
    }
    assert Unrivalled(rs, r, p) <==>
      forall s :: s in rs && s != r && OneContent(rs, s, p) && FirstDelivery(rs, s) ==> !SamePlace(s, r, p);
    hide Enrich, RowFor, Retained, OneContent, FirstDelivery, Unrivalled, SamePlace, SameSlot;
    if y :| y in es && y != x && Retained(es, y) && SameSlot(x.event, y.event) {
      assert y == RowFor(rs, y.record, p) && y.record in rs;
    }
    if s :| s in rs && s != r && OneContent(rs, s, p) && FirstDelivery(rs, s) && SamePlace(s, r, p) {
      assert RowFor(rs, s, p) in es;
    }
  }

  lemma VerdictIs(rs: seq<Record>, r: Record, p: Primitives)
    requires r in rs
    ensures VerdictOf(Enrich(rs, p), RowFor(rs, r, p)) ==
            if !OneContent(rs, r, p) then EVENT_CONFLICT
            else if !FirstDelivery(rs, r) then DROPPED
            else if !Unrivalled(rs, r, p) then SEQUENCE_CONFLICT
            else ACCEPTED
  {
    ContentIs(rs, r, p);
    RivalIs(rs, r, p);
    hide Enrich, RowFor, Conflicted, Wins, Collides, OneContent, FirstDelivery, Unrivalled;
  }

  /** How many records get a verdict. */
  lemma VerdictCount(rs: seq<Record>, p: Primitives, v: Verdict, gets: Record -> bool)
    requires forall r :: r in rs ==> (VerdictOf(Enrich(rs, p), RowFor(rs, r, p)) == v <==> gets(r))
    ensures |With(Enrich(rs, p), v)| == |Positions(rs, gets)|
  {
    var es := Enrich(rs, p);
    var keep := (x: Enriched) => VerdictOf(es, x) == v;
    RowsAre(rs, p);
    FilterPositions(es, keep);
    hide Enrich, VerdictOf, RowFor;
    assert Positions(es, keep) == Positions(rs, gets);
  }

  lemma SamePositions(rs: seq<Record>, keep: Record -> bool, all: set<int>)
    requires forall i :: i in all <==> 0 <= i < |rs| && keep(rs[i])
    ensures |Positions(rs, keep)| == |all|
  {
    assert Positions(rs, keep) == all;
  }

  lemma VerdictNames(rs: seq<Record>, r: Record, p: Primitives)
    requires r in rs
    ensures var v := VerdictOf(Enrich(rs, p), RowFor(rs, r, p));
      && (v == EVENT_CONFLICT <==> !OneContent(rs, r, p)) && (v == DROPPED <==> Redundant(rs, r, p))
      && (v == SEQUENCE_CONFLICT <==> Rivalled(rs, r, p)) && (v == ACCEPTED <==> Accepts(rs, r, p))
  {
    VerdictIs(rs, r, p);
    hide VerdictOf, Enrich, RowFor, OneContent, FirstDelivery, Unrivalled;
  }

  lemma ConflictCount(rs: seq<Record>, p: Primitives)
    ensures |With(Enrich(rs, p), EVENT_CONFLICT)| == |set i | 0 <= i < |rs| && !OneContent(rs, rs[i], p)|
  {
    hide *;
    forall r | r in rs ensures VerdictOf(Enrich(rs, p), RowFor(rs, r, p)) == EVENT_CONFLICT <==> !OneContent(rs, r, p) {
      VerdictNames(rs, r, p);
    }
    VerdictCount(rs, p, EVENT_CONFLICT, (r: Record) => !OneContent(rs, r, p));
    SamePositions(rs, (r: Record) => !OneContent(rs, r, p), set i | 0 <= i < |rs| && !OneContent(rs, rs[i], p));
  }

  lemma DroppedCount(rs: seq<Record>, p: Primitives)
    ensures |With(Enrich(rs, p), DROPPED)| == |set i | 0 <= i < |rs| && Redundant(rs, rs[i], p)|
  {
    hide *;
    forall r | r in rs ensures VerdictOf(Enrich(rs, p), RowFor(rs, r, p)) == DROPPED <==> Redundant(rs, r, p) {
      VerdictNames(rs, r, p);
    }
    VerdictCount(rs, p, DROPPED, (r: Record) => Redundant(rs, r, p));
    SamePositions(rs, (r: Record) => Redundant(rs, r, p), set i | 0 <= i < |rs| && Redundant(rs, rs[i], p));
  }

  lemma RivalCount(rs: seq<Record>, p: Primitives)
    ensures |With(Enrich(rs, p), SEQUENCE_CONFLICT)| == |set i | 0 <= i < |rs| && Rivalled(rs, rs[i], p)|
  {
    hide *;
    forall r | r in rs ensures VerdictOf(Enrich(rs, p), RowFor(rs, r, p)) == SEQUENCE_CONFLICT <==> Rivalled(rs, r, p) {
      VerdictNames(rs, r, p);
    }
    VerdictCount(rs, p, SEQUENCE_CONFLICT, (r: Record) => Rivalled(rs, r, p));
    SamePositions(rs, (r: Record) => Rivalled(rs, r, p), set i | 0 <= i < |rs| && Rivalled(rs, rs[i], p));
  }

  lemma AcceptedCount(rs: seq<Record>, p: Primitives)
    ensures |With(Enrich(rs, p), ACCEPTED)| == |set i | 0 <= i < |rs| && Accepts(rs, rs[i], p)|
  {
    hide *;
    forall r | r in rs ensures VerdictOf(Enrich(rs, p), RowFor(rs, r, p)) == ACCEPTED <==> Accepts(rs, r, p) {
      VerdictNames(rs, r, p);
    }
    VerdictCount(rs, p, ACCEPTED, (r: Record) => Accepts(rs, r, p));
    SamePositions(rs, (r: Record) => Accepts(rs, r, p), set i | 0 <= i < |rs| && Accepts(rs, rs[i], p));
  }

  // ---- The lists ----

  lemma AcceptedMembers(rs: seq<Record>, p: Primitives, e: Event)
    ensures e in Accepted(Enrich(rs, p)) <==> exists r :: r in rs && CarriesRecord(e, r, rs, p) && Accepts(rs, r, p)
  {
    var es := Enrich(rs, p);
    SortMembers(EventsOf(With(es, ACCEPTED)), AcceptLe);
    EventsOfMembers(With(es, ACCEPTED), e);
    RowsAre(rs, p);
    forall r | r in rs ensures VerdictOf(es, RowFor(rs, r, p)) == ACCEPTED <==> Accepts(rs, r, p) {
      VerdictIs(rs, r, p);
    }
    forall r | r in rs
      ensures CarriesRecord(e, r, rs, p) <==> e == RowFor(rs, r, p).event
    {
      RowCarries(rs, r, p);
    }
    assert forall x :: x in With(es, ACCEPTED) <==> x in es && VerdictOf(es, x) == ACCEPTED;
    hide Enrich, RowFor, VerdictOf, Accepts, CarriesRecord, With, Sort;
    if e in Accepted(es) {
      var x :| x in With(es, ACCEPTED) && x.event == e;
      assert x == RowFor(rs, x.record, p) && x.record in rs;
    }
    if r :| r in rs && CarriesRecord(e, r, rs, p) && Accepts(rs, r, p) {
      assert RowFor(rs, r, p) in With(es, ACCEPTED);
    }
  }

  lemma OrderIs(a: Event, b: Event)
    requires AcceptLe(a, b)
    ensures AcceptedBefore(a, b)
  {
    StringCases(a.change.table, b.change.table, a.change.table);
    StringCases(a.change.canonical, b.change.canonical, a.change.canonical);
    StringCases(a.Id(), b.Id(), a.Id());
  }

  lemma AcceptedIs(rs: seq<Record>, p: Primitives)
    ensures AcceptedAnswer(Accepted(Enrich(rs, p)), rs, p)
  {
    var es := Enrich(rs, p);
    var accepted := Accepted(es);
    forall e ensures e in accepted <==> exists r :: r in rs && CarriesRecord(e, r, rs, p) && Accepts(rs, r, p) {
      AcceptedMembers(rs, p, e);
    }
    AcceptLeOrder();
    SortSorted(EventsOf(With(es, ACCEPTED)), AcceptLe);
    SortPermutes(EventsOf(With(es, ACCEPTED)), AcceptLe);
    assert |multiset(accepted)| == |multiset(EventsOf(With(es, ACCEPTED)))|;
    AcceptedCount(rs, p);
    hide Enrich, With, CarriesRecord, Accepts, CountsAnswer, Sort;
    forall i, j | 0 <= i < j < |accepted| ensures AcceptedBefore(accepted[i], accepted[j]) {
      OrderIs(accepted[i], accepted[j]);
    }
  }

  lemma QuarantineAllMembers(code: string, xs: seq<Enriched>, q: Quarantined)
    ensures q in QuarantineAll(code, xs) <==> exists x :: x in xs && Quarantines(q, code, x.record)
  {
    if q in QuarantineAll(code, xs) {
      var i :| 0 <= i < |xs| && QuarantineAll(code, xs)[i] == q;
      assert xs[i] in xs;
    }
    if x :| x in xs && Quarantines(q, code, x.record) {
      var i :| 0 <= i < |xs| && xs[i] == x;
      assert QuarantineAll(code, xs)[i] == q;
    }
  }

  lemma QuarantinedUnder(rs: seq<Record>, p: Primitives, code: string, v: Verdict, q: Quarantined)
    ensures q in QuarantineAll(code, With(Enrich(rs, p), v))
            <==> exists r :: r in rs && VerdictOf(Enrich(rs, p), RowFor(rs, r, p)) == v && Quarantines(q, code, r)
  {
    var es := Enrich(rs, p);
    QuarantineAllMembers(code, With(es, v), q);
    RowsAre(rs, p);
    assert forall x :: x in With(es, v) <==> x in es && VerdictOf(es, x) == v;
    forall r ensures RowFor(rs, r, p).record == r {}
    hide Enrich, RowFor, VerdictOf, With, QuarantineAll, Quarantines;
    if x :| x in With(es, v) && Quarantines(q, code, x.record) {
      assert x == RowFor(rs, x.record, p);
    }
    if r :| r in rs && VerdictOf(es, RowFor(rs, r, p)) == v && Quarantines(q, code, r) {
      assert RowFor(rs, r, p) in With(es, v);
    }
  }

  lemma QuarantineIs(rs: seq<Record>, p: Primitives)
    ensures QuarantineAnswer(Process(rs, p), rs, p)
  {
    var out := Process(rs, p);
    Conservation(rs, p);
    forall q ensures q in out.quarantined <==> exists r :: r in rs && Rejects(q, rs, r, p) {
      QuarantinedUnder(rs, p, DUPLICATE_EVENT_CONFLICT, EVENT_CONFLICT, q);
      QuarantinedUnder(rs, p, EQUAL_SEQUENCE_CONFLICT, SEQUENCE_CONFLICT, q);
      forall r | r in rs
        ensures Rejects(q, rs, r, p) <==>
          || (VerdictOf(Enrich(rs, p), RowFor(rs, r, p)) == EVENT_CONFLICT
              && Quarantines(q, DUPLICATE_EVENT_CONFLICT, r))
          || (VerdictOf(Enrich(rs, p), RowFor(rs, r, p)) == SEQUENCE_CONFLICT
              && Quarantines(q, EQUAL_SEQUENCE_CONFLICT, r))
      {
        VerdictIs(rs, r, p);
        hide VerdictOf, OneContent, FirstDelivery, Unrivalled, Quarantines;
      }
      hide Enrich, RowFor, VerdictOf, With, QuarantineAll, Quarantines, Rejects;
    }
  }

  /** The processor's answer, in full: the accepted events are the first deliveries of ids with one content that no
      other such event rivals, with every column and in order; the quarantined ones are the conflicting deliveries and
      the rivals; and every count is that of its records. */
  lemma ProcessAnswers(rs: seq<Record>, p: Primitives)
    ensures Answers(Process(rs, p), rs, p)
  {
    AcceptedIs(rs, p);
    QuarantineIs(rs, p);
    ConflictCount(rs, p);
    DroppedCount(rs, p);
    RivalCount(rs, p);
    hide Enrich, With, AcceptedAnswer, QuarantineAnswer, OneContent, Redundant, Rivalled, Accepts;
  }
}
