/** Deduplication and conflict detection as the processor computes them (src/normalization/processor.py:153-274): window
    columns over the rows, and filters in stages. They partition the rows, and under a reading order that pins rows down
    they decide the verdicts of `Normalization`. */
module NormalizationWindows {
  import opened Cdc
  import opened Ordering
  import opened Normalization

  /** A row with its identity: equal rows may be delivered twice. */
  datatype Tagged = Tagged(index: nat, row: Enriched)

  function Tag(es: seq<Enriched>): seq<Tagged> { seq(|es|, i requires 0 <= i < |es| => Tagged(i, es[i])) }

  // ---- Windows ----

  /** The window partition of an event id. */
  function SameId(df: seq<Tagged>, id: string): seq<Tagged> { Filter(df, (t: Tagged) => t.row.event.Id() == id) }

  /** `collect_set("event_fingerprint")`. */
  function Fingerprints(group: seq<Tagged>): set<string> { set t | t in group :: t.row.event.fingerprint }

  predicate DeliveryLe(a: Tagged, b: Tagged) { ProvenanceLe(a.row.record, b.row.record) }

  /** The same partition in delivery order. */
  function Delivered(df: seq<Tagged>, id: string): seq<Tagged> { Sort(SameId(df, id), DeliveryLe) }

  function PositionOf<T(==)>(xs: seq<T>, x: T): (i: nat)
    ensures x in xs ==> i < |xs| && xs[i] == x
  {
    if xs == [] || xs[0] == x then 0 else 1 + PositionOf(xs[1..], x)
  }

  /** A row with its three derived columns. */
  datatype Numbered = Numbered(tagged: Tagged, distinctFingerprints: nat, totalEventIdCount: nat, eventIdRn: nat)

  function Number(df: seq<Tagged>, t: Tagged): Numbered {
    var id := t.row.event.Id();
    Numbered(t, |Fingerprints(SameId(df, id))|, |SameId(df, id)|, PositionOf(Delivered(df, id), t) + 1)
  }

  function NumberedRows(es: seq<Enriched>): seq<Numbered> {
    var df := Tag(es);
    Map(df, (t: Tagged) => Number(df, t))
  }

  predicate IsConflicting(n: Numbered) { n.distinctFingerprints > 1 }

  predicate IsRedundant(n: Numbered) { n.distinctFingerprints == 1 && n.totalEventIdCount > 1 && n.eventIdRn > 1 }

  predicate IsCandidate(n: Numbered) { n.distinctFingerprints == 1 && n.eventIdRn == 1 }

  function Candidates(es: seq<Enriched>): seq<Numbered> { Filter(NumberedRows(es), IsCandidate) }

  /** The window partition of an entity and sequence number. */
  function SlotMates(ns: seq<Numbered>, n: Numbered): seq<Numbered> {
    Filter(ns, (m: Numbered) => SameSlot(m.tagged.row.event, n.tagged.row.event))
  }

  datatype Slotted = Slotted(numbered: Numbered, seqCollisionCount: nat)

  function SlottedRows(es: seq<Enriched>): seq<Slotted> {
    var ns := Candidates(es);
    Map(ns, (n: Numbered) => Slotted(n, |SlotMates(ns, n)|))
  }

  function RowsOf(ns: seq<Numbered>): seq<Enriched> { Map(ns, (n: Numbered) => n.tagged.row) }

  function SlottedRowsOf(ss: seq<Slotted>): seq<Enriched> { Map(ss, (s: Slotted) => s.numbered.tagged.row) }

  datatype Stages = Stages(conflicting: seq<Enriched>, redundant: seq<Enriched>, colliding: seq<Enriched>,
                           clean: seq<Enriched>)

  /** The four filters. */
  function Staged(es: seq<Enriched>): Stages {
    Stages(RowsOf(Filter(NumberedRows(es), IsConflicting)),
           RowsOf(Filter(NumberedRows(es), IsRedundant)),
           SlottedRowsOf(Filter(SlottedRows(es), (s: Slotted) => s.seqCollisionCount > 1)),
           SlottedRowsOf(Filter(SlottedRows(es), (s: Slotted) => s.seqCollisionCount == 1)))
  }

  // ---- What the columns hold ----

  lemma TagFacts(es: seq<Enriched>, t: Tagged)
    ensures Distinct(Tag(es))
    ensures t in Tag(es) <==> t.index < |es| && t.row == es[t.index]
  {
    if t.index < |es| && t.row == es[t.index] {
      assert Tag(es)[t.index] == t;
    }
  }

  lemma NumberedAt(es: seq<Enriched>, i: nat)
    requires i < |es|
    ensures |NumberedRows(es)| == |es| && NumberedRows(es)[i] == Number(Tag(es), Tagged(i, es[i]))
    ensures NumberedRows(es)[i].tagged == Tagged(i, es[i]) && Tagged(i, es[i]) in Tag(es)
  {
    TagFacts(es, Tagged(i, es[i]));
  }

  /** The columns of a row are consistent: at least one fingerprint, and a row number within the partition. */
  lemma ColumnsInRange(df: seq<Tagged>, t: Tagged)
    requires t in df
    ensures var n := Number(df, t);
      n.distinctFingerprints >= 1 && 1 <= n.eventIdRn <= n.totalEventIdCount
  {
    var id := t.row.event.Id();
    var group := SameId(df, id);
    assert t in group && t.row.event.fingerprint in Fingerprints(group);
    SortMembers(group, DeliveryLe);
    SortPermutes(group, DeliveryLe);
    assert |multiset(Delivered(df, id))| == |multiset(group)|;
  }

  lemma SingletonIff<T>(s: set<T>, x: T)
    requires x in s
    ensures |s| == 1 <==> forall y :: y in s ==> y == x
  {
    if forall y :: y in s ==> y == x {
      assert s == {x};
    } else {
      var y :| y in s && y != x;
      assert s == (s - {x, y}) + {x, y} && |s| == |s - {x, y}| + 2;
    }
  }

  /** `distinct_fingerprints` decides conflicts of event ids. */
  lemma FingerprintColumn(es: seq<Enriched>, i: nat)
    requires i < |es|
    ensures IsConflicting(NumberedRows(es)[i]) <==> Conflicted(es, es[i])
    ensures NumberedRows(es)[i].distinctFingerprints == 1 <==> !Conflicted(es, es[i])
  {
    NumberedAt(es, i);
    var e, df := es[i], Tag(es);
    var t := Tagged(i, e);
    var group := SameId(df, e.event.Id());
    ColumnsInRange(df, t);
    assert t in group && e.event.fingerprint in Fingerprints(group);
    SingletonIff(Fingerprints(group), e.event.fingerprint);
    forall f | f in es && f.event.Id() == e.event.Id() ensures f.event.fingerprint in Fingerprints(group) {
      var j :| 0 <= j < |es| && es[j] == f;
      NumberedAt(es, j);
      assert Tagged(j, f) in group;
    }
    forall u | u in group ensures u.row in es && u.row.event.Id() == e.event.Id() {
      TagFacts(es, u);
    }
  }

  lemma DeliveryOrder()
    ensures TotalPreorder(DeliveryLe)
  {
    forall a, b ensures DeliveryLe(a, b) || DeliveryLe(b, a) {
      ProvenanceOrder(a.row.record, b.row.record, b.row.record);
    }
    forall a, b, c | DeliveryLe(a, b) && DeliveryLe(b, c) ensures DeliveryLe(a, c) {
      ProvenanceOrder(a.row.record, b.row.record, c.row.record);
    }
  }

  /** The first delivery of an id, in the partition and before all others. */
  lemma DeliveredFirst(df: seq<Tagged>, id: string)
    requires SameId(df, id) != []
    ensures Delivered(df, id) != [] && Delivered(df, id)[0] in SameId(df, id)
    ensures forall u :: u in SameId(df, id) ==> DeliveryLe(Delivered(df, id)[0], u)
  {
    var group, sorted := SameId(df, id), Delivered(df, id);
    DeliveryOrder();
    SortSorted(group, DeliveryLe);
    SortMembers(group, DeliveryLe);
    assert group[0] in group;
    forall u | u in group ensures DeliveryLe(sorted[0], u) {
      var j :| 0 <= j < |sorted| && sorted[j] == u;
    }
  }

  /** `event_id_rn` is 1 for exactly one row of each partition. */
  lemma RowNumberOne(df: seq<Tagged>, t: Tagged)
    requires t in df
    ensures Delivered(df, t.row.event.Id()) != []
    ensures Number(df, t).eventIdRn == 1 <==> Delivered(df, t.row.event.Id())[0] == t
  {
    var id := t.row.event.Id();
    assert t in SameId(df, id);
    DeliveredFirst(df, id);
    SortMembers(SameId(df, id), DeliveryLe);
    assert t in Delivered(df, id);
  }

  /** Under a reading order that pins rows down, `event_id_rn` decides which delivery wins. */
  lemma RowNumberColumn(es: seq<Enriched>, i: nat)
    requires Pinned(es) && i < |es|
    ensures NumberedRows(es)[i].eventIdRn == 1 <==> Wins(es, es[i])
  {
    NumberedAt(es, i);
    var e, df := es[i], Tag(es);
    var t, id := Tagged(i, e), e.event.Id();
    assert t in SameId(df, id);
    DeliveredFirst(df, id);
    RowNumberOne(df, t);
    var first := Delivered(df, id)[0];
    TagFacts(es, first);
    if first == t {
      forall f | f in es && f.event.Id() == id ensures ProvenanceLe(e.record, f.record) {
        var j :| 0 <= j < |es| && es[j] == f;
        NumberedAt(es, j);
        assert Tagged(j, f) in SameId(df, id);
      }
    }
    if Wins(es, e) {
      assert ProvenanceLe(e.record, first.row.record) && DeliveryLe(first, t);
      ProvenanceOrder(e.record, first.row.record, e.record);
      PinnedIndex(es, i, first.index);
    }
  }

  lemma PinnedIndex(es: seq<Enriched>, i: nat, j: nat)
    requires Pinned(es) && i < |es| && j < |es|
    requires es[i].record.sourceFile == es[j].record.sourceFile && es[i].record.order == es[j].record.order
    ensures i == j
  {
    if i < j {
      assert false;
    } else if j < i {
      assert false;
    }
  }

  /** The candidates are the rows that are first deliveries of consistent ids. */
  lemma CandidateIff(es: seq<Enriched>, i: nat)
    requires Pinned(es) && i < |es|
    ensures IsCandidate(NumberedRows(es)[i]) <==> Retained(es, es[i])
    ensures IsRedundant(NumberedRows(es)[i]) <==> !Conflicted(es, es[i]) && !Wins(es, es[i])
  {
    FingerprintColumn(es, i);
    RowNumberColumn(es, i);
    NumberedAt(es, i);
    ColumnsInRange(Tag(es), Tagged(i, es[i]));
    hide Number, Conflicted, Wins, Tag, Pinned, NumberedRows;
  }

  // ---- Partition ----

  lemma NumberedMember(es: seq<Enriched>, n: Numbered)
    requires n in NumberedRows(es)
    ensures n.tagged.index < |es| && n == NumberedRows(es)[n.tagged.index] && n.tagged in Tag(es)
    ensures n == Number(Tag(es), n.tagged)
  {
    var i :| 0 <= i < |NumberedRows(es)| && NumberedRows(es)[i] == n;
    NumberedAt(es, i);
  }

  lemma NumberedPartition(es: seq<Enriched>)
    ensures multiset(Filter(NumberedRows(es), IsConflicting)) + multiset(Filter(NumberedRows(es), IsRedundant))
            + multiset(Candidates(es)) == multiset(NumberedRows(es))
  {
    forall n | n in NumberedRows(es)
      ensures (IsConflicting(n) <==> !IsRedundant(n) && !IsCandidate(n)) && !(IsRedundant(n) && IsCandidate(n))
    {
      NumberedMember(es, n);
      ColumnsInRange(Tag(es), n.tagged);
    }
    FilterThreeWays(NumberedRows(es), IsConflicting, IsRedundant, IsCandidate);
  }

  lemma SlottedPartition(es: seq<Enriched>)
    ensures multiset(Staged(es).colliding) + multiset(Staged(es).clean) == multiset(RowsOf(Candidates(es)))
  {
    var ns, ss := Candidates(es), SlottedRows(es);
    var many, one := (s: Slotted) => s.seqCollisionCount > 1, (s: Slotted) => s.seqCollisionCount == 1;
    forall i | 0 <= i < |ss| ensures many(ss[i]) <==> !one(ss[i]) {
      assert ns[i] in SlotMates(ns, ns[i]);
    }
    assert SlottedRowsOf(ss) == RowsOf(ns);
    hide SlottedRows, Candidates, SlotMates, NumberedRows;
    FilterTwoWays(ss, many, one);
    MapTwoWays(Filter(ss, many), Filter(ss, one), ss, (s: Slotted) => s.numbered.tagged.row);
  }

  lemma RowsOfNumbered(es: seq<Enriched>)
    ensures RowsOf(NumberedRows(es)) == es
  {
    forall i | 0 <= i < |es| ensures |NumberedRows(es)| == |es| && NumberedRows(es)[i].tagged.row == es[i] {
      NumberedAt(es, i);
    }
  }

  /** Partition: with multiplicity, every delivery leaves through exactly one of the four filters. No hypothesis. */
  lemma StagesPartition(es: seq<Enriched>)
    ensures var s := Staged(es);
      multiset(s.conflicting) + multiset(s.redundant) + multiset(s.colliding) + multiset(s.clean) == multiset(es)
  {
    var all := NumberedRows(es);
    var a, b, c := Filter(all, IsConflicting), Filter(all, IsRedundant), Candidates(es);
    var row := (n: Numbered) => n.tagged.row;
    NumberedPartition(es);
    SlottedPartition(es);
    RowsOfNumbered(es);
    assert Staged(es).conflicting == RowsOf(a) && Staged(es).redundant == RowsOf(b);
    hide Candidates, Staged, NumberedRows;
    assert multiset(a + b) == multiset(a) + multiset(b);
    MapTwoWays(a, b, a + b, row);
    MapTwoWays(a + b, c, all, row);
  }

  // ---- One copy ----

  lemma NumberedDistinct(es: seq<Enriched>)
    ensures Distinct(NumberedRows(es)) && Distinct(Candidates(es))
  {
    var all := NumberedRows(es);
    forall i, j | 0 <= i < j < |all| ensures all[i] != all[j] {
      NumberedAt(es, i);
      NumberedAt(es, j);
    }
    FilterDistinct(all, IsCandidate);
  }

  /** The first delivery's row is among the candidates. */
  lemma FirstIsCandidate(es: seq<Enriched>, i: nat) returns (n: Numbered)
    requires i < |es| && !Conflicted(es, es[i])
    ensures n in Candidates(es) && n.tagged.row.event.Id() == es[i].event.Id()
    ensures Delivered(Tag(es), es[i].event.Id()) != [] && n.tagged == Delivered(Tag(es), es[i].event.Id())[0]
  {
    var df, id, t := Tag(es), es[i].event.Id(), Tagged(i, es[i]);
    NumberedAt(es, i);
    assert t in SameId(df, id);
    DeliveredFirst(df, id);
    var first := Delivered(df, id)[0];
    TagFacts(es, first);
    NumberedAt(es, first.index);
    RowNumberOne(df, first);
    FingerprintColumn(es, i);
    n := NumberedRows(es)[first.index];
  }

  /** Of a consistently delivered event id exactly one row survives deduplication, whatever ties the delivery order
      has. */
  lemma OneCopySurvives(es: seq<Enriched>, e: Enriched)
    requires e in es && !Conflicted(es, e)
    ensures |Filter(Candidates(es), (n: Numbered) => n.tagged.row.event.Id() == e.event.Id())| == 1
  {
    var i :| 0 <= i < |es| && es[i] == e;
    var id, ns := e.event.Id(), Candidates(es);
    var mine := (n: Numbered) => n.tagged.row.event.Id() == id;
    var n := FirstIsCandidate(es, i);
    NumberedDistinct(es);
    FilterDistinct(ns, mine);
    forall m | m in Filter(ns, mine) ensures m == n {
      NumberedMember(es, m);
      NumberedMember(es, n);
      RowNumberOne(Tag(es), m.tagged);
    }
    MoreThanOneIff(Filter(ns, mine), n);
  }

  // ---- The stages are the verdicts ----

  function RetainedRows(es: seq<Enriched>): seq<Enriched> { Filter(es, (e: Enriched) => Retained(es, e)) }

  /** A filter of the numbered rows is a filter of the rows. */
  lemma NumberedStage(es: seq<Enriched>, column: Numbered -> bool, verdict: Enriched -> bool)
    requires forall i :: 0 <= i < |es| ==> |NumberedRows(es)| == |es| && column(NumberedRows(es)[i]) == verdict(es[i])
    ensures RowsOf(Filter(NumberedRows(es), column)) == Filter(es, verdict)
  {
    forall i | 0 <= i < |es| ensures NumberedRows(es)[i].tagged.row == es[i] {
      NumberedAt(es, i);
    }
    FilterAligned(NumberedRows(es), es, column, verdict, (n: Numbered) => n.tagged.row, (e: Enriched) => e);
    MapIdentity(Filter(es, verdict), (e: Enriched) => e);
  }

  lemma DuplicateStages(es: seq<Enriched>)
    requires Pinned(es)
    ensures Staged(es).conflicting == With(es, EVENT_CONFLICT) && Staged(es).redundant == With(es, DROPPED)
    ensures RowsOf(Candidates(es)) == RetainedRows(es)
  {
    forall i | 0 <= i < |es|
      ensures |NumberedRows(es)| == |es|
      ensures IsConflicting(NumberedRows(es)[i]) == (VerdictOf(es, es[i]) == EVENT_CONFLICT)
      ensures IsRedundant(NumberedRows(es)[i]) == (VerdictOf(es, es[i]) == DROPPED)
      ensures IsCandidate(NumberedRows(es)[i]) == Retained(es, es[i])
    {
      NumberedAt(es, i);
      FingerprintColumn(es, i);
      CandidateIff(es, i);
    }
    NumberedStage(es, IsConflicting, (e: Enriched) => VerdictOf(es, e) == EVENT_CONFLICT);
    NumberedStage(es, IsRedundant, (e: Enriched) => VerdictOf(es, e) == DROPPED);
    NumberedStage(es, IsCandidate, (e: Enriched) => Retained(es, e));
  }

  lemma CandidateMember(es: seq<Enriched>, n: Numbered)
    requires Pinned(es) && n in Candidates(es)
    ensures n.tagged.index < |es| && n == NumberedRows(es)[n.tagged.index] && n.tagged.row == es[n.tagged.index]
    ensures Retained(es, n.tagged.row)
  {
    NumberedMember(es, n);
    NumberedAt(es, n.tagged.index);
    CandidateIff(es, n.tagged.index);
  }

  lemma MateCollides(es: seq<Enriched>, n: Numbered, m: Numbered)
    requires Pinned(es) && n in Candidates(es) && m in SlotMates(Candidates(es), n) && m != n
    ensures Collides(es, n.tagged.row)
  {
    CandidateMember(es, n);
    CandidateMember(es, m);
    hide NumberedRows, Candidates;
    if m.tagged.row == n.tagged.row {
      PinnedIndex(es, m.tagged.index, n.tagged.index);
    }
    hide Retained;
    assert m.tagged.row in es;
  }

  lemma ColliderIsMate(es: seq<Enriched>, n: Numbered, f: Enriched) returns (m: Numbered)
    requires Pinned(es) && f in es && f != n.tagged.row && Retained(es, f) && SameSlot(n.tagged.row.event, f.event)
    ensures m in SlotMates(Candidates(es), n) && m != n
  {
    var j :| 0 <= j < |es| && es[j] == f;
    NumberedAt(es, j);
    CandidateIff(es, j);
    m := NumberedRows(es)[j];
    hide Retained, IsCandidate, Number;
    assert m in NumberedRows(es);
  }

  /** `seq_collision_count` decides collisions. */
  lemma CollisionColumn(es: seq<Enriched>, n: Numbered)
    requires Pinned(es) && n in Candidates(es)
    ensures |SlotMates(Candidates(es), n)| > 1 <==> Collides(es, n.tagged.row)
  {
    var ns, e := Candidates(es), n.tagged.row;
    var mates := SlotMates(ns, n);
    NumberedDistinct(es);
    FilterDistinct(ns, (m: Numbered) => SameSlot(m.tagged.row.event, n.tagged.row.event));
    assert n in mates;
    hide Candidates, SlotMates, Retained, Pinned;
    MoreThanOneIff(mates, n);
    if m :| m in mates && m != n {
      MateCollides(es, n, m);
    }
    if f :| f in es && f != e && Retained(es, f) && SameSlot(e.event, f.event) {
      var m := ColliderIsMate(es, n, f);
    }
  }

  /** A filter of the slotted rows is a filter of the retained ones. */
  lemma SlottedStage(es: seq<Enriched>, column: Slotted -> bool, among: Enriched -> bool, v: Verdict)
    requires RowsOf(Candidates(es)) == RetainedRows(es)
    requires forall s :: s in SlottedRows(es) ==> column(s) == among(s.numbered.tagged.row)
    requires forall e :: e in es ==> (Retained(es, e) && among(e) <==> VerdictOf(es, e) == v)
    ensures SlottedRowsOf(Filter(SlottedRows(es), column)) == With(es, v)
  {
    var ss, rows := SlottedRows(es), RetainedRows(es);
    assert |ss| == |RowsOf(Candidates(es))|;
    forall i | 0 <= i < |ss| ensures column(ss[i]) == among(rows[i]) && ss[i].numbered.tagged.row == rows[i] {
      assert ss[i] in ss && RowsOf(Candidates(es))[i] == rows[i];
    }
    FilterAligned(ss, rows, column, among, (s: Slotted) => s.numbered.tagged.row, (e: Enriched) => e);
    MapIdentity(Filter(rows, among), (e: Enriched) => e);
    FilterFilter(es, (e: Enriched) => Retained(es, e), among, (e: Enriched) => VerdictOf(es, e) == v);
  }

  lemma SlottedMember(es: seq<Enriched>, s: Slotted)
    requires Pinned(es) && s in SlottedRows(es)
    ensures s.seqCollisionCount > 1 <==> Collides(es, s.numbered.tagged.row)
    ensures s.seqCollisionCount == 1 <==> !Collides(es, s.numbered.tagged.row)
  {
    var ns := Candidates(es);
    var i :| 0 <= i < |SlottedRows(es)| && SlottedRows(es)[i] == s;
    assert ns[i] in ns && s == Slotted(ns[i], |SlotMates(ns, ns[i])|);
    assert ns[i] in SlotMates(ns, ns[i]);
    CollisionColumn(es, ns[i]);
  }

  /** Under a reading order that pins rows down the stages hold exactly the rows of each verdict. */
  lemma StagesAreVerdicts(es: seq<Enriched>)
    requires Pinned(es)
    ensures Staged(es)
            == Stages(With(es, EVENT_CONFLICT), With(es, DROPPED), With(es, SEQUENCE_CONFLICT), With(es, ACCEPTED))
  {
    DuplicateStages(es);
    forall s | s in SlottedRows(es)
      ensures s.seqCollisionCount > 1 <==> Collides(es, s.numbered.tagged.row)
      ensures s.seqCollisionCount == 1 <==> !Collides(es, s.numbered.tagged.row)
    {
      SlottedMember(es, s);
    }
    hide SlottedRows, Candidates, Conflicted, Wins, Collides;
    SlottedStage(es, (s: Slotted) => s.seqCollisionCount > 1, (e: Enriched) => Collides(es, e), SEQUENCE_CONFLICT);
    SlottedStage(es, (s: Slotted) => s.seqCollisionCount == 1, (e: Enriched) => !Collides(es, e), ACCEPTED);
  }

  /** What leaves through the last filter, in full: events whose id has one fingerprint, in their first delivery, with
      no other such event at their entity and sequence number. */
  lemma CleanIff(es: seq<Enriched>, e: Event)
    requires Pinned(es)
    ensures e in EventsOf(Staged(es).clean)
            <==> exists x :: x in es && x.event == e && !Conflicted(es, x) && Wins(es, x) && !Collides(es, x)
  {
    StagesAreVerdicts(es);
    EventsOfMembers(With(es, ACCEPTED), e);
    forall x ensures x in With(es, ACCEPTED) <==> x in es && !Conflicted(es, x) && Wins(es, x) && !Collides(es, x) {}
    hide Staged, With, Conflicted, Wins, Collides;
  }

  // ---- The result ----

  function Collected(s: Stages): Processed {
    Processed(Sort(EventsOf(s.clean), AcceptLe),
              QuarantineAll(DUPLICATE_EVENT_CONFLICT, s.conflicting)
              + QuarantineAll(EQUAL_SEQUENCE_CONFLICT, s.colliding),
              |s.redundant|, |s.conflicting|, |s.colliding|)
  }

  /** With distinct ingestion order numbers the columns compute the specified result. */
  lemma CollectedIsProcess(rs: seq<Record>, p: Primitives)
    requires UniqueOrders(rs)
    ensures Collected(Staged(Enrich(rs, p))) == Process(rs, p)
  {
    EnrichedPinned(rs, p);
    StagesAreVerdicts(Enrich(rs, p));
    hide Staged, With, Enrich;
  }

  /** Conservation, whatever the order numbers: records in are accepted, dropped or quarantined. */
  lemma StagedConservation(rs: seq<Record>, p: Primitives)
    ensures var out := Collected(Staged(Enrich(rs, p)));
      && |rs| == |out.accepted| + out.dropped + |out.quarantined|
      && |out.quarantined| == out.eventConflicts + out.sequenceConflicts
  {
    var es := Enrich(rs, p);
    var s := Staged(es);
    StagesPartition(es);
    hide Staged;
    assert |multiset(s.conflicting) + multiset(s.redundant) + multiset(s.colliding) + multiset(s.clean)|
      == |multiset(es)|;
    SortPermutes(EventsOf(s.clean), AcceptLe);
    assert |multiset(Sort(EventsOf(s.clean), AcceptLe))| == |multiset(EventsOf(s.clean))|;
  }
}
