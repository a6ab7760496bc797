/** What normalization promises is what the MERGE needs (src/normalization/processor.py:265-274,
    src/merge/pipeline.py:223-242): distinct ids, one event per entity and sequence, contiguous ascending entities,
    and no ambiguous wave. */
module NormalizationContract {
  import opened Cdc
  import opened Ordering
  import opened Normalization
  import opened NormalizationOrder
  import opened NormalizationRun
  import opened MergeSpec
  import opened MergeInvariant
  import opened MergeDecide

  // ---- Distinctness ----

  lemma AcceptedDistinct(es: seq<Enriched>)
    requires Pinned(es)
    ensures Distinct(Accepted(es))
  {
    var ws := With(es, ACCEPTED);
    assert Distinct(es);
    FilterDistinct(es, (e: Enriched) => VerdictOf(es, e) == ACCEPTED);
    forall i, j | 0 <= i < j < |ws| ensures EventsOf(ws)[i] != EventsOf(ws)[j] {
      assert ws[i] in ws && ws[j] in ws;
      if ws[i].event.Id() == ws[j].event.Id() {
        WinnersMeet(es, ws[i], ws[j]);
      }
    }
    SortPermutes(EventsOf(ws), AcceptLe);
    PermutationDistinct(EventsOf(ws), Accepted(es));
  }

  lemma AcceptedSlotsUnique(es: seq<Enriched>, e: Event, f: Event)
    requires e in Accepted(es) && f in Accepted(es) && SameSlot(e, f)
    ensures e == f
  {
    AcceptedIff(es, e);
    AcceptedIff(es, f);
    var x :| x in es && x.event == e && Retained(es, x) && !Collides(es, x);
    var y :| y in es && y.event == f && Retained(es, y) && !Collides(es, y);
    assert x == y;
  }

  /** The accepted list has distinct ids and at most one event per entity and sequence. */
  lemma AcceptedIsUnique(es: seq<Enriched>)
    requires Pinned(es)
    ensures UniqueIds(Accepted(es)) && UniqueSequences(Accepted(es))
  {
    var a := Accepted(es);
    AcceptedDistinct(es);
    forall i, j | 0 <= i < j < |a|
      ensures a[i].Id() != a[j].Id() && !(a[i].Entity() == a[j].Entity() && a[i].Sequence() == a[j].Sequence())
    {
      assert a[i] in a && a[j] in a;
      if a[i].Id() == a[j].Id() {
        AcceptedIdsUnique(es, a[i], a[j]);
      }
      if SameSlot(a[i], a[j]) {
        AcceptedSlotsUnique(es, a[i], a[j]);
      }
    }
  }

  // ---- Order ----

  ghost predicate AllNamed(es: seq<Event>) { forall e :: e in es ==> Named(e) }

  /** Enrichment names every event; validation has rejected unknown tables. */
  lemma EnrichedIsNamed(rs: seq<Record>, p: Primitives)
    requires forall r :: r in rs ==> r.change.table in TABLE_PRIMARY_KEYS
    ensures AllNamed(Accepted(Enrich(rs, p)))
  {
    forall e | e in Accepted(Enrich(rs, p)) ensures Named(e) {
      AcceptedIff(Enrich(rs, p), e);
      var x :| x in Enrich(rs, p) && x.event == e;
      EnrichedFrom(rs, p, x);
    }
  }

  lemma BetweenSameEntity(a: Event, b: Event, c: Event)
    requires AcceptLe(a, b) && AcceptLe(b, c) && a.change.table == c.change.table
    requires a.change.canonical == c.change.canonical
    ensures b.change.table == a.change.table && b.change.canonical == a.change.canonical
  {
    StringCases(a.change.table, b.change.table, c.change.table);
    StringCases(b.change.table, c.change.table, b.change.table);
    StringCases(a.change.canonical, b.change.canonical, c.change.canonical);
    StringCases(b.change.canonical, c.change.canonical, b.change.canonical);
  }

  lemma AcceptedInOrder(es: seq<Enriched>, i: nat, j: nat)
    requires i <= j < |Accepted(es)|
    ensures AcceptLe(Accepted(es)[i], Accepted(es)[j])
  {
    AcceptLeOrder();
    SortSorted(EventsOf(With(es, ACCEPTED)), AcceptLe);
  }

  lemma AscendingWithinEntity(a: Event, b: Event)
    requires AcceptLe(a, b) && Named(a) && Named(b) && a.Entity() == b.Entity() && a.Sequence() != b.Sequence()
    ensures a.Sequence() < b.Sequence() && a.change.table == b.change.table && a.change.canonical == b.change.canonical
  {
    EntityDeterminesTableAndKey(a.change, b.change);
  }

  /** Each entity's events are contiguous in the accepted list and strictly ascending in sequence. */
  lemma EntitiesAreContiguous(es: seq<Enriched>, i: nat, j: nat)
    requires Pinned(es) && AllNamed(Accepted(es))
    requires i < j < |Accepted(es)| && Accepted(es)[i].Entity() == Accepted(es)[j].Entity()
    ensures Accepted(es)[i].Sequence() < Accepted(es)[j].Sequence()
    ensures forall k :: i <= k <= j ==> Accepted(es)[k].Entity() == Accepted(es)[i].Entity()
  {
    var a := Accepted(es);
    AcceptedIsUnique(es);
    AcceptedInOrder(es, i, j);
    assert a[i] in a && a[j] in a;
    AscendingWithinEntity(a[i], a[j]);
    forall k | i <= k <= j ensures a[k].Entity() == a[i].Entity() {
      AcceptedInOrder(es, i, k);
      AcceptedInOrder(es, k, j);
      assert a[k] in a;
      BetweenSameEntity(a[i], a[k], a[j]);
    }
  }

  // ---- No ambiguous wave ----

  /** On distinct events with one event per entity and sequence, keyed consistently, no wave is ambiguous. */
  lemma NoAmbiguity(acts: seq<Event>)
    requires Distinct(acts) && AllNamed(acts)
    requires forall e, f :: e in acts && f in acts && SameSlot(e, f) ==> e == f
    requires forall e, f :: e in acts && f in acts && e.Key() == f.Key() ==> e.Entity() == f.Entity()
    ensures CheckWaves(acts, WaveOrder(acts)) == None
  {
    forall k | k in WaveOrder(acts) ensures k.table in TABLE_PRIMARY_KEYS && UniqueKeys(WaveOf(acts, k)) {
      WaveKeysMembers(acts, k);
      FilterDistinct(acts, (e: Event) => e.Wave() == k);
      var w := WaveOf(acts, k);
      forall i, j | 0 <= i < j < |w| ensures w[i].Key() != w[j].Key() {
        assert w[i] in w && w[j] in w;
        if w[i].Key() == w[j].Key() {
          assert SameSlot(w[i], w[j]);
        }
      }
    }
    CheckWavesNone(acts, WaveOrder(acts));
  }

  /** Business keys are exactly the primary key, and canonical texts render them injectively. */
  ghost predicate ExactlyKeyed(es: seq<Event>, canon: map<string, string> -> string) {
    forall e :: e in es ==> Named(e) && ExactBusinessKey(e.change) && RenderedBy(e.change, canon)
  }

  ghost predicate InjectiveCanon(canon: map<string, string> -> string) {
    forall a, b :: canon(a) == canon(b) ==> a == b
  }

  lemma ActsAre(l: Ledger, pid: string, es: seq<Event>)
    requires ClassifyAll(l, pid, es).Ok?
    ensures forall e :: e in ClassifyAll(l, pid, es).value.Actionable() ==> e in es
  {
    forall e | e in ClassifyAll(l, pid, es).value.Actionable() ensures e in es {
      ActionableIs(l, pid, es, e);
    }
  }

  /** On a normalized batch neither ambiguity check of the MERGE can fire, whatever the ledger holds. */
  lemma NormalizedNeverAmbiguous(l: Ledger, pid: string, es: seq<Enriched>, canon: map<string, string> -> string)
    requires Pinned(es) && ExactlyKeyed(Accepted(es), canon) && InjectiveCanon(canon)
    ensures Decide(l, pid, Accepted(es)) != Err(Ambiguity) && Decide(l, pid, Accepted(es)) != Err(UnknownTable)
  {
    var batch := Accepted(es);
    if ClassifyAll(l, pid, batch).Ok? {
      var acts := ClassifyAll(l, pid, batch).value.Actionable();
      ActsAre(l, pid, batch);
      AcceptedDistinct(es);
      ActionableDistinct(l, pid, batch);
      forall e, f | e in acts && f in acts && SameSlot(e, f) ensures e == f {
        AcceptedSlotsUnique(es, e, f);
      }
      forall e, f | e in acts && f in acts && e.Key() == f.Key() ensures e.Entity() == f.Entity() {
        ExactKeysIdentifyRows(e, f, canon);
      }
      NoAmbiguity(acts);
    }
    NotClassified(l, pid, batch);
  }

  /** Classification and the PENDING gate report neither error. */
  lemma {:induction false} NotClassified(l: Ledger, pid: string, es: seq<Event>)
    ensures ClassifyAll(l, pid, es).Err? ==>
      ClassifyAll(l, pid, es).error != Ambiguity && ClassifyAll(l, pid, es).error != UnknownTable
    ensures Gate(l, pid, es) != Some(Ambiguity) && Gate(l, pid, es) != Some(UnknownTable)
  {
    if es != [] {
      NotClassified(l, pid, es[..|es| - 1]);
    }
  }

  /** Normalized batches are what every theorem about the MERGE asks for. */
  lemma NormalizedIsWellFormed(cat: Catalogue, canon: map<string, string> -> string)
    requires InjectiveCanon(canon)
    requires forall pid :: pid in cat ==>
      ExactlyKeyed(cat[pid], canon) && exists es :: Pinned(es) && cat[pid] == Accepted(es)
    ensures WellFormed(cat)
  {
    forall pid | pid in cat ensures UniqueIds(cat[pid]) && UniqueSequences(cat[pid]) {
      var es :| Pinned(es) && cat[pid] == Accepted(es);
      AcceptedIsUnique(es);
    }
    forall e, f | e in All(cat) && f in All(cat) ensures Agree(e, f) {
      ExactKeysIdentifyRows(e, f, canon);
    }
  }

  // ---- The whole way from files to the MERGE ----

  /** What passes validation addresses a known table by exactly its primary key. */
  ghost predicate Strict(rules: Rules) { forall c :: rules(c).None? ==> ExactBusinessKey(c) }

  lemma ReadIsPinned(fs: seq<File>, rules: Rules, p: Primitives)
    ensures Pinned(Enrich(ValidRecords(ReadRecords(fs), rules), p))
  {
    ValidUniqueOrders(fs, rules);
    EnrichedPinned(ValidRecords(ReadRecords(fs), rules), p);
  }

  lemma EnrichedIsExact(rs: seq<Record>, p: Primitives)
    requires forall r :: r in rs ==> ExactBusinessKey(r.change)
    ensures ExactlyKeyed(Accepted(Enrich(rs, p)), p.canon)
  {
    EnrichedIsNamed(rs, p);
    forall e | e in Accepted(Enrich(rs, p)) ensures ExactBusinessKey(e.change) && RenderedBy(e.change, p.canon) {
      AcceptedIff(Enrich(rs, p), e);
      var x :| x in Enrich(rs, p) && x.event == e;
      EnrichedFrom(rs, p, x);
    }
  }

  /** Composition: when every processing set is what a normalization run accepted from some files, under rules that
      admit exact business keys only, the hypotheses of the MERGE theorems hold. */
  lemma NormalizationFeedsMerge(cat: Catalogue, rules: Rules, p: Primitives, digest: Digest)
    requires InjectiveCanon(p.canon) && Strict(rules)
    requires forall pid :: pid in cat ==> exists fs :: cat[pid] == Normalize(fs, rules, p, digest).accepted
    ensures WellFormed(cat)
  {
    forall pid | pid in cat
      ensures ExactlyKeyed(cat[pid], p.canon) && exists es :: Pinned(es) && cat[pid] == Accepted(es)
    {
      var fs :| cat[pid] == Normalize(fs, rules, p, digest).accepted;
      var rs := ValidRecords(ReadRecords(fs), rules);
      ReadIsPinned(fs, rules, p);
      EnrichedIsExact(rs, p);
      assert cat[pid] == Accepted(Enrich(rs, p));
    }
    NormalizedIsWellFormed(cat, p.canon);
  }
}
