/** The source mutation engine, the reference against which the Delta tables are reconciled
    (src/source/mutation_engine.py). */
module Oracle {
  import opened Cdc
  import opened Ordering

  /** `CDCValidator.validate`, on the fields the engine goes on to use. */
  predicate Valid(c: Change) {
    && c.eventId != "" && c.table in TABLE_PRIMARY_KEYS && c.Recognised()
    && TABLE_PRIMARY_KEYS[c.table] in c.businessKey && c.PkValue() != ""
    && c.sequence > 0 && c.sourceSystem != ""
    && (match c.operation
        case INSERT => c.payload.Some? && c.payload.value != map[] && c.before.None?
        case UPDATE => c.payload.Some? && c.payload.value != map[] && c.before.Some? && c.before.value != map[]
        case DELETE => c.payload.None? && c.before.Some? && c.before.value != map[]
        case Unrecognised(_) => false)
  }

  /** The record an event leaves: an UPDATE without `updated_at` is stamped with its own timestamp. */
  function OracleImage(c: Change): Image {
    var image := match c.payload case Some(p) => p case None => map[];
    if c.operation == UPDATE && "updated_at" !in image then image["updated_at" := c.eventTs] else image
  }

  function OracleEffect(c: Change): Option<Image> {
    if c.Upserts() then Some(OracleImage(c)) else None
  }

  datatype OracleState = OracleState(tables: map<RowKey, Image>, sequences: map<RowKey, int>, seen: set<string>)

  function MaxSeen(st: OracleState, k: RowKey): int { if k in st.sequences then st.sequences[k] else 0 }

  /** The effect of one event that is valid, unseen and newer than its row. */
  function Mutate(st: OracleState, c: Change): OracleState {
    OracleState(
      match OracleEffect(c)
        case Some(image) => st.tables[c.Key() := image]
        case None => map k | k in st.tables && k != c.Key() :: st.tables[k],
      st.sequences[c.Key() := if MaxSeen(st, c.Key()) < c.sequence then c.sequence else MaxSeen(st, c.Key())],
      st.seen + {c.eventId})
  }

  function OracleStep(st: OracleState, c: Change): OracleState {
    if !Valid(c) || c.eventId in st.seen then st
    else if c.sequence <= MaxSeen(st, c.Key()) then st.(seen := st.seen + {c.eventId})
    else Mutate(st, c)
  }

  function OracleRun(st: OracleState, cs: seq<Change>): OracleState {
    if cs == [] then st else OracleStep(OracleRun(st, cs[..|cs| - 1]), cs[|cs| - 1])
  }

  function Loaded(snapshot: map<RowKey, Image>): OracleState {
    OracleState(snapshot, map k | k in snapshot :: 0, {})
  }

  // ---- The arg-max law ----

  ghost predicate At(cs: seq<Change>, k: RowKey, c: Change) { c in cs && Valid(c) && c.Key() == k }

  /** `c` has the highest sequence number of the valid events at `k`. */
  ghost predicate ArgMax(cs: seq<Change>, k: RowKey, c: Change) {
    At(cs, k, c) && forall d :: At(cs, k, d) ==> d.sequence <= c.sequence
  }

  /** Equal ids mean equal events, and so do equal sequence numbers at one key. */
  ghost predicate Consistent(cs: seq<Change>) {
    && (forall a, b :: a in cs && b in cs && Valid(a) && Valid(b) && a.eventId == b.eventId ==> a == b)
    && (forall a, b ::
          a in cs && b in cs && Valid(a) && Valid(b) && a.Key() == b.Key() && a.sequence == b.sequence ==> a == b)
  }

  ghost predicate ExplainedAt(snapshot: map<RowKey, Image>, st: OracleState, cs: seq<Change>, k: RowKey) {
    || ((forall c :: !At(cs, k, c)) && Lookup(st.tables, k) == Lookup(snapshot, k) && MaxSeen(st, k) == 0)
    || exists c :: ArgMax(cs, k, c) && Lookup(st.tables, k) == OracleEffect(c) && MaxSeen(st, k) == c.sequence
  }

  ghost predicate SeenIs(st: OracleState, cs: seq<Change>) {
    forall id :: id in st.seen <==> exists c :: c in cs && Valid(c) && c.eventId == id
  }

  ghost predicate Explained(snapshot: map<RowKey, Image>, st: OracleState, cs: seq<Change>) {
    SeenIs(st, cs) && forall k :: ExplainedAt(snapshot, st, cs, k)
  }

  lemma StepSeen(st: OracleState, cs: seq<Change>, c: Change)
    requires SeenIs(st, cs)
    ensures SeenIs(OracleStep(st, c), cs + [c])
  {
    forall id ensures id in OracleStep(st, c).seen <==> exists d :: d in cs + [c] && Valid(d) && d.eventId == id {
      if d :| d in cs && Valid(d) && d.eventId == id {
        assert d in cs + [c];
      } else if Valid(c) && c.eventId == id {
        assert c in cs + [c];
      }
    }
  }

  lemma StepElsewhere(snapshot: map<RowKey, Image>, st: OracleState, cs: seq<Change>, c: Change, k: RowKey)
    requires ExplainedAt(snapshot, st, cs, k)
    requires forall d :: At(cs + [c], k, d) <==> At(cs, k, d)
    requires Lookup(OracleStep(st, c).tables, k) == Lookup(st.tables, k)
    requires MaxSeen(OracleStep(st, c), k) == MaxSeen(st, k)
    ensures ExplainedAt(snapshot, OracleStep(st, c), cs + [c], k)
  {
    if d :| ArgMax(cs, k, d) && Lookup(st.tables, k) == OracleEffect(d) && MaxSeen(st, k) == d.sequence {
      assert ArgMax(cs + [c], k, d);
    }
  }

  lemma StepHere(snapshot: map<RowKey, Image>, st: OracleState, cs: seq<Change>, c: Change)
    requires ExplainedAt(snapshot, st, cs, c.Key()) && Valid(c) && c.eventId !in st.seen
    ensures ExplainedAt(snapshot, OracleStep(st, c), cs + [c], c.Key())
  {
    var k, all, next := c.Key(), cs + [c], OracleStep(st, c);
    forall d ensures At(all, k, d) <==> At(cs, k, d) || d == c {}
    if c.sequence <= MaxSeen(st, k) {
      var d :| ArgMax(cs, k, d) && Lookup(st.tables, k) == OracleEffect(d) && MaxSeen(st, k) == d.sequence;
      assert ArgMax(all, k, d);
    } else {
      assert ArgMax(all, k, c);
    }
  }

  lemma {:induction false} OracleExplained(snapshot: map<RowKey, Image>, cs: seq<Change>)
    requires Consistent(cs)
    ensures Explained(snapshot, OracleRun(Loaded(snapshot), cs), cs)
  {
    if cs != [] {
      var init, c := cs[..|cs| - 1], cs[|cs| - 1];
      var st := OracleRun(Loaded(snapshot), init);
      assert cs == init + [c];
      OracleExplained(snapshot, init);
      StepSeen(st, init, c);
      forall k ensures ExplainedAt(snapshot, OracleStep(st, c), cs, k) {
        if Valid(c) && c.Key() == k && c.eventId !in st.seen {
          StepHere(snapshot, st, init, c);
        } else {
          if c.eventId in st.seen && Valid(c) {
            var d :| d in init && Valid(d) && d.eventId == c.eventId;
            assert d in cs && c in cs && d == c;
          }
          StepElsewhere(snapshot, st, init, c, k);
        }
      }
    }
  }

  /** Arg-max law: at every key the engine holds the image of the highest-sequence valid event, or the snapshot row. */
  lemma OracleArgMax(snapshot: map<RowKey, Image>, cs: seq<Change>, k: RowKey)
    requires Consistent(cs)
    ensures var tables := OracleRun(Loaded(snapshot), cs).tables;
      && ((forall c :: !At(cs, k, c)) ==> Lookup(tables, k) == Lookup(snapshot, k))
      && (forall c :: ArgMax(cs, k, c) ==> Lookup(tables, k) == OracleEffect(c))
  {
    OracleExplained(snapshot, cs);
    var st := OracleRun(Loaded(snapshot), cs);
    assert ExplainedAt(snapshot, st, cs, k);
    forall c | ArgMax(cs, k, c) ensures Lookup(st.tables, k) == OracleEffect(c) {
      var d :| ArgMax(cs, k, d) && Lookup(st.tables, k) == OracleEffect(d);
      assert c.sequence == d.sequence && c == d;
    }
  }

  ghost predicate SameValid(cs: seq<Change>, ds: seq<Change>) {
    forall c :: Valid(c) ==> (c in cs <==> c in ds)
  }

  lemma ConvergesAt(snapshot: map<RowKey, Image>, cs: seq<Change>, ds: seq<Change>, k: RowKey)
    requires Consistent(cs) && Consistent(ds) && SameValid(cs, ds)
    ensures Lookup(OracleRun(Loaded(snapshot), cs).tables, k) == Lookup(OracleRun(Loaded(snapshot), ds).tables, k)
  {
    forall d ensures At(ds, k, d) <==> At(cs, k, d) {}
    OracleExplained(snapshot, cs);
    OracleArgMax(snapshot, ds, k);
    var st := OracleRun(Loaded(snapshot), cs);
    assert ExplainedAt(snapshot, st, cs, k);
    if c :| ArgMax(cs, k, c) && Lookup(st.tables, k) == OracleEffect(c) {
      assert ArgMax(ds, k, c);
    }
  }

  /** Convergence: the final tables depend only on the set of valid events, not on order, duplication or
      invalid ones. */
  lemma OracleConverges(snapshot: map<RowKey, Image>, cs: seq<Change>, ds: seq<Change>)
    requires Consistent(cs) && SameValid(cs, ds)
    ensures OracleRun(Loaded(snapshot), cs).tables == OracleRun(Loaded(snapshot), ds).tables
  {
    assert Consistent(ds);
    forall k
      ensures Lookup(OracleRun(Loaded(snapshot), cs).tables, k) == Lookup(OracleRun(Loaded(snapshot), ds).tables, k)
    {
      ConvergesAt(snapshot, cs, ds, k);
    }
    SameLookups(OracleRun(Loaded(snapshot), cs).tables, OracleRun(Loaded(snapshot), ds).tables);
  }

  /** Batch splitting is invisible. */
  lemma {:induction false} OracleRunConcat(st: OracleState, a: seq<Change>, b: seq<Change>)
    ensures OracleRun(st, a + b) == OracleRun(OracleRun(st, a), b)
  {
    if b == [] {
      assert a + b == a;
    } else {
      OracleRunConcat(st, a, b[..|b| - 1]);
      assert (a + b)[..|a + b| - 1] == a + b[..|b| - 1];
    }
  }

  // ---- Batches ----

  /** `str(sorted(business_key.items()))`. */
  type KeyText = map<string, string> -> string

  /** The order `apply_batch` sorts by: table, rendered business key, sequence number. */
  predicate BatchLe(render: KeyText, a: Change, b: Change) {
    if a.table != b.table then StringLe(a.table, b.table)
    else if render(a.businessKey) != render(b.businessKey) then StringLe(render(a.businessKey), render(b.businessKey))
    else a.sequence <= b.sequence
  }

  function Chosen(events: seq<Change>, sortBySequence: bool, render: KeyText): seq<Change> {
    if sortBySequence then Sort(events, (a: Change, b: Change) => BatchLe(render, a, b)) else events
  }

  datatype Batch = Batch(events: seq<Change>, sortBySequence: bool)

  function RunBatches(st: OracleState, batches: seq<Batch>, render: KeyText): OracleState {
    if batches == [] then st
    else
      var last := batches[|batches| - 1];
      OracleRun(RunBatches(st, batches[..|batches| - 1], render), Chosen(last.events, last.sortBySequence, render))
  }

  /** Batches are one run of the events as each batch orders them. */
  lemma {:induction false} RunBatchesFlat(st: OracleState, batches: seq<Batch>, render: KeyText)
    returns (cs: seq<Change>)
    ensures RunBatches(st, batches, render) == OracleRun(st, cs)
    ensures forall c :: c in cs <==> exists b :: b in batches && c in b.events
  {
    if batches == [] {
      cs := [];
    } else {
      var init, last := batches[..|batches| - 1], batches[|batches| - 1];
      var before := RunBatchesFlat(st, init, render);
      var chosen := Chosen(last.events, last.sortBySequence, render);
      SortMembers(last.events, (a: Change, b: Change) => BatchLe(render, a, b));
      OracleRunConcat(st, before, chosen);
      assert batches == init + [last];
      cs := before + chosen;
    }
  }

  /** Splitting events into any number of batches, and sorting some of them, are invisible in the tables. */
  lemma SplitAndSortConverge(snapshot: map<RowKey, Image>, batches: seq<Batch>, all: seq<Change>, render: KeyText)
    requires Consistent(all) && forall c :: c in all <==> exists b :: b in batches && c in b.events
    ensures RunBatches(Loaded(snapshot), batches, render).tables == OracleRun(Loaded(snapshot), all).tables
  {
    var cs := RunBatchesFlat(Loaded(snapshot), batches, render);
    OracleConverges(snapshot, all, cs);
  }

  // ---- The engine ----

  datatype MutationResult = MutationResult(applied: nat, duplicate: nat, stale: nat, invalid: nat, errors: seq<string>)

  /** The validator's error texts for an event. */
  type ErrorTexts = Change -> seq<string>

  datatype Outcome = APPLIED | DUPLICATE | STALE | INVALID

  /** What becomes of one event. */
  function OutcomeOf(st: OracleState, c: Change): Outcome {
    if !Valid(c) then INVALID
    else if c.eventId in st.seen then DUPLICATE
    else if c.sequence <= MaxSeen(st, c.Key()) then STALE
    else APPLIED
  }

  function Count(r: MutationResult, o: Outcome, texts: seq<string>): MutationResult {
    match o
    case APPLIED => r.(applied := r.applied + 1)
    case DUPLICATE => r.(duplicate := r.duplicate + 1)
    case STALE => r.(stale := r.stale + 1)
    case INVALID => r.(invalid := r.invalid + 1, errors := r.errors + texts)
  }

  function Tally(st: OracleState, cs: seq<Change>, explain: ErrorTexts): MutationResult {
    if cs == [] then MutationResult(0, 0, 0, 0, [])
    else
      var init, last := cs[..|cs| - 1], cs[|cs| - 1];
      Count(Tally(st, init, explain), OutcomeOf(OracleRun(st, init), last), explain(last))
  }

  lemma RunGrows(st: OracleState, cs: seq<Change>, c: Change, explain: ErrorTexts)
    ensures OracleRun(st, cs + [c]) == OracleStep(OracleRun(st, cs), c)
    ensures Tally(st, cs + [c], explain) == Count(Tally(st, cs, explain), OutcomeOf(OracleRun(st, cs), c), explain(c))
  {
    assert (cs + [c])[..|cs|] == cs;
  }

  /** The counters add up to the events, the invalid ones are counted as such and their error texts collected in
      order, and nothing changes if nothing is applied. */
  lemma {:induction false} TallyTotal(st: OracleState, cs: seq<Change>, explain: ErrorTexts)
    ensures var r := Tally(st, cs, explain);
      var rejected := Filter(cs, (c: Change) => !Valid(c));
      && r.applied + r.duplicate + r.stale + r.invalid == |cs|
      && r.invalid == |rejected| && r.errors == FlatMap(rejected, explain)
      && (r.applied == 0 ==> OracleRun(st, cs).tables == st.tables && OracleRun(st, cs).sequences == st.sequences)
  {
    if cs != [] {
      var init, last := cs[..|cs| - 1], cs[|cs| - 1];
      TallyTotal(st, init, explain);
      if !Valid(last) {
        FlatMapConcat(Filter(init, (c: Change) => !Valid(c)), [last], explain);
        assert FlatMap([last], explain) == explain(last) + FlatMap([last][1..], explain) == explain(last);
      }
    }
  }

  /** The row of the event's key, and what is kept about it, before and after a mutation. */
  predicate Mutated(st: OracleState, x: OracleState, c: Change)
    requires Valid(c)
  {
    var k := RowKey(c.table, c.businessKey[TABLE_PRIMARY_KEYS[c.table]]);
    var max := if k in st.sequences then st.sequences[k] else 0;
    && x.sequences == st.sequences[k := if max < c.sequence then c.sequence else max]
    && x.seen == st.seen + {c.eventId}
    && match c.operation
       case INSERT => x.tables == st.tables[k := c.payload.value]
       case UPDATE =>
         x.tables == st.tables[k := if "updated_at" in c.payload.value then c.payload.value
                                    else c.payload.value["updated_at" := c.eventTs]]
       case DELETE => x.tables == st.tables - {k}
       case Unrecognised(_) => false
  }

  class SourceMutationEngine {
    var tables: map<RowKey, Image>
    var entitySequences: map<RowKey, int>
    var seenEventIds: set<string>

    ghost function State(): OracleState
      reads this
    {
      OracleState(tables, entitySequences, seenEventIds)
    }

    constructor (snapshot: map<RowKey, Image>)
      ensures State() == Loaded(snapshot)
    {
      tables := snapshot;
      entitySequences := map k | k in snapshot :: 0;
      seenEventIds := {};
    }

    /** Returns whether the state was mutated. Without `enforceSequence` an old event overwrites its row, but the
        recorded sequence number never moves backwards. */
    method ApplyEvent(c: Change, enforceSequence: bool) returns (mutated: bool)
      modifies this
      ensures enforceSequence ==> State() == OracleStep(old(State()), c)
      ensures !enforceSequence && Valid(c) && c.eventId !in old(seenEventIds) ==> State() == Mutate(old(State()), c)
      ensures mutated <==> Valid(c) && c.eventId !in old(seenEventIds)
                           && (enforceSequence ==> c.sequence > MaxSeen(old(State()), c.Key()))
      ensures !Valid(c) || c.eventId in old(seenEventIds) ==> State() == old(State())
      ensures mutated ==> Mutated(old(State()), State(), c)
      ensures !mutated ==> tables == old(tables) && entitySequences == old(entitySequences)
      ensures !mutated && Valid(c) ==> seenEventIds == old(seenEventIds) + {c.eventId}
    {
      if !Valid(c) {
        return false;
      }
      if c.eventId in seenEventIds {
        return false;
      }
      var key := c.Key();
      var current := if key in entitySequences then entitySequences[key] else 0;
      if enforceSequence && c.sequence <= current {
        seenEventIds := seenEventIds + {c.eventId};
        return false;
      }
      match c.operation {
        case INSERT =>
          tables := tables[key := match c.payload case Some(p) => p case None => map[]];
        case UPDATE =>
          var record := match c.payload case Some(p) => p case None => map[];
          if "updated_at" !in record {
            record := record["updated_at" := c.eventTs];
          }
          tables := tables[key := record];
        case DELETE =>
          if key in tables {
            tables := tables - {key};
          }
          assert tables == map k | k in old(tables) && k != key :: old(tables)[k];
        case Unrecognised(_) =>
          assert false;
      }
      entitySequences := entitySequences[key := if current < c.sequence then c.sequence else current];
      seenEventIds := seenEventIds + {c.eventId};
      mutated := true;
    }

    /** The state is the fold of the events in the chosen order, and each event is counted under its own outcome. */
    method ApplyBatch(events: seq<Change>, sortBySequence: bool, render: KeyText, explain: ErrorTexts)
      returns (r: MutationResult)
      modifies this
      ensures State() == OracleRun(old(State()), Chosen(events, sortBySequence, render))
      ensures r == Tally(old(State()), Chosen(events, sortBySequence, render), explain)
    {
      var ordered := Chosen(events, sortBySequence, render);
      r := MutationResult(0, 0, 0, 0, []);
      for i := 0 to |ordered|
        invariant State() == OracleRun(old(State()), ordered[..i])
        invariant r == Tally(old(State()), ordered[..i], explain)
      {
        var c := ordered[i];
        assert ordered[..i + 1] == ordered[..i] + [c];
        RunGrows(old(State()), ordered[..i], c, explain);
        hide OracleRun, Tally, Valid, Change.PkValue, Mutate;
        if !Valid(c) {
          r := r.(invalid := r.invalid + 1, errors := r.errors + explain(c));
        } else if c.eventId in seenEventIds {
          r := r.(duplicate := r.duplicate + 1);
        } else if c.sequence <= (if c.Key() in entitySequences then entitySequences[c.Key()] else 0) {
          r := r.(stale := r.stale + 1);
          seenEventIds := seenEventIds + {c.eventId};
        } else {
          var mutated := ApplyEvent(c, true);
          if mutated {
            r := r.(applied := r.applied + 1);
          }
        }
      }
      assert ordered[..|ordered|] == ordered;
    }
  }
}
