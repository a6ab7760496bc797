/** Where the pipeline does not do what its hypotheses promise, and exactly when it does. Each result drops one
    hypothesis of the main theorems: exact business keys (src/normalization/validator.py:60-71), upper-case operations
    (validator.py:48-56, merge_engine.py:70-71), one event list per processing id (src/merge/pipeline.py:115-146). */
module MergeCounterexamples {
  import Oracle
  import opened Cdc
  import opened Ordering
  import opened MergeSpec
  import opened MergeWave
  import opened MergeRun
  import opened MergeDecide
  import opened MergeHistory
  import opened MergeMonotone

  // ---- Runs of one event ----

  /** The event has not been seen and nothing of its entity is at or above it. */
  ghost predicate Unseen(l: Ledger, e: Event) {
    e.Id() !in l && forall a :: AppliedTo(l, e.Entity(), a) ==> l[a].sequence < e.Sequence()
  }

  lemma WaveKeysShort(a: Event, b: Event)
    ensures WaveKeys([a]) == [a.Wave()] && WaveKeys([a, b]) == [a.Wave(), b.Wave()]
  {
    assert [a][..0] == [] && [a, b][..1] == [a];
  }

  lemma PairWave(a: Event, b: Event, k: WaveKey)
    ensures WaveOf([a], k) == if k == a.Wave() then [a] else []
    ensures a.Wave() != b.Wave() ==>
      WaveOf([a, b], k) == if k == a.Wave() then [a] else if k == b.Wave() then [b] else []
  {
    FilterShort(a, b, (e: Event) => e.Wave() == k);
  }

  lemma OneWave(e: Event)
    ensures WaveOrder([e]) == [e.Wave()] && Waves([e]) == [[e]]
  {
    WaveKeysShort(e, e);
    DedupeShort(e.Wave(), e.Wave());
    assert [e.Wave()][1..] == [];
    assert Sort([e.Wave()], WaveLe) == [e.Wave()];
    PairWave(e, e, e.Wave());
  }

  lemma OneClassified(l: Ledger, pid: string, e: Event)
    ensures Classify(l, pid, e) == Ok(Fresh) ==> ClassifyAll(l, pid, [e]) == Ok(Triage([e], [], [], []))
    ensures Classify(l, pid, e) == Ok(Stale) ==> ClassifyAll(l, pid, [e]) == Ok(Triage([], [], [], [e]))
  {
    assert [e][..0] == [];
    assert ClassifyAll(l, pid, []) == Ok(Triage([], [], [], []));
    assert [] + [e] == [e];
  }

  lemma OneDecision(l: Ledger, pid: string, e: Event)
    requires pid != "" && e.change.table in TABLE_PRIMARY_KEYS && NoPending(l) && Unseen(l, e)
    ensures Decide(l, pid, [e]) == Ok(Triage([e], [], [], [])) && Triage([e], [], [], []).Actionable() == [e]
  {
    ClassifyMeans(l, pid, e);
    OneClassified(l, pid, e);
    assert [e] + [] == [e];
    CheckWavesNone([e], WaveOrder([e]));
    OneKnownWave(e);
  }

  /** A run of one unseen event is that event's wave. */
  lemma OneEventRun(s: Store, pid: string, e: Event, policy: DeletePolicy)
    requires pid != "" && e.change.table in TABLE_PRIMARY_KEYS && NoPending(s.ledger) && Unseen(s.ledger, e)
    ensures Completed(s, pid, [e], policy) == WaveDone(s, [e], pid, policy)
  {
    OneDecision(s.ledger, pid, e);
    OneWave(e);
    PlanStep(s, [[e]], pid, policy, 0);
  }

  lemma OneKnownWave(e: Event)
    requires e.change.table in TABLE_PRIMARY_KEYS
    ensures forall k :: k in WaveOrder([e]) ==> k.table in TABLE_PRIMARY_KEYS && UniqueKeys(WaveOf([e], k))
  {
    forall k | k in WaveOrder([e]) ensures k.table in TABLE_PRIMARY_KEYS && UniqueKeys(WaveOf([e], k)) {
      WaveKeysMembers([e], k);
      PairWave(e, e, k);
    }
  }

  /** A run of one event below its entity's applied maximum makes no commit. */
  lemma StaleRun(s: Store, pid: string, e: Event, policy: DeletePolicy, a: string)
    requires NoPending(s.ledger) && e.Id() !in s.ledger
    requires AppliedTo(s.ledger, e.Entity(), a) && e.Sequence() < s.ledger[a].sequence
    ensures Completed(s, pid, [e], policy) == s
  {
    ClassifyMeans(s.ledger, pid, e);
    OneClassified(s.ledger, pid, e);
    assert Triage([], [], [], [e]).Actionable() == [];
    assert WaveOrder([]) == [] && Waves([]) == [];
  }

  lemma OneEventRecorded(l: Ledger, pid: string, e: Event)
    requires e.Id() !in l
    ensures Recorded(l, [e], pid) == l[e.Id() := RecordOf(e, pid, PENDING)]
    ensures Marked(Recorded(l, [e], pid), Ids([e])) == l[e.Id() := RecordOf(e, pid, APPLIED)]
  {
    hide Change.PkValue;
    assert e in [e];
    assert Ids([e]) == {e.Id()} && EventById([e], e.Id()) == e;
  }

  lemma UnrecognisedLeavesTarget(t: Target, pid: string, e: Event)
    requires !e.change.Recognised()
    ensures Mutated(t, [e], pid, HARD) == t
  {
    FilterShort(e, e, (f: Event) => f.change.Upserts());
    FilterShort(e, e, (f: Event) => f.change.Deletes());
    NoTargetCommit(t, pid, HARD);
  }

  /** What a wave of one event leaves behind. */
  lemma OneEventDone(s: Store, pid: string, e: Event)
    requires e.Id() !in s.ledger
    ensures WaveDone(s, [e], pid, HARD).ledger == s.ledger[e.Id() := RecordOf(e, pid, APPLIED)]
    ensures e.change.Recognised() ==> Lookup(WaveDone(s, [e], pid, HARD).target, e.Key()) == Effect(e, pid)
    ensures !e.change.Recognised() ==> WaveDone(s, [e], pid, HARD).target == s.target
  {
    OneEventRecorded(s.ledger, pid, e);
    if e.change.Recognised() {
      assert e in [e];
      MutatedAt(s.target, [e], pid, e.Key());
    } else {
      UnrecognisedLeavesTarget(s.target, pid, e);
    }
    hide Mutated, Recorded, Marked, Effect, Change.PkValue;
  }

  // ---- Business keys wider than the primary key ----

  /** Two events of one row, the higher sequence first. The row keeps the higher event's effect exactly when both
      events belong to one entity, or both delete: sequences are compared per entity, rows are matched per key. */
  lemma LowerSequenceWinsUnlessSameEntity(snap: Target, p1: string, p2: string, e1: Event, e2: Event)
    requires p1 != "" && p2 != "" && e1.Id() != e2.Id()
    requires e1.change.Recognised() && e2.change.Recognised()
    requires e1.change.table in TABLE_PRIMARY_KEYS && e1.Key() == e2.Key() && e2.Sequence() < e1.Sequence()
    ensures var x := Completed(Completed(Initial(snap), p1, [e1], HARD), p2, [e2], HARD);
      Lookup(x.target, e1.Key()) == Effect(e1, p1)
      <==> e1.Entity() == e2.Entity() || (e1.change.Deletes() && e2.change.Deletes())
  {
    OneEventRun(Initial(snap), p1, e1, HARD);
    OneEventDone(Initial(snap), p1, e1);
    var y := WaveDone(Initial(snap), [e1], p1, HARD);
    if e1.Entity() == e2.Entity() {
      StaleRun(y, p2, e2, HARD, e1.Id());
    } else {
      OneEventRun(y, p2, e2, HARD);
      OneEventDone(y, p2, e2);
    }
  }

  /** An update of account A that both validators let through. */
  function SampleEvent(id: string, key: map<string, string>, canonical: string, sequence: int, at: string): Event {
    Event(Change(id, "accounts", UPDATE, key, canonical, sequence, at, at,
                 Some(map["account_id" := "A", "status" := id, "updated_at" := at]),
                 Some(map["account_id" := "A", "status" := "old"]), "crm"),
          EntityKey("accounts", canonical), id, "batch", "batch", "events.jsonl", false)
  }

  /** A concrete instance: an extra business key column lets update 1 overwrite update 2 of the same account. */
  lemma ExtraKeyColumnOverwrites()
    ensures
      var e1 := SampleEvent("second", map["account_id" := "A", "region" := "EU"], "{account_id:A,region:EU}", 2,
                            "2024-01-02T00:00:00Z");
      var e2 := SampleEvent("first", map["account_id" := "A"], "{account_id:A}", 1, "2024-01-01T00:00:00Z");
      var x := Completed(Completed(Initial(map[]), "p1", [e1], HARD), "p2", [e2], HARD);
      && Oracle.Valid(e1.change) && Oracle.Valid(e2.change) && Named(e1) && Named(e2)
      && e1.Key() == e2.Key() && e2.Sequence() < e1.Sequence()
      && Lookup(x.target, e1.Key()) != Effect(e1, "p1")
  {
    var wide, exact := map["account_id" := "A", "region" := "EU"], map["account_id" := "A"];
    var e1 := SampleEvent("second", wide, "{account_id:A,region:EU}", 2, "2024-01-02T00:00:00Z");
    var e2 := SampleEvent("first", exact, "{account_id:A}", 1, "2024-01-01T00:00:00Z");
    SampleIsValid("second", wide, "{account_id:A,region:EU}", 2, "2024-01-02T00:00:00Z");
    SampleIsValid("first", exact, "{account_id:A}", 1, "2024-01-01T00:00:00Z");
    assert e1.Id()[0] != e2.Id()[0];
    assert |e1.entity| != |e2.entity|;
    LowerSequenceWinsUnlessSameEntity(map[], "p1", "p2", e1, e2);
  }

  lemma SampleIsValid(id: string, key: map<string, string>, canonical: string, sequence: int, at: string)
    requires id != "" && "account_id" in key && key["account_id"] == "A" && sequence > 0
    ensures var e := SampleEvent(id, key, canonical, sequence, at);
      Oracle.Valid(e.change) && Named(e) && e.Key() == RowKey("accounts", "A")
  {
    var c := SampleEvent(id, key, canonical, sequence, at).change;
    assert "account_id" in c.payload.value && "account_id" in c.before.value;
  }

  // ---- Operations that are not upper case ----

  function UpperChar(c: char): char {
    if 'a' <= c <= 'z' then ((c as int) - ('a' as int) + ('A' as int)) as char else c
  }

  function Upper(s: string): string { seq(|s|, i requires 0 <= i < |s| => UpperChar(s[i])) }

  /** The raw string as the MERGE engine reads it. */
  function OperationOf(raw: string): Operation {
    if raw == "INSERT" then INSERT else if raw == "UPDATE" then UPDATE else if raw == "DELETE" then DELETE
    else Unrecognised(raw)
  }

  /** An operation accepted by validation takes effect exactly when it was already spelled in upper case; otherwise the
      ledger calls it APPLIED and the target is untouched. */
  lemma LowerCaseIsIgnored(s: Store, pid: string, e: Event, raw: string)
    requires pid != "" && e.change.table in TABLE_PRIMARY_KEYS && NoPending(s.ledger) && Unseen(s.ledger, e)
    requires e.change.operation == OperationOf(raw) && Upper(raw) in {"INSERT", "UPDATE", "DELETE"}
    requires Upper(raw) == "DELETE" ==> e.Key() in s.target
    requires e.Key() in s.target ==> s.target[e.Key()].eventId != e.Id()
    ensures var x := Completed(s, pid, [e], HARD);
      && IsApplied(x.ledger, e.Id())
      && (Upper(raw) == "DELETE" ==> (e.Key() !in x.target <==> raw == Upper(raw)))
      && (Upper(raw) != "DELETE" ==>
            ((e.Key() in x.target && x.target[e.Key()].eventId == e.Id()) <==> raw == Upper(raw)))
      && (raw != Upper(raw) ==> x.target == s.target)
  {
    hide Change.PkValue, Upserted, Recorded, Marked, WaveCommits, ApplyAll;
    OneEventRun(s, pid, e, HARD);
    OneEventDone(s, pid, e);
    UpperOfRecognised();
  }

  lemma UpperOfRecognised()
    ensures Upper("INSERT") == "INSERT" && Upper("UPDATE") == "UPDATE" && Upper("DELETE") == "DELETE"
  {}

  // ---- A retry with a longer list ----

  /** A processing id retried with a longer list passes every check, yet moves a row backwards: the crash came after the
      target already held sequence 3, and the retry's first wave brings it back to sequence 2. */
  lemma LongerRetryMovesBackwards(snap: Target, pid: string, e2: Event, e3: Event)
    requires pid != "" && e2.Id() != e3.Id() && e3.change.table in TABLE_PRIMARY_KEYS
    requires e2.Key() == e3.Key() && e2.Entity() == e3.Entity() && e2.change.Upserts() && e3.change.Upserts()
    requires e2.Sequence() < e3.Sequence()
    ensures var crashed := Attempted(Initial(snap), pid, [e3], HARD, 2);
      var retried := Attempted(crashed, pid, [e2, e3], HARD, 2);
      && Lookup(crashed.target, e3.Key()) == Effect(e3, pid)
      && Decide(crashed.ledger, pid, [e2, e3]).Ok?
      && Lookup(retried.target, e3.Key()) == Effect(e2, pid)
  {
    FirstAttempt(snap, pid, e3);
    RetryDecision(pid, e2, e3);
    RetryWaves(e2, e3);
    assert [e2] + [e3] == [e2, e3];
    TwoCommitsAttempt(Attempted(Initial(snap), pid, [e3], HARD, 2), pid, [e2, e3], Triage([e2], [e3], [], []), e2);
  }

  lemma TwoCommitsAttempt(s: Store, pid: string, es: seq<Event>, t: Triage, e: Event)
    requires Decide(s.ledger, pid, es) == Ok(t) && e.change.Upserts()
    requires Waves(t.Actionable()) != [] && Waves(t.Actionable())[0] == [e]
    ensures Attempted(s, pid, es, HARD, 2) == Store(Recorded(s.ledger, [e], pid), s.target[e.Key() := RowOf(e, pid)])
  {
    TwoCommitsIn(s, Waves(t.Actionable()), pid, e);
  }

  /** Two commits into a plan that starts with the wave of one upsert. */
  lemma TwoCommitsIn(s: Store, ws: seq<seq<Event>>, pid: string, e: Event)
    requires ws != [] && ws[0] == [e] && e.change.Upserts()
    ensures ApplyAll(s, Prefix(Plan(ws, pid, HARD), 2))
            == Store(Recorded(s.ledger, [e], pid), s.target[e.Key() := RowOf(e, pid)])
  {
    var w := [e];
    var c := WaveCommits(w, pid, HARD);
    OneUpsertWave(e, pid);
    assert c[..2] == [c[0], c[1]];
    TwoCommits(s, c[0], c[1]);
    PlanStep(s, ws, pid, HARD, 0);
    assert Prefix(Plan(ws, pid, HARD), 2) == Plan(ws, pid, HARD)[..2];
    PlanStep(s, ws, pid, HARD, 2);
    OneUpserted(s.target, pid, e);
  }

  lemma OneUpsertWave(e: Event, pid: string)
    requires e.change.Upserts()
    ensures WaveCommits([e], pid, HARD) == [RecordPending([e], pid), MergeUpserts([e], pid), MarkApplied(Ids([e]))]
  {
    FilterShort(e, e, (f: Event) => f.change.Upserts());
    FilterShort(e, e, (f: Event) => f.change.Deletes());
  }

  lemma OneUpserted(t: Target, pid: string, e: Event)
    ensures Upserted(t, [e], pid) == t[e.Key() := RowOf(e, pid)]
  {
    assert e in [e];
    assert EventByKey([e], e.Key()) == e;
  }

  lemma FirstAttempt(snap: Target, pid: string, e: Event)
    requires pid != "" && e.change.table in TABLE_PRIMARY_KEYS && e.change.Upserts()
    ensures Attempted(Initial(snap), pid, [e], HARD, 2)
            == Store(map[e.Id() := RecordOf(e, pid, PENDING)], snap[e.Key() := RowOf(e, pid)])
  {
    var l: Ledger := map[];
    OneDecision(l, pid, e);
    OneWave(e);
    TwoCommitsAttempt(Initial(snap), pid, [e], Triage([e], [], [], []), e);
    OneEventRecorded(l, pid, e);
    hide Attempted, Recorded, RowOf, Change.PkValue;
  }

  lemma RetryClassified(l: Ledger, pid: string, e2: Event, e3: Event)
    requires l == map[e3.Id() := RecordOf(e3, pid, PENDING)] && e2.Id() != e3.Id()
    ensures ClassifyAll(l, pid, [e2, e3]) == Ok(Triage([e2], [e3], [], []))
  {
    ClassifyMeans(l, pid, e2);
    ClassifyMeans(l, pid, e3);
    OneClassified(l, pid, e2);
    assert [e2, e3][..1] == [e2] && [] + [e3] == [e3];
  }

  lemma RetryDecision(pid: string, e2: Event, e3: Event)
    requires pid != "" && e2.Id() != e3.Id() && e3.change.table in TABLE_PRIMARY_KEYS
    requires e2.Key() == e3.Key() && e2.Sequence() < e3.Sequence()
    ensures Decide(map[e3.Id() := RecordOf(e3, pid, PENDING)], pid, [e2, e3]) == Ok(Triage([e2], [e3], [], []))
  {
    hide Change.PkValue, Gate, Classify;
    var l: Ledger := map[e3.Id() := RecordOf(e3, pid, PENDING)];
    var es := [e2, e3];
    RetryClassified(l, pid, e2, e3);
    RetryGate(pid, e2, e3);
    assert [e2] + [e3] == es;
    forall k | k in WaveOrder(es) ensures k.table in TABLE_PRIMARY_KEYS && UniqueKeys(WaveOf(es, k)) {
      WaveKeysMembers(es, k);
      PairWave(e2, e3, k);
    }
    CheckWavesNone(es, WaveOrder(es));
    hide Gate, ClassifyAll, CheckWaves, Change.PkValue, RecordOf;
  }

  lemma RetryGate(pid: string, e2: Event, e3: Event)
    requires e2.Id() != e3.Id()
    ensures Gate(map[e3.Id() := RecordOf(e3, pid, PENDING)], pid, [e2, e3]) == None
  {
    hide Change.PkValue;
    var es := [e2, e3];
    assert e3 in es && EventById(es, e3.Id()) == e3;
  }

  lemma RetryWaves(e2: Event, e3: Event)
    requires e2.change.table == e3.change.table && e2.Sequence() < e3.Sequence()
    ensures Waves([e2, e3]) == [[e2], [e3]]
  {
    var es, a, b := [e2, e3], e2.Wave(), e3.Wave();
    WaveKeysShort(e2, e3);
    DedupeShort(a, b);
    assert [a, b][1..] == [b] && [b][1..] == [];
    assert Sort([b], WaveLe) == [b];
    assert Sort([a, b], WaveLe) == [a, b];
    PairWave(e2, e3, a);
    PairWave(e2, e3, b);
  }

  lemma OnePendingClassified(l: Ledger, pid: string, e3: Event, es: seq<Event>, e: Event)
    requires l == map[e3.Id() := RecordOf(e3, pid, PENDING)] && Decide(l, pid, es).Ok?
    ensures e in Decide(l, pid, es).value.Actionable() <==> e in es
  {
    ActionableIs(l, pid, es, e);
    ClassifyAllOk(l, pid, es);
    ClassifyMeans(l, pid, e);
    assert forall a :: !AppliedTo(l, e.Entity(), a);
  }

  /** A crash after the row shows `e3`, then a retry of the same processing id with any list: some crash point of the
      retry shows the row at a lower sequence number exactly when the retry is accepted and its list holds a lower
      upsert there. */
  lemma RetryLowersIff(snap: Target, pid: string, e3: Event, es: seq<Event>)
    requires pid != "" && e3.change.table in TABLE_PRIMARY_KEYS && e3.change.Upserts()
    ensures var crashed := Attempted(Initial(snap), pid, [e3], HARD, 2);
      && Lookup(crashed.target, e3.Key()) == Effect(e3, pid)
      && ((exists n :: Lowers(crashed, Attempted(crashed, pid, es, HARD, n), e3.Key()))
          <==> (Decide(crashed.ledger, pid, es).Ok?
                && exists e :: e in es && e.change.Upserts() && e.Key() == e3.Key() && e.Sequence() < e3.Sequence()))
  {
    FirstAttempt(snap, pid, e3);
    var crashed := Attempted(Initial(snap), pid, [e3], HARD, 2);
    hide Attempted, Change.PkValue, DeltaImage;
    if Decide(crashed.ledger, pid, es).Ok? {
      var t := Decide(crashed.ledger, pid, es).value;
      forall e ensures e in t.Actionable() <==> e in es {
        OnePendingClassified(crashed.ledger, pid, e3, es, e);
      }
      hide Decide, Change.Key;
      RunLowersRowIff(crashed, pid, es, HARD, t, e3.Key());
    } else {
      forall n: nat ensures Attempted(crashed, pid, es, HARD, n) == crashed {
        RejectedRunKeeps(crashed, pid, es, HARD, n);
      }
    }
  }

  /** With one added event, of any kind: the row held by the PENDING `e3` moves backwards exactly when the added event
      is an upsert at the same key with a lower sequence number. */
  lemma AddedEventLowersIff(snap: Target, pid: string, added: Event, e3: Event)
    requires pid != "" && e3.change.table in TABLE_PRIMARY_KEYS && e3.change.Upserts() && added.Id() != e3.Id()
    ensures var crashed := Attempted(Initial(snap), pid, [e3], HARD, 2);
      && Lookup(crashed.target, e3.Key()) == Effect(e3, pid)
      && ((exists n :: Lowers(crashed, Attempted(crashed, pid, [added, e3], HARD, n), e3.Key()))
          <==> added.change.Upserts() && added.Key() == e3.Key() && added.Sequence() < e3.Sequence())
  {
    var es := [added, e3];
    RetryLowersIff(snap, pid, e3, es);
    FirstAttempt(snap, pid, e3);
    assert forall e :: e in es <==> e == added || e == e3;
    hide Attempted, Change.PkValue, DeltaImage, Lowers;
    if added.change.Upserts() && added.Key() == e3.Key() && added.Sequence() < e3.Sequence() {
      RetryDecision(pid, added, e3);
      assert added in es;
    }
  }
}
