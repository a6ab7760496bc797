/** The MERGE pipeline itself: ledger, target store, merge engine and the two-phase run
    (src/merge/event_ledger.py, target_store.py, merge_engine.py, pipeline.py).

    `survives` is the number of Delta commits the process makes before it dies; the run completes when it is large
    enough. The contract of `Run` is that the stores end exactly where `MergeSpec.Attempted` says. */
module MergePipeline {
  import opened Cdc
  import opened Ordering
  import opened MergeSpec
  import opened MergeWave
  import opened MergeRun
  import opened MergeDecide
  import opened MergePolicies
  import opened MergeColumns
  import opened MergeSummary
  import opened Reconciliation

  function PendingIds(l: Ledger): set<string> { set id | id in l && l[id].status == PENDING }

  lemma PendingKeys(l: Ledger)
    ensures PendingIds(l) <= l.Keys && PendingIds(l) - l.Keys == {}
  {}

  lemma PendingStep(l: Ledger, todo: set<string>, id: string)
    requires id in todo && todo <= l.Keys
    ensures |PendingIds(l) - (todo - {id})| == |PendingIds(l) - todo| + if l[id].status == PENDING then 1 else 0
  {
    assert PendingIds(l) - (todo - {id}) == (PendingIds(l) - todo) + if l[id].status == PENDING then {id} else {};
  }

  /** One more event with its id. */
  lemma IdsGrow(es: seq<Event>, e: Event)
    ensures Ids(es + [e]) == Ids(es) + {e.Id()}
    ensures forall id :: id in Ids(es + [e]) ==>
      EventById(es + [e], id) == if id == e.Id() then e else EventById(es, id)
  {
    assert e in es + [e];
    assert (es + [e])[..|es|] == es;
    forall f | f in es + [e] ensures f in es || f == e {}
  }

  /** Known ids keep their record, the others get the source's. */
  lemma InsertedFrom(source: Ledger, l: Ledger, es: seq<Event>, pid: string)
    requires source.Keys == Ids(es)
    requires forall id :: id in source ==> source[id] == RecordOf(EventById(es, id), pid, PENDING)
    ensures (source + l).Keys == l.Keys + Ids(es)
    ensures forall id :: id in l ==> (source + l)[id] == l[id]
    ensures forall id :: id in Ids(es) - l.Keys ==> (source + l)[id] == RecordOf(EventById(es, id), pid, PENDING)
    ensures (forall id :: id in l ==> l[id].eventId == id) ==>
      forall id :: id in source + l ==> (source + l)[id].eventId == id
  {}

  /** A PENDING record with the columns of an event of the list. */
  predicate RecordsEvent(r: LedgerRecord, es: seq<Event>, id: string, pid: string) {
    exists e :: e in es && e.change.eventId == id && RecordColumns(r, e, pid)
  }

  predicate RecordColumns(r: LedgerRecord, e: Event, pid: string) {
    && r.eventId == e.change.eventId && r.fingerprint == e.fingerprint && r.entity == e.entity
    && r.table == e.change.table && r.canonical == e.change.canonical && r.sequence == e.change.sequence
    && r.operation == e.change.operation && r.commitTs == e.change.commitTs && r.processingId == pid
    && r.sourceFile == e.sourceFile && r.status == PENDING
  }

  lemma RecordsAreOfEvents(es: seq<Event>, pid: string)
    ensures forall id :: id in Ids(es) ==> RecordsEvent(RecordOf(EventById(es, id), pid, PENDING), es, id, pid)
  {
    hide Change.PkValue;
    forall id | id in Ids(es) ensures RecordsEvent(RecordOf(EventById(es, id), pid, PENDING), es, id, pid) {
      assert RecordColumns(RecordOf(EventById(es, id), pid, PENDING), EventById(es, id), pid);
    }
  }

  /** The rows a list of events contributes to the MERGE. */
  method SourceRows(events: seq<Event>, pid: string) returns (source: Ledger)
    ensures source.Keys == Ids(events)
    ensures forall id :: id in source ==> source[id] == RecordOf(EventById(events, id), pid, PENDING)
  {
    hide RecordOf, Change.PkValue;
    source := map[];
    for i := 0 to |events|
      invariant source.Keys == Ids(events[..i])
      invariant forall id :: id in source ==> source[id] == RecordOf(EventById(events[..i], id), pid, PENDING)
    {
      IdsGrow(events[..i], events[i]);
      assert events[..i + 1] == events[..i] + [events[i]];
      source := source[events[i].Id() := RecordOf(events[i], pid, PENDING)];
    }
    FullPrefix(events);
  }

  class EventApplyLedger {
    var records: Ledger

    ghost predicate Valid()
      reads this
    {
      forall id :: id in records ==> records[id].eventId == id
    }

    constructor ()
      ensures records == map[] && Valid()
    {
      records := map[];
    }

    /** The records in PENDING state, each once. */
    method GetPendingRecords() returns (pending: seq<LedgerRecord>)
      requires Valid()
      ensures forall r :: r in pending ==> IsPending(records, r.eventId) && records[r.eventId] == r
      ensures forall id :: IsPending(records, id) ==> records[id] in pending
      ensures |pending| == |PendingIds(records)|
    {
      hide PendingIds;
      pending := [];
      var todo := records.Keys;
      assert |PendingIds(records) - todo| == 0 by {
        PendingKeys(records);
      }
      while todo != {}
        invariant todo <= records.Keys
        invariant forall r :: r in pending ==> IsPending(records, r.eventId) && records[r.eventId] == r
        invariant forall id :: IsPending(records, id) && id !in todo ==> records[id] in pending
        invariant |pending| == |PendingIds(records) - todo|
        decreases |todo|
      {
        var id :| id in todo;
        PendingStep(records, todo, id);
        if records[id].status == PENDING {
          pending := pending + [records[id]];
        }
        todo := todo - {id};
      }
    }

    /** The maximum applied sequence number per entity. */
    method GetAppliedMaxSequences() returns (maxima: map<string, int>)
      ensures forall entity :: Lookup(maxima, entity) == MaxApplied(records, entity)
    {
      maxima := map[];
      var todo := records.Keys;
      while todo != {}
        invariant todo <= records.Keys
        invariant forall entity, id :: AppliedTo(records, entity, id) && id !in todo ==>
          entity in maxima && records[id].sequence <= maxima[entity]
        invariant forall entity :: entity in maxima ==>
          exists id :: AppliedTo(records, entity, id) && id !in todo && records[id].sequence == maxima[entity]
        decreases |todo|
      {
        var id :| id in todo;
        var r := records[id];
        ghost var was, left := maxima, todo;
        todo := todo - {id};
        if r.status == APPLIED && (r.entity !in maxima || maxima[r.entity] < r.sequence) {
          maxima := maxima[r.entity := r.sequence];
          assert AppliedTo(records, r.entity, id);
        }
        forall entity | entity in maxima
          ensures exists i :: AppliedTo(records, entity, i) && i !in todo && records[i].sequence == maxima[entity]
        {
          if entity in was && maxima[entity] == was[entity] {
            var i :| AppliedTo(records, entity, i) && i !in left && records[i].sequence == was[entity];
          }
        }
      }
    }

    method GetLedgerRecordByEventId(id: string) returns (record: Option<LedgerRecord>)
      requires Valid()
      ensures record.Some? <==> id in records
      ensures record.Some? ==> record.value == records[id] && record.value.eventId == id
    {
      record := if id in records then Some(records[id]) else None;
    }

    /** Insert-only: a known id keeps its record, each new id gets a PENDING one with the columns of its event. */
    method RecordPendingEvents(events: seq<Event>, pid: string) returns (ok: bool)
      requires Valid()
      modifies this
      ensures Valid() && (ok <==> events == [] || pid != "")
      ensures !ok ==> records == old(records)
      ensures ok ==> records.Keys == old(records).Keys + Ids(events)
      ensures forall id :: id in old(records) ==> id in records && records[id] == old(records)[id]
      ensures ok ==> forall id :: id in Ids(events) - old(records).Keys ==>
        records[id] == RecordOf(EventById(events, id), pid, PENDING) && RecordsEvent(records[id], events, id, pid)
    {
      RecordsAreOfEvents(events, pid);
      if events == [] {
        return true;
      }
      if pid == "" {
        return false;
      }
      var source := SourceRows(events, pid);
      InsertedFrom(source, records, events, pid);
      hide EventById, RecordOf, Ids, RecordsEvent;
      records := source + records;
      ok := true;
    }

    /** Of the given ids the PENDING ones become APPLIED; no record is added, lost or otherwise changed. */
    method MarkEventsApplied(eventIds: set<string>)
      requires Valid()
      modifies this
      ensures Valid() && records.Keys == old(records).Keys
      ensures forall id :: IsPending(records, id) <==> IsPending(old(records), id) && id !in eventIds
      ensures forall id :: id in records ==> records[id] == old(records)[id].(status := records[id].status)
    {
      records := map id | id in records :: if id in eventIds && records[id].status == PENDING
                                           then records[id].(status := APPLIED) else records[id];
    }
  }

  lemma RecordedFrom(l: Ledger, m: Ledger, es: seq<Event>, pid: string)
    requires m.Keys == l.Keys + Ids(es) && forall id :: id in l ==> m[id] == l[id]
    requires forall id :: id in Ids(es) - l.Keys ==> m[id] == RecordOf(EventById(es, id), pid, PENDING)
    ensures m == Recorded(l, es, pid)
  {}

  lemma MarkedFrom(l: Ledger, m: Ledger, ids: set<string>)
    requires m.Keys == l.Keys && forall id :: IsPending(m, id) <==> IsPending(l, id) && id !in ids
    requires forall id :: id in m ==> m[id] == l[id].(status := m[id].status)
    ensures m == Marked(l, ids)
  {
    forall id | id in l ensures m[id] == Marked(l, ids)[id] {
      assert IsPending(m, id) <==> IsPending(l, id) && id !in ids;
    }
  }

  // ---- Targets ----

  const DEFAULT_CREATED_AT := "2026-05-11T00:00:00Z"

  function SnapshotRow(table: string, image: Image): Row {
    Row(Projected(table, image), 0, "snapshot_init", "SNAPSHOT", "snapshot_init",
        if "created_at" in image && image["created_at"] != "" then image["created_at"] else DEFAULT_CREATED_AT,
        "snapshot_bootstrap", false, None)
  }

  /** The metadata columns of a bootstrapped row. */
  predicate SnapshotColumns(row: Row, image: Image) {
    && row.sequence == 0 && row.eventId == "snapshot_init" && row.operation == "SNAPSHOT"
    && row.fingerprint == "snapshot_init" && row.processingId == "snapshot_bootstrap"
    && !row.deleted && row.deletedAt == None
    && row.commitTs == (if "created_at" in image && image["created_at"] != "" then image["created_at"]
                        else "2026-05-11T00:00:00Z")
  }

  /** The snapshot of one table, by primary key value. */
  datatype TableSnapshot = TableSnapshot(table: string, rows: map<string, Image>)

  function KnownTables(snapshot: seq<TableSnapshot>): seq<TableSnapshot> {
    Filter(snapshot, (s: TableSnapshot) => s.table in TABLE_PRIMARY_KEYS)
  }

  function TablesOf(snapshot: seq<TableSnapshot>): set<string> { set s | s in snapshot :: s.table }

  /** A source snapshot names each table once. */
  ghost predicate OncePerTable(snapshot: seq<TableSnapshot>) {
    forall i, j :: 0 <= i < j < |snapshot| ==> snapshot[i].table != snapshot[j].table
  }

  /** The row holds the table's snapshot at the key: bootstrapped if present, absent otherwise. */
  ghost predicate Installed(t: Target, s: TableSnapshot) {
    forall pk :: Lookup(t, RowKey(s.table, pk)) == if pk in s.rows then Some(SnapshotRow(s.table, s.rows[pk])) else None
  }

  ghost predicate AllInstalled(written: seq<TableSnapshot>, rows: Target) {
    forall i :: 0 <= i < |written| ==> Installed(rows, written[i])
  }

  ghost predicate OthersKept(written: seq<TableSnapshot>, before: Target, rows: Target) {
    forall k: RowKey :: k.table !in TablesOf(written) ==> Lookup(rows, k) == Lookup(before, k)
  }

  /** From tables `was` with rows `before`, exactly the written tables were created or replaced. */
  ghost predicate Wrote(written: seq<TableSnapshot>, was: set<string>, before: Target, tables: set<string>,
                        rows: Target) {
    && tables == was + TablesOf(written)
    && AllInstalled(written, rows) && OthersKept(written, before, rows)
  }

  lemma WroteNothing(tables: set<string>, rows: Target)
    ensures Wrote([], tables, rows, tables, rows)
  {}

  lemma WroteOne(known: seq<TableSnapshot>, i: nat, was: set<string>, before: Target, tables: set<string>, rows: Target)
    requires i < |known| && OncePerTable(known) && Wrote(known[..i], was, before, tables, rows)
    ensures Wrote(known[..i + 1], was, before, tables + {known[i].table}, Replaced(rows, known[i]))
  {
    hide AllInstalled, OthersKept, Replaced, OncePerTable;
    TablesGrow(known, i);
    InstalledGrows(known, i, rows);
    KeptGrows(known, i, before, rows);
    hide TablesOf;
  }

  lemma InstalledGrows(known: seq<TableSnapshot>, i: nat, t: Target)
    requires i < |known| && OncePerTable(known) && AllInstalled(known[..i], t)
    ensures AllInstalled(known[..i + 1], Replaced(t, known[i]))
  {
    hide Installed, Replaced;
    ReplacedFacts(t, known[i]);
    forall j | 0 <= j < i ensures Installed(Replaced(t, known[i]), known[j]) {
      assert known[..i][j] == known[j];
      InstalledStays(t, known[i], known[j]);
    }
  }

  lemma KeptGrows(known: seq<TableSnapshot>, i: nat, before: Target, rows: Target)
    requires i < |known| && OthersKept(known[..i], before, rows)
    ensures OthersKept(known[..i + 1], before, Replaced(rows, known[i]))
  {
    TablesGrow(known, i);
    hide TablesOf, Replaced, Installed;
    ReplacedFacts(rows, known[i]);
  }

  /** A completed bootstrap of an empty store is the oracle's own starting point: at every key the snapshot's image,
      as far as it fits the schema, or nothing, at sequence 0 and with nothing deleted. */
  lemma BootstrapIsSnapshot(known: seq<TableSnapshot>, tables: set<string>, rows: Target)
    requires Wrote(known, {}, map[], tables, rows)
    ensures tables == TablesOf(known)
    ensures forall s, pk :: s in known ==>
      Lookup(Images(rows), RowKey(s.table, pk)) == if pk in s.rows then Some(Projected(s.table, s.rows[pk])) else None
    ensures forall k: RowKey :: k in rows ==> k.table in TablesOf(known) && rows[k].sequence == 0
    ensures forall s, pk :: s in known && pk in s.rows ==>
      RowKey(s.table, pk) in rows && SnapshotColumns(rows[RowKey(s.table, pk)], s.rows[pk])
    ensures NoneDeleted(rows) && Visible(rows) == rows
  {
    forall s, pk | s in known
      ensures Lookup(Images(rows), RowKey(s.table, pk))
              == if pk in s.rows then Some(Projected(s.table, s.rows[pk])) else None
    {
      assert Installed(rows, s);
      assert Lookup(rows, RowKey(s.table, pk)) == if pk in s.rows then Some(SnapshotRow(s.table, s.rows[pk])) else None;
    }
    forall s, pk | s in known && pk in s.rows
      ensures RowKey(s.table, pk) in rows && SnapshotColumns(rows[RowKey(s.table, pk)], s.rows[pk])
    {
      assert Installed(rows, s);
      assert Lookup(rows, RowKey(s.table, pk)) == Some(SnapshotRow(s.table, s.rows[pk]));
    }
    forall k: RowKey | k in rows ensures k.table in TablesOf(known) && rows[k].sequence == 0 && !rows[k].deleted {
      assert Lookup(rows, k) != Lookup(map[], k);
      var s :| s in known && s.table == k.table;
      assert Installed(rows, s);
      assert Lookup(rows, RowKey(s.table, k.pk))
        == if k.pk in s.rows then Some(SnapshotRow(s.table, s.rows[k.pk])) else None;
    }
  }

  class DeltaTargetStore {
    /** The tables that exist. */
    var tables: set<string>
    var rows: Target

    constructor ()
      ensures tables == {} && rows == map[]
    {
      tables, rows := {}, map[];
    }

    /** Unless told to overwrite, refuses to touch anything if any table exists. Then one table after the other is
        written; `survives` is the number of tables written before the process dies. */
    method InitializeTargets(snapshot: seq<TableSnapshot>, overwrite: bool, survives: nat)
      returns (ok: bool)
      requires OncePerTable(snapshot)
      modifies this
      ensures ok <==> overwrite || forall t :: t in TABLE_PRIMARY_KEYS ==> t !in old(tables)
      ensures !ok ==> tables == old(tables) && rows == old(rows)
      ensures Wrote(if ok then Prefix(KnownTables(snapshot), survives) else [], old(tables), old(rows), tables, rows)
      ensures forall t :: t in tables && t !in old(tables) ==> t in TABLE_PRIMARY_KEYS
      ensures ok && survives >= |snapshot| ==> forall s :: s in snapshot && s.table in TABLE_PRIMARY_KEYS ==>
        s.table in tables && Installed(rows, s)
    {
      KnownAre(snapshot, survives);
      if !overwrite && exists t :: t in TABLE_PRIMARY_KEYS && t in tables {
        return false;
      }
      var known := KnownTables(snapshot);
      KnownOncePerTable(snapshot);
      ok := true;
      WroteNothing(tables, rows);
      hide KnownTables, Wrote, Replaced;
      for i := 0 to |known|
        invariant i <= survives
        invariant Wrote(known[..i], old(tables), old(rows), tables, rows)
      {
        if i == survives {
          return;
        }
        var s := known[i];
        WroteOne(known, i, old(tables), old(rows), tables, rows);
        rows := Replaced(rows, s);
        tables := tables + {s.table};
      }
      FullPrefix(known);
    }

    /** All rows, or those not soft-deleted. */
    method ReadCurrentTable(table: string, includeDeleted: bool) returns (current: Result<Target, MergeError>)
      ensures current.Err? <==> table !in tables
      ensures current.Ok? ==> forall k :: k in current.value <==>
        k in rows && k.table == table && (includeDeleted || !rows[k].deleted)
      ensures current.Ok? ==> forall k :: k in current.value ==> current.value[k] == rows[k]
    {
      if table !in tables {
        return Err(MissingTarget);
      }
      current := Ok(map k | k in rows && k.table == table && (includeDeleted || !rows[k].deleted) :: rows[k]);
    }
  }

  lemma TablesGrow(snapshot: seq<TableSnapshot>, i: nat)
    requires i < |snapshot|
    ensures TablesOf(snapshot[..i + 1]) == TablesOf(snapshot[..i]) + {snapshot[i].table}
  {
    assert snapshot[..i + 1] == snapshot[..i] + [snapshot[i]];
  }

  /** The table's rows are dropped and its snapshot written. */
  function Replaced(t: Target, s: TableSnapshot): Target {
    (map k | k in t && k.table != s.table :: t[k])
    + map pk | pk in s.rows :: RowKey(s.table, pk) := SnapshotRow(s.table, s.rows[pk])
  }

  lemma ReplacedFacts(t: Target, s: TableSnapshot)
    ensures Installed(Replaced(t, s), s)
    ensures forall k: RowKey :: k.table != s.table ==> Lookup(Replaced(t, s), k) == Lookup(t, k)
  {}

  lemma InstalledStays(t: Target, s: TableSnapshot, other: TableSnapshot)
    requires Installed(t, other) && other.table != s.table
    ensures Installed(Replaced(t, s), other)
  {
    ReplacedFacts(t, s);
    hide Replaced, SnapshotRow;
    forall pk
      ensures Lookup(Replaced(t, s), RowKey(other.table, pk))
              == if pk in other.rows then Some(SnapshotRow(other.table, other.rows[pk])) else None
    {
      assert Lookup(Replaced(t, s), RowKey(other.table, pk)) == Lookup(t, RowKey(other.table, pk));
    }
  }

  lemma {:induction false} FilterOncePerTable(snapshot: seq<TableSnapshot>, keep: TableSnapshot -> bool)
    requires OncePerTable(snapshot)
    ensures OncePerTable(Filter(snapshot, keep))
  {
    if snapshot != [] {
      var init := snapshot[..|snapshot| - 1];
      FilterOncePerTable(init, keep);
      forall s | s in Filter(init, keep) ensures s.table != snapshot[|snapshot| - 1].table {
        var i :| 0 <= i < |init| && init[i] == s;
        assert snapshot[i] == s;
      }
      assert forall i :: 0 <= i < |Filter(init, keep)| ==> Filter(init, keep)[i] in Filter(init, keep);
    }
  }

  lemma KnownOncePerTable(snapshot: seq<TableSnapshot>)
    requires OncePerTable(snapshot)
    ensures OncePerTable(KnownTables(snapshot))
  {
    FilterOncePerTable(snapshot, (s: TableSnapshot) => s.table in TABLE_PRIMARY_KEYS);
  }

  /** The tables written are known ones, and with enough survived writes all known ones of the snapshot. */
  lemma KnownAre(snapshot: seq<TableSnapshot>, survives: nat)
    ensures forall t :: t in TablesOf(Prefix(KnownTables(snapshot), survives)) ==> t in TABLE_PRIMARY_KEYS
    ensures survives >= |snapshot| ==> forall s :: s in snapshot && s.table in TABLE_PRIMARY_KEYS ==>
      s in Prefix(KnownTables(snapshot), survives) && s.table in TablesOf(Prefix(KnownTables(snapshot), survives))
  {
    var known := KnownTables(snapshot);
    FilterShorter(snapshot, (s: TableSnapshot) => s.table in TABLE_PRIMARY_KEYS);
    forall s | s in Prefix(known, survives) ensures s in known {}
    FullPrefix(known);
  }

  lemma {:induction false} FilterShorter<T(!new)>(xs: seq<T>, keep: T -> bool)
    ensures |Filter(xs, keep)| <= |xs|
  {
    if xs != [] {
      FilterShorter(xs[..|xs| - 1], keep);
    }
  }

  // ---- The merge engine ----

  ghost predicate OneTable(wave: seq<Event>) {
    forall e :: e in wave ==> e.change.table == wave[0].change.table
  }

  /** The primary key values, as text, are equal. */
  predicate SameTarget(a: Change, b: Change) {
    && a.table in TABLE_PRIMARY_KEYS && a.table == b.table
    && var pk := TABLE_PRIMARY_KEYS[a.table];
       (if pk in a.businessKey then a.businessKey[pk] else "None")
       == (if pk in b.businessKey then b.businessKey[pk] else "None")
  }

  ghost predicate AnySameTarget(wave: seq<Event>) {
    exists i, j :: 0 <= i < j < |wave| && SameTarget(wave[i].change, wave[j].change)
  }

  /** Of one known table. */
  predicate OfKnownTable(wave: seq<Event>) { wave != [] && wave[0].change.table in TABLE_PRIMARY_KEYS }

  lemma TargetsAre(wave: seq<Event>)
    requires OneTable(wave)
    ensures OfKnownTable(wave) ==> (!UniqueKeys(wave) <==> AnySameTarget(wave))
  {
    if OfKnownTable(wave) {
      forall i, j | 0 <= i < j < |wave|
        ensures SameTarget(wave[i].change, wave[j].change) <==> wave[i].Key() == wave[j].Key()
      {
        assert wave[i] in wave && wave[j] in wave;
      }
      hide SameTarget, Change.PkValue;
    }
  }

  /** Whether two events of one wave target the same primary key. */
  method HasAmbiguity(wave: seq<Event>) returns (ambiguous: bool)
    requires OneTable(wave)
    ensures ambiguous <==> !UniqueKeys(wave)
    ensures OfKnownTable(wave) ==> (ambiguous <==> AnySameTarget(wave))
  {
    TargetsAre(wave);
    hide AnySameTarget, OfKnownTable;
    var seen: set<string> := {};
    for i := 0 to |wave|
      invariant seen == set j | 0 <= j < i :: wave[j].change.PkValue()
      invariant UniqueKeys(wave[..i])
    {
      var value := wave[i].change.PkValue();
      assert wave[i] in wave;
      if value in seen {
        var j :| 0 <= j < i && wave[j].change.PkValue() == value;
        assert wave[j] in wave && wave[j].Key() == wave[i].Key();
        return true;
      }
      seen := seen + {value};
    }
    assert wave[..|wave|] == wave;
    ambiguous := false;
  }

  /** The wave's target table does not exist. */
  predicate Missing(wave: seq<Event>, tables: set<string>) { wave != [] && wave[0].change.table !in tables }

  function Least(a: nat, b: nat): nat { if a < b then a else b }

  /** The target after the first `n` target commits of a wave. */
  function TargetAfter(t: Target, wave: seq<Event>, pid: string, policy: DeletePolicy, n: nat): Target {
    var upserts, deletes := UpsertsIn(wave), DeletesIn(wave);
    var upserted := if upserts != [] && n > 0 then Upserted(t, upserts, pid) else t;
    if deletes != [] && n > (if upserts != [] then 1 else 0) then Deleted(upserted, deletes, pid, policy) else upserted
  }

  lemma TargetCommitCount(wave: seq<Event>, pid: string, policy: DeletePolicy)
    ensures |TargetCommits(wave, pid, policy)|
            == (if UpsertsIn(wave) != [] then 1 else 0) + (if DeletesIn(wave) != [] then 1 else 0)
  {}

  lemma TargetAfterCases(t: Target, wave: seq<Event>, pid: string, policy: DeletePolicy)
    ensures var upserts, deletes := UpsertsIn(wave), DeletesIn(wave);
      && TargetAfter(t, wave, pid, policy, 0) == t
      && (upserts != [] ==> TargetAfter(t, wave, pid, policy, 1) == Upserted(t, upserts, pid))
      && (upserts == [] && deletes != [] ==> TargetAfter(t, wave, pid, policy, 1) == Deleted(t, deletes, pid, policy))
      && (upserts != [] && deletes != [] ==>
            TargetAfter(t, wave, pid, policy, 2) == Deleted(Upserted(t, upserts, pid), deletes, pid, policy))
  {
    hide Upserted, Deleted, UpsertsIn, DeletesIn;
  }

  lemma TargetCut(s: Store, wave: seq<Event>, pid: string, policy: DeletePolicy, n: nat)
    requires n <= |TargetCommits(wave, pid, policy)|
    ensures ApplyAll(s, TargetCommits(wave, pid, policy)[..n])
            == s.(target := TargetAfter(s.target, wave, pid, policy, n))
  {
    var c := TargetCommits(wave, pid, policy);
    hide Upserted, Deleted;
    if n == 1 {
      assert c[..n] == [c[0]];
      TwoCommits(s, c[0], c[0]);
    } else if n == 2 {
      assert c[..n] == [c[0], c[1]];
      TwoCommits(s, c[0], c[1]);
    }
  }

  /** The store after the first `n` commits of a wave. */
  function WaveAfter(s: Store, wave: seq<Event>, pid: string, policy: DeletePolicy, n: nat): Store {
    if n == 0 then s
    else
      var p := WithPending(s, wave, pid);
      Store(if n >= |TargetCommits(wave, pid, policy)| + 2 then Marked(p.ledger, Ids(wave)) else p.ledger,
            TargetAfter(s.target, wave, pid, policy, n - 1))
  }

  lemma WaveCut(s: Store, wave: seq<Event>, pid: string, policy: DeletePolicy, n: nat)
    requires n <= |WaveCommits(wave, pid, policy)|
    ensures |WaveCommits(wave, pid, policy)| == |TargetCommits(wave, pid, policy)| + 2
    ensures ApplyAll(s, WaveCommits(wave, pid, policy)[..n]) == WaveAfter(s, wave, pid, policy, n)
  {
    var first, middle, last := [RecordPending(wave, pid)], TargetCommits(wave, pid, policy), [MarkApplied(Ids(wave))];
    TwoCommits(s, first[0], first[0]);
    if 0 < n <= |middle| + 1 {
      hide TargetCommits, TargetAfter, Recorded, Marked;
      ConcatPrefix(first + middle, last, n);
      ConcatPrefix(first, middle, n);
      ApplyAllConcat(s, first, middle[..n - 1]);
      TargetCut(WithPending(s, wave, pid), wave, pid, policy, n - 1);
    } else if n == |middle| + 2 {
      FullPrefix(first + middle + last);
      hide TargetCommits, TargetAfter, Recorded, Marked;
      WaveWhole(s, wave, pid, policy);
    }
  }

  lemma WaveWhole(s: Store, wave: seq<Event>, pid: string, policy: DeletePolicy)
    ensures ApplyAll(s, WaveCommits(wave, pid, policy))
            == WaveAfter(s, wave, pid, policy, |TargetCommits(wave, pid, policy)| + 2)
  {
    var first, middle, last := [RecordPending(wave, pid)], TargetCommits(wave, pid, policy), [MarkApplied(Ids(wave))];
    var p := WithPending(s, wave, pid);
    TwoCommits(s, first[0], first[0]);
    hide TargetCommits, TargetAfter, Recorded, Marked;
    ApplyAllConcat(s, first + middle, last);
    ApplyAllConcat(s, first, middle);
    FullPrefix(middle);
    TargetCut(p, wave, pid, policy, |middle|);
    TwoCommits(ApplyAll(p, middle), last[0], last[0]);
    TargetSettles(s.target, wave, pid, policy);
  }

  lemma TargetSettles(t: Target, wave: seq<Event>, pid: string, policy: DeletePolicy)
    ensures var n := |TargetCommits(wave, pid, policy)|;
      TargetAfter(t, wave, pid, policy, n + 1) == TargetAfter(t, wave, pid, policy, n)
  {
    hide Upserted, Deleted;
  }

  lemma KeysOnce(wave: seq<Event>)
    requires UniqueKeys(wave)
    ensures OneEventEach(wave)
  {
    hide Change.PkValue;
  }

  lemma WaveParts(wave: seq<Event>)
    ensures UpsertsIn(wave) != [] <==> HasUpsert(wave)
    ensures DeletesIn(wave) != [] <==> HasDelete(wave)
    ensures forall e ::
      e in UpsertsIn(wave) <==> e in wave && (e.change.operation.INSERT? || e.change.operation.UPDATE?)
    ensures forall e :: e in DeletesIn(wave) <==> e in wave && e.change.operation.DELETE?
  {
    if UpsertsIn(wave) != [] {
      assert UpsertsIn(wave)[0] in UpsertsIn(wave);
    }
    if DeletesIn(wave) != [] {
      assert DeletesIn(wave)[0] in DeletesIn(wave);
    }
  }

  /** What a wave cut after `n` target commits has written, column by column. */
  lemma WaveColumns(t: Target, wave: seq<Event>, pid: string, policy: DeletePolicy, n: nat)
    requires UniqueKeys(wave)
    ensures WaveWritten(t, TargetAfter(t, wave, pid, policy, n), wave, pid, policy, n > 0,
                        n > if HasUpsert(wave) then 1 else 0)
  {
    WaveParts(wave);
    KeysOnce(wave);
    hide UniqueKeys, Change.PkValue, UpsertsIn, DeletesIn, HasUpsert, HasDelete, Upserted, Deleted, WaveWritten;
    var upserts, deletes := UpsertsIn(wave), DeletesIn(wave);
    var u := if upserts != [] && n > 0 then Upserted(t, upserts, pid) else t;
    var x := if deletes != [] && n > (if upserts != [] then 1 else 0) then Deleted(u, deletes, pid, policy) else u;
    assert x == TargetAfter(t, wave, pid, policy, n);
    UpsertsCut(t, wave, pid, policy, n > 0);
    DeletesCut(u, wave, pid, policy, n > if HasUpsert(wave) then 1 else 0);
    hide TargetAfter, OneEventEach;
    WrittenInTurn(t, u, x, wave, pid, policy, n > 0, n > if HasUpsert(wave) then 1 else 0);
  }

  lemma UpsertsCut(t: Target, wave: seq<Event>, pid: string, policy: DeletePolicy, written: bool)
    requires OneEventEach(wave)
    ensures WaveWritten(t, if UpsertsIn(wave) != [] && written then Upserted(t, UpsertsIn(wave), pid) else t, wave, pid,
                        policy, written, false)
  {
    WaveParts(wave);
    NothingWritten(t, wave, pid, policy);
    UpsertsWritten(t, wave, UpsertsIn(wave), pid, policy);
    hide Upserted, WaveWritten, UpsertsIn, HasUpsert, OneEventEach;
    if UpsertsIn(wave) == [] {
      SameParts(t, t, wave, pid, policy, false, false, written, false);
    }
  }

  lemma DeletesCut(t: Target, wave: seq<Event>, pid: string, policy: DeletePolicy, written: bool)
    requires OneEventEach(wave)
    ensures WaveWritten(t, if DeletesIn(wave) != [] && written then Deleted(t, DeletesIn(wave), pid, policy) else t,
                        wave, pid, policy, false, written)
  {
    WaveParts(wave);
    NothingWritten(t, wave, pid, policy);
    DeletesWritten(t, wave, DeletesIn(wave), pid, policy);
    hide Deleted, WaveWritten, DeletesIn, HasDelete, OneEventEach;
    if DeletesIn(wave) == [] {
      SameParts(t, t, wave, pid, policy, false, false, false, written);
    }
  }

  /** One merged wave: how many of its MERGEs were survived, the rows they wrote, and the counts reported. */
  ghost predicate Merged(before: Target, after: Target, wave: seq<Event>, pid: string, policy: DeletePolicy,
                         survives: nat, used: nat, counts: Counts) {
    var upserts, deletes := if HasUpsert(wave) then 1 else 0, if HasDelete(wave) then 1 else 0;
    && used == (if survives < upserts + deletes then survives else upserts + deletes)
    && WaveWritten(before, after, wave, pid, policy, used > 0, used > upserts)
    && Tallied(counts, wave)
  }

  lemma WaveMerged(t: Target, wave: seq<Event>, pid: string, policy: DeletePolicy, survives: nat, used: nat)
    requires UniqueKeys(wave) && used == Least(survives, |TargetCommits(wave, pid, policy)|)
    ensures Merged(t, TargetAfter(t, wave, pid, policy, used), wave, pid, policy, survives, used, CountsOf(wave))
  {
    WaveColumns(t, wave, pid, policy, used);
    WaveParts(wave);
    TargetCommitCount(wave, pid, policy);
    OperationsTallied(wave);
    hide TargetAfter, TargetCommits, UniqueKeys, WaveWritten, Tallied, CountsOf, HasUpsert, HasDelete;
  }

  lemma EmptyMerged(t: Target, pid: string, policy: DeletePolicy, survives: nat)
    ensures Merged(t, t, [], pid, policy, survives, 0, Counts(0, 0, 0))
    ensures CountsOf([]) == Counts(0, 0, 0)
  {
    OperationsTallied([]);
    WaveMerged(t, [], pid, policy, survives, 0);
  }

  class DeltaMergeEngine {
    const store: DeltaTargetStore

    constructor (store: DeltaTargetStore)
      ensures this.store == store
    {
      this.store := store;
    }

    /** The upsert MERGE, then the delete MERGE, each only if it has events. */
    method MergeParts(wave: seq<Event>, policy: DeletePolicy, pid: string, survives: nat) returns (used: nat)
      modifies store
      ensures store.tables == old(store.tables)
      ensures store.rows == TargetAfter(old(store.rows), wave, pid, policy, used)
      ensures used == Least(survives, |TargetCommits(wave, pid, policy)|)
    {
      TargetCommitCount(wave, pid, policy);
      TargetAfterCases(store.rows, wave, pid, policy);
      hide TargetCommits, TargetAfter, UpsertsIn, DeletesIn, Upserted, Deleted;
      used := 0;
      var upserts, deletes := UpsertsIn(wave), DeletesIn(wave);
      if upserts != [] {
        if survives == used {
          return;
        }
        store.rows := Upserted(store.rows, upserts, pid);
        used := used + 1;
      }
      if deletes != [] {
        if survives == used {
          return;
        }
        store.rows := Deleted(store.rows, deletes, pid, policy);
        used := used + 1;
      }
    }

    /** One wave, its rows given column by column; a wave whose table is missing, or that is ambiguous, changes
        nothing. */
    method MergeWave(wave: seq<Event>, policy: DeletePolicy, pid: string, survives: nat)
      returns (error: Option<MergeError>, used: nat, counts: Counts)
      requires OneTable(wave)
      modifies store
      ensures store.tables == old(store.tables)
      ensures error == if Missing(wave, store.tables) then Some(MissingTarget)
                       else if !UniqueKeys(wave) then Some(Ambiguity)
                       else None
      ensures error.Some? ==> used == 0
      ensures store.rows == TargetAfter(old(store.rows), wave, pid, policy, used)
      ensures error.None? ==> used == Least(survives, |TargetCommits(wave, pid, policy)|) && counts == CountsOf(wave)
      ensures error.None? ==> Merged(old(store.rows), store.rows, wave, pid, policy, survives, used, counts)
    {
      TargetAfterCases(store.rows, wave, pid, policy);
      TargetCommitCount(wave, pid, policy);
      ghost var before := store.rows;
      used, counts := 0, Counts(0, 0, 0);
      hide TargetAfter, TargetCommits, UniqueKeys, OneTable, UpsertsIn, DeletesIn, Upserted, Deleted, Merged;
      if wave == [] {
        EmptyMerged(before, pid, policy, survives);
        return None, used, counts;
      }
      hide CountsOf;
      if wave[0].change.table !in store.tables {
        return Some(MissingTarget), used, counts;
      }
      var ambiguous := HasAmbiguity(wave);
      if ambiguous {
        return Some(Ambiguity), used, counts;
      }
      used := MergeParts(wave, policy, pid, survives);
      error, counts := None, CountsOf(wave);
      WaveMerged(before, wave, pid, policy, survives, used);
    }
  }

  // ---- The run ----

  datatype MergeResult = MergeResult(
    received: nat, unseen: nat, recovered: nat, applied: nat, replaySkipped: nat, staleSkipped: nat,
    counts: Counts, groups: nat, pendingRemaining: nat, withSkips: bool)

  datatype Outcome = Rejected(error: MergeError) | Failed(error: MergeError) | Crashed | Finished(result: MergeResult)

  /** One more event: its wave grows. */
  lemma WaveGrows(es: seq<Event>, e: Event, k: WaveKey)
    ensures WaveOf(es + [e], k) == if k == e.Wave() then WaveOf(es, k) + [e] else WaveOf(es, k)
    ensures k !in WaveOrder(es) ==> WaveOf(es, k) == []
  {
    assert (es + [e])[..|es|] == es;
    WaveKeysMembers(es, k);
    if WaveOf(es, k) != [] {
      assert WaveOf(es, k)[0] in WaveOf(es, k);
    }
  }

  /** A new wave comes last in the dictionary. */
  lemma OrderGrows(es: seq<Event>, e: Event)
    ensures WaveOrder(es + [e]) == if e.Wave() in WaveOrder(es) then WaveOrder(es) else WaveOrder(es) + [e.Wave()]
  {
    assert (es + [e])[..|es|] == es;
    assert WaveKeys(es + [e])[..|WaveKeys(es)|] == WaveKeys(es);
  }

  /** The waves of the events by key, and the keys in the order of their first events. */
  ghost predicate Grouped(es: seq<Event>, order: seq<WaveKey>, waves: map<WaveKey, seq<Event>>) {
    && order == WaveOrder(es) && (forall k :: k in waves <==> k in order)
    && forall k :: k in waves ==> waves[k] == WaveOf(es, k)
  }

  lemma GroupedGrows(es: seq<Event>, e: Event, order: seq<WaveKey>, waves: map<WaveKey, seq<Event>>)
    requires Grouped(es, order, waves)
    ensures var k := e.Wave();
      var begun := if k in waves then waves else waves[k := []];
      Grouped(es + [e], if k in waves then order else order + [k], begun[k := begun[k] + [e]])
  {
    OrderGrows(es, e);
    hide WaveOrder, WaveOf, Change.PkValue;
    forall k ensures WaveOf(es + [e], k) == if k == e.Wave() then WaveOf(es, k) + [e] else WaveOf(es, k) {
      WaveGrows(es, e, k);
    }
    WaveGrows(es, e, e.Wave());
  }

  lemma ClassifyGrows(l: Ledger, pid: string, es: seq<Event>, e: Event)
    requires ClassifyAll(l, pid, es).Ok?
    ensures ClassifyAll(l, pid, es + [e]) ==
      match Classify(l, pid, e)
        case Err(error) => Err(error)
        case Ok(c) => Ok(ClassifyAll(l, pid, es).value.Add(e, c))
  {
    assert (es + [e])[..|es|] == es;
  }

  lemma {:induction false} ClassifyErrPersists(l: Ledger, pid: string, es: seq<Event>, i: nat)
    requires i <= |es| && ClassifyAll(l, pid, es[..i]).Err?
    ensures ClassifyAll(l, pid, es) == ClassifyAll(l, pid, es[..i])
    decreases |es|
  {
    if i < |es| {
      assert es[..|es| - 1][..i] == es[..i];
      ClassifyErrPersists(l, pid, es[..|es| - 1], i);
    } else {
      FullPrefix(es);
    }
  }

  lemma {:induction false} CheckErrPersists(es: seq<Event>, keys: seq<WaveKey>, i: nat)
    requires i <= |keys| && CheckWaves(es, keys[..i]).Some?
    ensures CheckWaves(es, keys) == CheckWaves(es, keys[..i])
    decreases |keys|
  {
    if i < |keys| {
      assert keys[..|keys| - 1][..i] == keys[..i];
      CheckErrPersists(es, keys[..|keys| - 1], i);
    } else {
      FullPrefix(keys);
    }
  }

  /** Every wave's target table exists. */
  ghost predicate NoneMissing(ws: seq<seq<Event>>, tables: set<string>) {
    forall i :: 0 <= i < |ws| ==> !Missing(ws[i], tables)
  }

  /** The first wave whose target table does not exist. */
  function FirstMissing(ws: seq<seq<Event>>, tables: set<string>): (i: nat)
    ensures i <= |ws| && (i < |ws| ==> Missing(ws[i], tables))
    ensures forall j :: 0 <= j < i ==> !Missing(ws[j], tables)
  {
    if ws == [] || Missing(ws[0], tables) then 0 else 1 + FirstMissing(ws[1..], tables)
  }

  /** How many commits are made before the error about a missing table: its wave gets as far as PENDING. */
  function Stop(ws: seq<seq<Event>>, pid: string, policy: DeletePolicy, tables: set<string>): nat {
    var i := FirstMissing(ws, tables);
    |Plan(ws[..i], pid, policy)| + if i < |ws| then 1 else 0
  }

  /** When every wave's target table exists, a run ends where the plan of all commits, cut by the crash alone, ends. */
  lemma NoTableMissing(ws: seq<seq<Event>>, pid: string, policy: DeletePolicy, tables: set<string>, survives: nat)
    requires NoneMissing(ws, tables)
    ensures FirstMissing(ws, tables) == |ws| && Stop(ws, pid, policy, tables) == |Plan(ws, pid, policy)|
    ensures Prefix(Plan(ws, pid, policy), Least(survives, Stop(ws, pid, policy, tables)))
            == Prefix(Plan(ws, pid, policy), survives)
  {
    FullPrefix(ws);
    FullPrefix(Plan(ws, pid, policy));
  }

  /** The first wave whose table does not exist stops the run after the waves before it and its own PENDING records. */
  lemma FirstMissingStops(ws: seq<seq<Event>>, pid: string, policy: DeletePolicy, tables: set<string>, i: nat)
    requires i < |ws| && ws[i] != [] && ws[i][0].change.table !in tables
    requires forall j :: 0 <= j < i && ws[j] != [] ==> ws[j][0].change.table in tables
    ensures FirstMissing(ws, tables) == i
    ensures Prefix(Plan(ws, pid, policy), Stop(ws, pid, policy, tables))
            == Plan(ws[..i], pid, policy) + [RecordPending(ws[i], pid)]
  {
    assert Missing(ws[i], tables) && forall j :: 0 <= j < i ==> !Missing(ws[j], tables);
    PlanCut(ws, pid, policy, i, 1);
    assert WaveCommits(ws[i], pid, policy)[..1] == [RecordPending(ws[i], pid)];
    hide WaveCommits, Plan;
  }

  lemma {:induction false} PlanLength(ws: seq<seq<Event>>, pid: string, policy: DeletePolicy, i: nat, j: nat)
    requires i <= j <= |ws|
    ensures |Plan(ws[..i], pid, policy)| <= |Plan(ws[..j], pid, policy)|
    decreases j - i
  {
    if i < j {
      PlanCut(ws, pid, policy, j - 1, 0);
      PlanLength(ws, pid, policy, i, j - 1);
    }
  }

  /** Where the run stands when it reaches wave `i`: not past the stop. */
  lemma StopIs(ws: seq<seq<Event>>, pid: string, policy: DeletePolicy, tables: set<string>, i: nat)
    requires i < |ws| && i <= FirstMissing(ws, tables)
    ensures Missing(ws[i], tables) ==>
      FirstMissing(ws, tables) == i && Stop(ws, pid, policy, tables) == |Plan(ws[..i], pid, policy)| + 1
    ensures !Missing(ws[i], tables) ==>
      i < FirstMissing(ws, tables)
      && Stop(ws, pid, policy, tables) >= |Plan(ws[..i], pid, policy)| + |WaveCommits(ws[i], pid, policy)|
    ensures Stop(ws, pid, policy, tables) <= |Plan(ws, pid, policy)|
  {
    var m := FirstMissing(ws, tables);
    FullPrefix(ws);
    if i < m {
      PlanCut(ws, pid, policy, i, 0);
      PlanLength(ws, pid, policy, i + 1, m);
    }
    if m < |ws| {
      PlanCut(ws, pid, policy, m, 1);
    }
  }

  /** What the run of wave `i` means for the whole plan. */
  lemma WaveStops(ws: seq<seq<Event>>, pid: string, policy: DeletePolicy, tables: set<string>, i: nat, survives: nat,
                  left: nat, used: nat)
    requires i < |ws| && i <= FirstMissing(ws, tables) && left == survives - |Plan(ws[..i], pid, policy)|
    requires used == Least(left, if Missing(ws[i], tables) then 1 else |WaveCommits(ws[i], pid, policy)|)
    ensures var failed := left > 0 && Missing(ws[i], tables);
      var stop := Stop(ws, pid, policy, tables);
      && used <= left && used <= |WaveCommits(ws[i], pid, policy)|
      && (failed || used < |WaveCommits(ws[i], pid, policy)| ==>
        |Plan(ws[..i], pid, policy)| + used == Least(survives, stop))
      && (failed ==> survives >= stop && FirstMissing(ws, tables) < |ws|)
      && (!failed && used < |WaveCommits(ws[i], pid, policy)| ==> survives < stop <= |Plan(ws, pid, policy)|)
      && (!failed && used == |WaveCommits(ws[i], pid, policy)| ==> i < FirstMissing(ws, tables))
  {
    WaveSize(ws[i], pid, policy);
    hide Stop, FirstMissing, Plan, WaveCommits, Missing;
    StopIs(ws, pid, policy, tables, i);
  }

  lemma NothingMissing(ws: seq<seq<Event>>, pid: string, policy: DeletePolicy, tables: set<string>, survives: nat)
    requires FirstMissing(ws, tables) == |ws| && survives >= |Plan(ws, pid, policy)|
    ensures Prefix(Plan(ws, pid, policy), Least(survives, Stop(ws, pid, policy, tables))) == Plan(ws, pid, policy)
  {
    FullPrefix(ws);
    FullPrefix(Plan(ws, pid, policy));
  }

  lemma EmptyPlan(s: Store, ws: seq<seq<Event>>, pid: string, policy: DeletePolicy)
    ensures Plan(ws[..0], pid, policy) == [] && ApplyAll(s, Plan(ws[..0], pid, policy)) == s
  {}

  lemma WaveSize(wave: seq<Event>, pid: string, policy: DeletePolicy)
    ensures |WaveCommits(wave, pid, policy)| == |TargetCommits(wave, pid, policy)| + 2
  {}

  /** `used` commits of wave `i`, from where the waves before it left the store, are a prefix of the plan. */
  lemma PlanAdvance(s: Store, ws: seq<seq<Event>>, pid: string, policy: DeletePolicy, i: nat, used: nat)
    requires i < |ws| && used <= |WaveCommits(ws[i], pid, policy)|
    ensures var c, n := WaveCommits(ws[i], pid, policy), |Plan(ws[..i], pid, policy)|;
      var x := WaveAfter(ApplyAll(s, Plan(ws[..i], pid, policy)), ws[i], pid, policy, used);
      && |Plan(ws[..i + 1], pid, policy)| == n + |c| && n + |c| <= |Plan(ws, pid, policy)|
      && x == ApplyAll(s, Prefix(Plan(ws, pid, policy), n + used))
      && (used == |c| ==> x == ApplyAll(s, Plan(ws[..i + 1], pid, policy)))
  {
    hide Change.Key, Marked, TargetCommits, WaveAfter;
    var c := WaveCommits(ws[i], pid, policy);
    WaveCut(ApplyAll(s, Plan(ws[..i], pid, policy)), ws[i], pid, policy, used);
    PlanCut(ws, pid, policy, i, used);
    PlanCut(ws, pid, policy, i, |c|);
    FullPrefix(c);
    ApplyAllConcat(s, Plan(ws[..i], pid, policy), c[..used]);
    hide WaveCommits, Plan, ApplyAll;
  }

  class DeltaMergePipeline {
    const ledger: EventApplyLedger
    const store: DeltaTargetStore
    const engine: DeltaMergeEngine
    const policy: DeletePolicy

    ghost function State(): Store
      reads ledger, store
    {
      Store(ledger.records, store.rows)
    }

    ghost predicate Valid()
      reads ledger
    {
      ledger.Valid() && engine.store == store
    }

    constructor (ledger: EventApplyLedger, store: DeltaTargetStore, policy: DeletePolicy)
      requires ledger.Valid()
      ensures Valid() && this.ledger == ledger && this.store == store && this.policy == policy
    {
      this.ledger, this.store, this.policy := ledger, store, policy;
      this.engine := new DeltaMergeEngine(store);
    }

    /** `{e.event_id: e for e in events}`. */
    method IncomingById(events: seq<Event>) returns (incoming: map<string, Event>)
      ensures incoming.Keys == Ids(events)
      ensures forall id :: id in incoming ==> incoming[id] == EventById(events, id)
    {
      incoming := map[];
      for i := 0 to |events|
        invariant incoming.Keys == Ids(events[..i])
        invariant forall id :: id in incoming ==> incoming[id] == EventById(events[..i], id)
      {
        IdsGrow(events[..i], events[i]);
        assert events[..i + 1] == events[..i] + [events[i]];
        incoming := incoming[events[i].Id() := events[i]];
      }
      FullPrefix(events);
    }

    /** Step 1: ownership and integrity of the PENDING records. */
    method CheckPending(events: seq<Event>, pid: string) returns (error: Option<MergeError>)
      requires Valid()
      ensures error == Gate(ledger.records, pid, events)
    {
      hide Change.PkValue, EventById, Ids;
      var pending := ledger.GetPendingRecords();
      var incoming := IncomingById(events);
      for i := 0 to |pending|
        invariant forall j :: 0 <= j < i ==> pending[j].processingId == pid
      {
        assert pending[i] in pending;
        if pending[i].processingId != pid {
          return Some(PendingRecovery);
        }
      }
      for i := 0 to |pending|
        invariant forall j :: 0 <= j < i ==> pending[j].eventId in incoming
      {
        assert pending[i] in pending;
        if pending[i].eventId !in incoming {
          return Some(PendingRecovery);
        }
      }
      for i := 0 to |pending|
        invariant forall j :: 0 <= j < i ==> incoming[pending[j].eventId].fingerprint == pending[j].fingerprint
      {
        assert pending[i] in pending;
        if incoming[pending[i].eventId].fingerprint != pending[i].fingerprint {
          return Some(EventConflict);
        }
      }
      error := None;
    }

    /** One event against the ledger and the applied maxima. */
    method ClassifyEvent(e: Event, pid: string, maxima: map<string, int>) returns (r: Result<Class, MergeError>)
      requires Valid()
      requires Lookup(maxima, e.Entity()) == MaxApplied(ledger.records, e.Entity())
      ensures r == Classify(ledger.records, pid, e)
    {
      var record := ledger.GetLedgerRecordByEventId(e.Id());
      if record.Some? {
        if record.value.fingerprint != e.fingerprint {
          return Err(EventConflict);
        } else if record.value.status == APPLIED {
          return Ok(Replay);
        } else if record.value.processingId != pid {
          return Err(PendingRecovery);
        }
        return Ok(Recovery);
      }
      if e.Entity() in maxima {
        if e.Sequence() < maxima[e.Entity()] {
          return Ok(Stale);
        } else if e.Sequence() == maxima[e.Entity()] {
          return Err(SequenceConflict);
        }
      }
      r := Ok(Fresh);
    }

    /** Step 2: classify each event against the ledger. */
    method ClassifyEvents(events: seq<Event>, pid: string) returns (r: Result<Triage, MergeError>)
      requires Valid()
      ensures r == ClassifyAll(ledger.records, pid, events)
    {
      var maxima := ledger.GetAppliedMaxSequences();
      var unseen: seq<Event>, recovery: seq<Event>, replay: seq<Event>, stale: seq<Event> := [], [], [], [];
      for i := 0 to |events|
        invariant ClassifyAll(ledger.records, pid, events[..i]) == Ok(Triage(unseen, recovery, replay, stale))
      {
        var e := events[i];
        var verdict := ClassifyEvent(e, pid, maxima);
        assert events[..i + 1] == events[..i] + [e];
        ClassifyGrows(ledger.records, pid, events[..i], e);
        hide ClassifyAll, Classify, Change.PkValue;
        match verdict {
          case Err(conflict) =>
            ClassifyErrPersists(ledger.records, pid, events, i + 1);
            return Err(conflict);
          case Ok(Replay) => replay := replay + [e];
          case Ok(Recovery) => recovery := recovery + [e];
          case Ok(Stale) => stale := stale + [e];
          case Ok(Fresh) => unseen := unseen + [e];
        }
      }
      FullPrefix(events);
      r := Ok(Triage(unseen, recovery, replay, stale));
    }

    /** Step 3: group into waves, keeping the order in which they first appear. */
    method GroupWaves(events: seq<Event>) returns (order: seq<WaveKey>, waves: map<WaveKey, seq<Event>>)
      ensures Grouped(events, order, waves)
    {
      order, waves := [], map[];
      assert Grouped([], order, waves);
      hide Grouped, WaveOrder, WaveOf, Event.Wave;
      assert events[..0] == [];
      for i := 0 to |events|
        invariant Grouped(events[..i], order, waves)
      {
        var e := events[i];
        assert events[..i + 1] == events[..i] + [e];
        GroupedGrows(events[..i], e, order, waves);
        if e.Wave() !in waves {
          waves := waves[e.Wave() := []];
          order := order + [e.Wave()];
        }
        waves := waves[e.Wave() := waves[e.Wave()] + [e]];
      }
      FullPrefix(events);
    }

    /** No wave may target one primary key twice. */
    method CheckAmbiguity(events: seq<Event>, order: seq<WaveKey>, waves: map<WaveKey, seq<Event>>)
      returns (error: Option<MergeError>)
      requires forall k :: k in order ==> k in waves && waves[k] == WaveOf(events, k)
      ensures error == CheckWaves(events, order)
    {
      for i := 0 to |order|
        invariant CheckWaves(events, order[..i]).None?
      {
        assert order[..i + 1][..i] == order[..i] && order[i] in order;
        var wave := waves[order[i]];
        assert wave != [] ==> wave[0] in wave;
        var ambiguous := HasAmbiguity(wave);
        error := if order[i].table !in TABLE_PRIMARY_KEYS then Some(UnknownTable)
                 else if ambiguous then Some(Ambiguity)
                 else None;
        if error.Some? {
          CheckErrPersists(events, order, i + 1);
          return;
        }
      }
      FullPrefix(order);
      error := None;
    }

    method RecordWave(wave: seq<Event>, pid: string)
      requires Valid() && pid != ""
      modifies ledger
      ensures Valid() && ledger.records == Recorded(old(ledger.records), wave, pid)
    {
      var ok := ledger.RecordPendingEvents(wave, pid);
      RecordedFrom(old(ledger.records), ledger.records, wave, pid);
    }

    method MarkWave(wave: seq<Event>)
      requires Valid()
      modifies ledger
      ensures Valid() && ledger.records == Marked(old(ledger.records), Ids(wave))
    {
      ledger.MarkEventsApplied(set e | e in wave :: e.Id());
      MarkedFrom(old(ledger.records), ledger.records, Ids(wave));
    }

    /** Step 4, one wave: PENDING, target, APPLIED, stopping after `survives` commits, or with an error after the
        first if the wave's target table does not exist. */
    method ExecuteWave(wave: seq<Event>, pid: string, survives: nat)
      returns (error: Option<MergeError>, used: nat, counts: Counts)
      requires Valid() && pid != "" && UniqueKeys(wave)
      requires OneTable(wave)
      modifies ledger, store
      ensures Valid() && store.tables == old(store.tables)
      ensures State() == WaveAfter(old(State()), wave, pid, policy, used)
      ensures error.Some? <==> survives > 0 && Missing(wave, store.tables)
      ensures error.Some? ==> error == Some(MissingTarget)
      ensures used == Least(survives, if Missing(wave, store.tables) then 1 else |WaveCommits(wave, pid, policy)|)
      ensures error.None? && used == |WaveCommits(wave, pid, policy)| ==> counts == CountsOf(wave)
    {
      error, used, counts := None, 0, Counts(0, 0, 0);
      WaveSize(wave, pid, policy);
      if survives == 0 {
        return;
      }
      hide WaveCommits, TargetCommits, TargetAfter, Recorded, Marked, UniqueKeys, OneTable, Missing, CountsOf;
      RecordWave(wave, pid);
      var merged;
      error, merged, counts := engine.MergeWave(wave, policy, pid, survives - 1);
      used := 1 + merged;
      if error.Some? || survives == used {
        return;
      }
      TargetSettles(old(store.rows), wave, pid, policy);
      MarkWave(wave);
      used := used + 1;
    }

    /** Step 4: the waves in order, up to the first one whose target table does not exist. */
    method Execute(ws: seq<seq<Event>>, pid: string, survives: nat)
      returns (error: Option<MergeError>, complete: bool, counts: Counts)
      requires Valid() && pid != ""
      requires forall i :: 0 <= i < |ws| ==> UniqueKeys(ws[i])
      requires forall i :: 0 <= i < |ws| ==> OneTable(ws[i])
      modifies ledger, store
      ensures Valid() && store.tables == old(store.tables)
      ensures var stop := Stop(ws, pid, policy, store.tables);
        State() == ApplyAll(old(State()), Prefix(Plan(ws, pid, policy), Least(survives, stop)))
      ensures error.Some? <==> survives >= Stop(ws, pid, policy, store.tables) && FirstMissing(ws, store.tables) < |ws|
      ensures error.Some? ==> error == Some(MissingTarget) && !complete
      ensures complete <==> error.None? && survives >= |Plan(ws, pid, policy)|
      ensures complete ==> counts == TotalCounts(ws)
    {
      hide Stop, FirstMissing, Plan, WaveCommits, Missing, Prefix, ApplyAll, UniqueKeys, Change.PkValue, Least;
      ghost var s0 := State();
      var left: nat := survives;
      EmptyPlan(s0, ws, pid, policy);
      error, complete, counts := None, false, Counts(0, 0, 0);
      for i := 0 to |ws|
        invariant Valid() && store.tables == old(store.tables)
        invariant error.None? && i <= FirstMissing(ws, store.tables)
        invariant State() == ApplyAll(s0, Plan(ws[..i], pid, policy))
        invariant left == survives - |Plan(ws[..i], pid, policy)|
        invariant counts == TotalCounts(ws[..i])
      {
        var size := |WaveCommits(ws[i], pid, policy)|;
        var tally, used;
        error, used, tally := ExecuteWave(ws[i], pid, left);
        WaveStops(ws, pid, policy, store.tables, i, survives, left, used);
        PlanAdvance(s0, ws, pid, policy, i, used);
        if error.Some? || used < size {
          return;
        }
        left := left - used;
        assert ws[..i + 1][..i] == ws[..i];
        counts := Plus(counts, tally);
      }
      FullPrefix(ws);
      FullPrefix(Plan(ws, pid, policy));
      NothingMissing(ws, pid, policy, store.tables, survives);
      complete := true;
    }

    /** Steps 1 to 3: everything a run settles before its first write. */
    method Prepare(events: seq<Event>, pid: string) returns (r: Result<Triage, MergeError>, ws: seq<seq<Event>>)
      requires Valid()
      ensures r == Decide(ledger.records, pid, events)
      ensures r.Ok? ==> ws == Waves(r.value.Actionable())
    {
      hide Gate, ClassifyAll, CheckWaves, Change.PkValue, WaveOf;
      ws := [];
      if pid == "" {
        return Err(EmptyProcessingId), ws;
      }
      var gate := CheckPending(events, pid);
      if gate.Some? {
        return Err(gate.value), ws;
      }
      r := ClassifyEvents(events, pid);
      if r.Err? {
        return;
      }
      var acts := r.value.Actionable();
      var order, waves := GroupWaves(acts);
      var ambiguity := CheckAmbiguity(acts, order, waves);
      if ambiguity.Some? {
        return Err(ambiguity.value), ws;
      }
      var keys := Sort(order, WaveLe);
      SortMembers(order, WaveLe);
      assert forall i :: 0 <= i < |keys| ==> keys[i] in order;
      ws := seq(|keys|, i requires 0 <= i < |keys| => waves[keys[i]]);
    }

    /** A whole run. A rejection writes nothing; otherwise the stores are those of the planned commits, cut where the
        process dies or where a target table turns out to be missing, and the ambiguity check inside the merge engine
        never fires. `strip` removes the white space around the processing id. */
    method Run(events: seq<Event>, processingId: string, strip: string -> string, survives: nat)
      returns (outcome: Outcome)
      requires Valid()
      modifies ledger, store
      ensures Valid() && store.tables == old(store.tables)
      ensures match Decide(old(ledger.records), strip(processingId), events)
        case Err(error) => outcome == Rejected(error) && State() == old(State())
        case Ok(t) =>
          var pid, ws := strip(processingId), Waves(t.Actionable());
          var stop := Stop(ws, pid, policy, store.tables);
          && State() == Attempted(old(State()), pid, events, policy, Least(survives, stop))
          && if survives >= stop && FirstMissing(ws, store.tables) < |ws| then outcome == Failed(MissingTarget)
             else if survives < |Plan(ws, pid, policy)| then outcome == Crashed
             else outcome.Finished? && Reports(outcome.result, events, t, ledger.records)
      ensures var d := Decide(old(ledger.records), strip(processingId), events);
        d.Ok? && NoneMissing(Waves(d.value.Actionable()), store.tables) ==>
          State() == Attempted(old(State()), strip(processingId), events, policy, survives) && !outcome.Failed?
    {
      var pid := strip(processingId);
      hide Waves, Plan, Stop, FirstMissing, Gate, ClassifyAll, CheckWaves, Tallied, TotalCounts;
      var decision, ws := Prepare(events, pid);
      if decision.Err? {
        return Rejected(decision.error);
      }
      var t := decision.value;
      DecidedClassified(ledger.records, pid, events);
      DecidedWaves(t.Actionable());
      DecidedTotals(t.Actionable());
      if NoneMissing(ws, store.tables) {
        NoTableMissing(ws, pid, policy, store.tables, survives);
      }
      var error, complete, counts := Execute(ws, pid, survives);
      if error.Some? {
        return Failed(error.value);
      }
      if !complete {
        return Crashed;
      }
      var pending := ledger.GetPendingRecords();
      outcome := Finished(MergeResult(|events|, |t.unseen|, |t.recovery|, |t.Actionable()|, |t.replay|, |t.stale|,
                                      counts, |ws|, |pending|, t.replay != [] || t.stale != []));
    }
  }

  /** What the summary of a finished run says: every event received is accounted for exactly once. */
  ghost predicate Reports(r: MergeResult, events: seq<Event>, t: Triage, after: Ledger) {
    && r.received == |events| == r.unseen + r.recovered + r.replaySkipped + r.staleSkipped
    && r.unseen == |t.unseen| && r.recovered == |t.recovery| && r.applied == r.unseen + r.recovered
    && r.replaySkipped == |t.replay| && r.staleSkipped == |t.stale|
    && Tallied(r.counts, t.unseen + t.recovery)
    && ((forall e :: e in t.unseen + t.recovery ==> e.change.Recognised()) ==>
          r.counts.inserts + r.counts.updates + r.counts.deletes == r.applied)
    && r.groups == |set e | e in t.unseen + t.recovery :: (e.change.table, e.change.sequence)|
    && r.withSkips == (t.replay != [] || t.stale != [])
    && r.pendingRemaining == |set id | id in after && after[id].status == PENDING|
  }

  lemma DecidedTotals(acts: seq<Event>)
    ensures Tallied(TotalCounts(Waves(acts)), acts)
    ensures (forall e :: e in acts ==> e.change.Recognised()) ==>
      var c := TotalCounts(Waves(acts)); c.inserts + c.updates + c.deletes == |acts|
    ensures |Waves(acts)| == |set e | e in acts :: (e.change.table, e.change.sequence)|
  {
    TotalsTallied(acts);
    TotalsAre(acts);
  }

  lemma DecidedClassified(l: Ledger, pid: string, es: seq<Event>)
    requires Decide(l, pid, es).Ok?
    ensures var t := Decide(l, pid, es).value;
      && |es| == |t.unseen| + |t.recovery| + |t.replay| + |t.stale|
      && CheckWaves(t.Actionable(), WaveOrder(t.Actionable())).None?
  {
    ClassifiedTotal(l, pid, es);
  }

  lemma WaveIsOneTable(acts: seq<Event>, k: WaveKey)
    ensures OneTable(WaveOf(acts, k))
  {
    forall e | e in WaveOf(acts, k) ensures e.change.table == WaveOf(acts, k)[0].change.table {
      assert WaveOf(acts, k)[0] in WaveOf(acts, k);
    }
  }

  /** The checks before the first write cover the check inside the merge engine. */
  lemma DecidedWaves(acts: seq<Event>)
    requires CheckWaves(acts, WaveOrder(acts)).None?
    ensures forall i :: 0 <= i < |Waves(acts)| ==> UniqueKeys(Waves(acts)[i]) && OneTable(Waves(acts)[i])
  {
    var keys := Sort(WaveOrder(acts), WaveLe);
    SortMembers(WaveOrder(acts), WaveLe);
    CheckWavesNone(acts, WaveOrder(acts));
    hide CheckWaves, WaveOrder, Sort, UniqueKeys;
    forall i | 0 <= i < |Waves(acts)| ensures UniqueKeys(Waves(acts)[i]) && OneTable(Waves(acts)[i]) {
      assert keys[i] in WaveOrder(acts) && Waves(acts)[i] == WaveOf(acts, keys[i]);
      WaveIsOneTable(acts, keys[i]);
      hide WaveOf, OneTable;
    }
  }

  /** Every event is in exactly one list of the triage. */
  lemma {:induction false} ClassifiedTotal(l: Ledger, pid: string, es: seq<Event>)
    requires ClassifyAll(l, pid, es).Ok?
    ensures var t := ClassifyAll(l, pid, es).value;
      |es| == |t.unseen| + |t.recovery| + |t.replay| + |t.stale|
  {
    if es != [] {
      ClassifiedTotal(l, pid, es[..|es| - 1]);
    }
  }
}
