/** What the durable steps of the MERGE pipeline mean (src/merge/pipeline.py, event_ledger.py, merge_engine.py).

    Ledger and target are separate Delta tables, so each Delta commit is one atomic `Commit`. A run first
    decides, without writing, which commits it will make; a process that dies has made a prefix of them. */
module MergeSpec {
  import opened Cdc
  import opened Ordering

  datatype Status = PENDING | APPLIED

  datatype LedgerRecord = LedgerRecord(
    eventId: string, fingerprint: string, entity: string, table: string, canonical: string,
    sequence: int, operation: Operation, commitTs: string, processingId: string,
    sourceFile: string, status: Status)
  {
    function Wave(): WaveKey { WaveKey(table, sequence) }
  }

  type Ledger = map<string, LedgerRecord>

  datatype Row = Row(
    image: Image, sequence: int, eventId: string, operation: string, fingerprint: string,
    commitTs: string, processingId: string, deleted: bool, deletedAt: Option<string>)

  type Target = map<RowKey, Row>

  datatype Store = Store(ledger: Ledger, target: Target)

  datatype DeletePolicy = HARD | SOFT

  datatype Commit =
    | RecordPending(events: seq<Event>, pid: string)
    | MergeUpserts(events: seq<Event>, pid: string)
    | MergeDeletes(events: seq<Event>, pid: string, policy: DeletePolicy)
    | MarkApplied(ids: set<string>)

  // ---- Lookups over event lists ----

  function Ids(es: seq<Event>): set<string> { set e | e in es :: e.Id() }

  function Keys(es: seq<Event>): set<RowKey> { set e | e in es :: e.Key() }

  /** `{e.event_id: e for e in events}[id]`: the last event with that id. */
  function EventById(es: seq<Event>, id: string): (e: Event)
    requires id in Ids(es)
    ensures e in es && e.Id() == id
  {
    var last := es[|es| - 1];
    assert es == es[..|es| - 1] + [last];
    if last.Id() == id then last else EventById(es[..|es| - 1], id)
  }

  function EventByKey(es: seq<Event>, k: RowKey): (e: Event)
    requires k in Keys(es)
    ensures e in es && e.Key() == k
  {
    var last := es[|es| - 1];
    assert es == es[..|es| - 1] + [last];
    if last.Key() == k then last else EventByKey(es[..|es| - 1], k)
  }

  ghost predicate UniqueIds(es: seq<Event>) {
    forall i, j :: 0 <= i < j < |es| ==> es[i].Id() != es[j].Id()
  }

  ghost predicate UniqueKeys(es: seq<Event>) {
    forall i, j :: 0 <= i < j < |es| ==> es[i].Key() != es[j].Key()
  }

  // ---- Rows ----

  /** The image an event carries: its payload, failing that its before image. */
  function CarriedImage(c: Change): Image {
    match c.payload
    case Some(image) => image
    case None => match c.before case Some(image) => image case None => map[]
  }

  /** The business columns an event writes: the schema's, from its image, failing that from the business key. */
  function DeltaImage(c: Change): Image { Projected(c.table, c.businessKey + CarriedImage(c)) }

  function RowOf(e: Event, pid: string): Row {
    Row(DeltaImage(e.change), e.Sequence(), e.Id(), e.change.operation.Text(), e.fingerprint,
        e.change.commitTs, pid, false, None)
  }

  /** The image, where it carries the primary key, carries the business key's value. */
  predicate KeyedImage(c: Change)
    requires c.table in TABLE_PRIMARY_KEYS
  {
    var pk, image := TABLE_PRIMARY_KEYS[c.table], CarriedImage(c);
    pk in image ==> image[pk] == c.PkValue()
  }

  /** The MERGE joins on the primary key of the converted row, the ambiguity check looks at the business key: they
      address the same row exactly for keyed images. */
  lemma JoinKeyIff(e: Event, pid: string)
    requires e.change.table in TABLE_PRIMARY_KEYS && TABLE_PRIMARY_KEYS[e.change.table] in e.change.businessKey
    ensures var pk := TABLE_PRIMARY_KEYS[e.change.table];
      && pk in RowOf(e, pid).image
      && (RowKey(e.change.table, RowOf(e, pid).image[pk]) == e.Key() <==> KeyedImage(e.change))
  {
    SchemaHasKey(e.change.table);
    hide SchemaColumns;
  }

  /** A soft delete rewrites the metadata and leaves the business columns alone. */
  function Tombstone(row: Row, e: Event, pid: string): Row {
    RowOf(e, pid).(image := row.image, deleted := true, deletedAt := Some(e.change.commitTs))
  }

  /** What a recognised event leaves at its key under the HARD policy. */
  function Effect(e: Event, pid: string): Option<Row> {
    if e.change.Upserts() then Some(RowOf(e, pid)) else None
  }

  function RecordOf(e: Event, pid: string, status: Status): LedgerRecord {
    LedgerRecord(e.Id(), e.fingerprint, e.Entity(), e.change.table, e.change.canonical,
                 e.Sequence(), e.change.operation, e.change.commitTs, pid, e.sourceFile, status)
  }

  // ---- The four commits ----

  /** Insert-only MERGE: an event already in the ledger keeps its record. */
  function Recorded(l: Ledger, es: seq<Event>, pid: string): Ledger {
    map id | id in l.Keys + Ids(es) :: if id in l then l[id] else RecordOf(EventById(es, id), pid, PENDING)
  }

  function Upserted(t: Target, es: seq<Event>, pid: string): Target {
    map k | k in t.Keys + Keys(es) :: if k in Keys(es) then RowOf(EventByKey(es, k), pid) else t[k]
  }

  function Deleted(t: Target, es: seq<Event>, pid: string, policy: DeletePolicy): Target {
    match policy
    case HARD => map k | k in t.Keys - Keys(es) :: t[k]
    case SOFT => map k | k in t.Keys :: if k in Keys(es) then Tombstone(t[k], EventByKey(es, k), pid) else t[k]
  }

  function Marked(l: Ledger, ids: set<string>): Ledger {
    map id | id in l :: if id in ids then l[id].(status := APPLIED) else l[id]
  }

  function Apply(s: Store, c: Commit): Store {
    match c
    case RecordPending(es, pid) => s.(ledger := Recorded(s.ledger, es, pid))
    case MergeUpserts(es, pid) => s.(target := Upserted(s.target, es, pid))
    case MergeDeletes(es, pid, policy) => s.(target := Deleted(s.target, es, pid, policy))
    case MarkApplied(ids) => s.(ledger := Marked(s.ledger, ids))
  }

  function ApplyAll(s: Store, cs: seq<Commit>): Store {
    if cs == [] then s else Apply(ApplyAll(s, cs[..|cs| - 1]), cs[|cs| - 1])
  }

  lemma {:induction false} ApplyAllConcat(s: Store, a: seq<Commit>, b: seq<Commit>)
    ensures ApplyAll(s, a + b) == ApplyAll(ApplyAll(s, a), b)
  {
    if b == [] {
      assert a + b == a;
    } else {
      ApplyAllConcat(s, a, b[..|b| - 1]);
      assert (a + b)[..|a + b| - 1] == a + b[..|b| - 1];
    }
  }

  // ---- Classification ----

  datatype MergeError =
    | EmptyProcessingId | PendingRecovery | EventConflict | SequenceConflict | UnknownTable | Ambiguity | MissingTarget

  datatype Class = Fresh | Recovery | Replay | Stale

  datatype Triage = Triage(unseen: seq<Event>, recovery: seq<Event>, replay: seq<Event>, stale: seq<Event>) {
    function Actionable(): seq<Event> { unseen + recovery }

    function Of(c: Class): seq<Event> {
      match c
      case Fresh => unseen
      case Recovery => recovery
      case Replay => replay
      case Stale => stale
    }

    function Add(e: Event, c: Class): Triage {
      match c
      case Fresh => this.(unseen := unseen + [e])
      case Recovery => this.(recovery := recovery + [e])
      case Replay => this.(replay := replay + [e])
      case Stale => this.(stale := stale + [e])
    }
  }

  predicate IsPending(l: Ledger, id: string) { id in l && l[id].status == PENDING }

  predicate IsApplied(l: Ledger, id: string) { id in l && l[id].status == APPLIED }

  ghost predicate NoPending(l: Ledger) { forall id :: !IsPending(l, id) }

  predicate AppliedTo(l: Ledger, entity: string, id: string) { IsApplied(l, id) && l[id].entity == entity }

  ghost function MaxSequence(l: Ledger, ids: set<string>): (m: int)
    requires ids != {} && ids <= l.Keys
    ensures forall id :: id in ids ==> l[id].sequence <= m
    ensures exists id :: id in ids && l[id].sequence == m
  {
    var id := Pick(ids);
    if ids == {id} then l[id].sequence
    else
      var rest := MaxSequence(l, ids - {id});
      assert ids == (ids - {id}) + {id};
      if rest < l[id].sequence then l[id].sequence else rest
  }

  /** The highest applied sequence number of an entity. */
  ghost function MaxApplied(l: Ledger, entity: string): (m: Option<int>)
    ensures m.None? <==> forall id :: !AppliedTo(l, entity, id)
    ensures m.Some? ==> forall id :: AppliedTo(l, entity, id) ==> l[id].sequence <= m.value
    ensures m.Some? ==> exists id :: AppliedTo(l, entity, id) && l[id].sequence == m.value
  {
    var ids := set id | id in l && AppliedTo(l, entity, id);
    assert forall id :: AppliedTo(l, entity, id) ==> id in ids;
    if ids == {} then None else Some(MaxSequence(l, ids))
  }

  /** The gate on PENDING records: they must all be this processing set's own, present and unchanged. */
  ghost function Gate(l: Ledger, pid: string, es: seq<Event>): Option<MergeError> {
    if exists id :: IsPending(l, id) && l[id].processingId != pid then Some(PendingRecovery)
    else if exists id :: IsPending(l, id) && id !in Ids(es) then Some(PendingRecovery)
    else if exists id :: IsPending(l, id) && id in Ids(es) && EventById(es, id).fingerprint != l[id].fingerprint
      then Some(EventConflict)
    else None
  }

  ghost function Classify(l: Ledger, pid: string, e: Event): Result<Class, MergeError> {
    if e.Id() in l then
      var r := l[e.Id()];
      if r.fingerprint != e.fingerprint then Err(EventConflict)
      else if r.status == APPLIED then Ok(Replay)
      else if r.processingId != pid then Err(PendingRecovery)
      else Ok(Recovery)
    else
      match MaxApplied(l, e.Entity())
      case None => Ok(Fresh)
      case Some(m) =>
        if e.Sequence() < m then Ok(Stale)
        else if e.Sequence() == m then Err(SequenceConflict)
        else Ok(Fresh)
  }

  /** Classify in order; the first conflict wins. */
  ghost function ClassifyAll(l: Ledger, pid: string, es: seq<Event>): Result<Triage, MergeError> {
    if es == [] then Ok(Triage([], [], [], []))
    else
      match ClassifyAll(l, pid, es[..|es| - 1])
      case Err(error) => Err(error)
      case Ok(t) =>
        match Classify(l, pid, es[|es| - 1])
        case Err(error) => Err(error)
        case Ok(c) => Ok(t.Add(es[|es| - 1], c))
  }

  // ---- Waves ----

  predicate WaveLe(a: WaveKey, b: WaveKey) {
    if a.table != b.table then StringLe(a.table, b.table) else a.sequence <= b.sequence
  }

  lemma WaveLeTotalPreorder()
    ensures TotalPreorder(WaveLe)
    ensures forall a, b :: WaveLe(a, b) && WaveLe(b, a) ==> a == b
  {
    forall a, b ensures WaveLe(a, b) || WaveLe(b, a) {
      StringLeTotal(a.table, b.table);
    }
    forall a, b | WaveLe(a, b) && WaveLe(b, a) ensures a == b {
      if a.table != b.table {
        StringLeAntisymmetric(a.table, b.table);
      }
    }
    forall a, b, c | WaveLe(a, b) && WaveLe(b, c) ensures WaveLe(a, c) {
      if a.table != b.table && b.table != c.table {
        StringLeTransitive(a.table, b.table, c.table);
        if a.table == c.table {
          StringLeAntisymmetric(a.table, b.table);
        }
      }
    }
  }

  function WaveKeys(es: seq<Event>): seq<WaveKey> {
    if es == [] then [] else WaveKeys(es[..|es| - 1]) + [es[|es| - 1].Wave()]
  }

  lemma WaveKeysAre(es: seq<Event>)
    ensures |WaveKeys(es)| == |es|
    ensures forall i :: 0 <= i < |es| ==> WaveKeys(es)[i] == es[i].Wave()
  {}

  /** The waves in dictionary order: the order in which the ambiguity check meets them. */
  function WaveOrder(es: seq<Event>): seq<WaveKey> { Dedupe(WaveKeys(es)) }

  function WaveOf(es: seq<Event>, w: WaveKey): seq<Event> { Filter(es, (e: Event) => e.Wave() == w) }

  /** The waves in execution order: table ascending, then sequence ascending. */
  function Waves(es: seq<Event>): seq<seq<Event>> {
    var keys := Sort(WaveOrder(es), WaveLe);
    seq(|keys|, i requires 0 <= i < |keys| => WaveOf(es, keys[i]))
  }

  ghost function CheckWaves(es: seq<Event>, keys: seq<WaveKey>): Option<MergeError> {
    if keys == [] then None
    else
      var last := keys[|keys| - 1];
      match CheckWaves(es, keys[..|keys| - 1])
      case Some(error) => Some(error)
      case None =>
        if last.table !in TABLE_PRIMARY_KEYS then Some(UnknownTable)
        else if !UniqueKeys(WaveOf(es, last)) then Some(Ambiguity)
        else None
  }

  // ---- The plan of a run ----

  function UpsertsIn(es: seq<Event>): seq<Event> { Filter(es, (e: Event) => e.change.Upserts()) }

  function DeletesIn(es: seq<Event>): seq<Event> { Filter(es, (e: Event) => e.change.Deletes()) }

  function TargetCommits(es: seq<Event>, pid: string, policy: DeletePolicy): seq<Commit> {
    (if UpsertsIn(es) == [] then [] else [MergeUpserts(UpsertsIn(es), pid)])
    + (if DeletesIn(es) == [] then [] else [MergeDeletes(DeletesIn(es), pid, policy)])
  }

  /** PENDING, then up to two target commits, then APPLIED. */
  function WaveCommits(es: seq<Event>, pid: string, policy: DeletePolicy): seq<Commit> {
    [RecordPending(es, pid)] + TargetCommits(es, pid, policy) + [MarkApplied(Ids(es))]
  }

  function Plan(ws: seq<seq<Event>>, pid: string, policy: DeletePolicy): seq<Commit> {
    FlatMap(ws, (w: seq<Event>) => WaveCommits(w, pid, policy))
  }

  /** Everything a run settles before its first write. */
  ghost function Decide(l: Ledger, pid: string, es: seq<Event>): Result<Triage, MergeError> {
    if pid == "" then Err(EmptyProcessingId)
    else
      match Gate(l, pid, es)
      case Some(error) => Err(error)
      case None =>
        match ClassifyAll(l, pid, es)
        case Err(error) => Err(error)
        case Ok(t) =>
          match CheckWaves(t.Actionable(), WaveOrder(t.Actionable()))
          case Some(error) => Err(error)
          case None => Ok(t)
  }

  /** The commits a run makes from a given ledger; a rejected run makes none. */
  ghost function Commits(l: Ledger, pid: string, es: seq<Event>, policy: DeletePolicy): seq<Commit> {
    match Decide(l, pid, es)
    case Err(_) => []
    case Ok(t) => Plan(Waves(t.Actionable()), pid, policy)
  }

  function Prefix<T>(xs: seq<T>, n: nat): seq<T> { if n <= |xs| then xs[..n] else xs }

  /** The store after a run that survives `n` commits; a run that survives them all is complete. */
  ghost function Attempted(s: Store, pid: string, es: seq<Event>, policy: DeletePolicy, n: nat): Store {
    ApplyAll(s, Prefix(Commits(s.ledger, pid, es, policy), n))
  }

  ghost function Completed(s: Store, pid: string, es: seq<Event>, policy: DeletePolicy): Store {
    ApplyAll(s, Commits(s.ledger, pid, es, policy))
  }
}
