/** The invariant of the MERGE ledger and target, and its preservation by every durable commit of a run
    (src/merge/pipeline.py:115-283). */
module MergeInvariant {
  import opened Cdc
  import opened MergeSpec

  /** A processing id is content-addressed: it always names the same list of events. */
  type Catalogue = map<string, seq<Event>>

  ghost predicate UniqueSequences(es: seq<Event>) {
    forall i, j :: 0 <= i < j < |es| ==> !(es[i].Entity() == es[j].Entity() && es[i].Sequence() == es[j].Sequence())
  }

  ghost function All(cat: Catalogue): set<Event> { set pid, e | pid in cat && e in cat[pid] :: e }

  predicate Agree(e: Event, f: Event) { e.Entity() == f.Entity() <==> e.Key() == f.Key() }

  /** Sequence numbers are scoped by entity and rows by key; the two scopes coincide. */
  ghost predicate KeyedByEntity(cat: Catalogue) {
    forall e, f {:trigger Agree(e, f)} :: e in All(cat) && f in All(cat) ==> Agree(e, f)
  }

  /** What normalization promises of every processing set. */
  ghost predicate WellFormed(cat: Catalogue) {
    && (forall pid :: pid in cat ==> UniqueIds(cat[pid]) && UniqueSequences(cat[pid]))
    && KeyedByEntity(cat)
  }

  // ---- Ledger invariant ----

  /** A record is the unaltered image of an event of its own processing set. */
  ghost predicate Genuine(cat: Catalogue, l: Ledger, id: string)
    requires id in l
  {
    && l[id].processingId in cat
    && id in Ids(cat[l[id].processingId])
    && l[id] == RecordOf(EventById(cat[l[id].processingId], id), l[id].processingId, l[id].status)
  }

  ghost predicate Provenance(cat: Catalogue, l: Ledger) {
    forall id :: id in l ==> Genuine(cat, l, id)
  }

  ghost function EventOf(cat: Catalogue, l: Ledger, id: string): Event
    requires id in l && Genuine(cat, l, id)
  {
    EventById(cat[l[id].processingId], id)
  }

  /** The event is recorded, or a later event of its entity has been applied. */
  ghost predicate Settled(l: Ledger, e: Event) {
    e.Id() in l || exists id :: AppliedTo(l, e.Entity(), id) && e.Sequence() < l[id].sequence
  }

  /** All PENDING records belong to one processing set and to one of its waves. */
  ghost predicate OnePendingWave(l: Ledger) {
    forall a, b :: IsPending(l, a) && IsPending(l, b) ==>
      l[a].processingId == l[b].processingId && l[a].Wave() == l[b].Wave()
  }

  ghost predicate PendingAboveApplied(l: Ledger) {
    forall p, a :: IsPending(l, p) && AppliedTo(l, l[p].entity, a) ==> l[a].sequence < l[p].sequence
  }

  ghost predicate AppliedDistinct(l: Ledger) {
    forall a, b :: IsApplied(l, a) && AppliedTo(l, l[a].entity, b) && a != b ==> l[a].sequence != l[b].sequence
  }

  /** Nothing of a PENDING set's earlier waves is left undone. */
  ghost predicate EarlierSettled(cat: Catalogue, l: Ledger) {
    forall p, e | IsPending(l, p) && l[p].processingId in cat && e in cat[l[p].processingId]
      :: WaveLe(e.Wave(), l[p].Wave()) ==> Settled(l, e)
  }

  ghost predicate LedgerInv(cat: Catalogue, l: Ledger) {
    Provenance(cat, l) && OnePendingWave(l) && PendingAboveApplied(l) && AppliedDistinct(l) && EarlierSettled(cat, l)
  }

  // ---- Target invariant (HARD policy) ----

  /** `id` is an applied event with a recognised operation at key `k`. */
  ghost predicate AppliedAt(cat: Catalogue, l: Ledger, k: RowKey, id: string)
    requires Provenance(cat, l)
  {
    IsApplied(l, id) && EventOf(cat, l, id).Key() == k && EventOf(cat, l, id).change.Recognised()
  }

  ghost predicate Latest(cat: Catalogue, l: Ledger, k: RowKey, id: string)
    requires Provenance(cat, l)
  {
    AppliedAt(cat, l, k, id) && forall other :: AppliedAt(cat, l, k, other) ==> l[other].sequence <= l[id].sequence
  }

  ghost function EffectOf(cat: Catalogue, l: Ledger, id: string): Option<Row>
    requires id in l && Genuine(cat, l, id)
  {
    Effect(EventOf(cat, l, id), l[id].processingId)
  }

  /** `v` is the effect of the highest-sequence applied event at `k`, or the snapshot row if there is none. */
  ghost predicate Shown(cat: Catalogue, l: Ledger, snap: Target, k: RowKey, v: Option<Row>)
    requires Provenance(cat, l)
  {
    || ((forall id :: !AppliedAt(cat, l, k, id)) && v == Lookup(snap, k))
    || exists id :: Latest(cat, l, k, id) && v == EffectOf(cat, l, id)
  }

  ghost predicate PendingAt(cat: Catalogue, l: Ledger, k: RowKey, id: string)
    requires Provenance(cat, l)
  {
    IsPending(l, id) && EventOf(cat, l, id).Key() == k && EventOf(cat, l, id).change.Recognised()
  }

  /** `v` is already the effect of an event still PENDING at `k`. */
  ghost predicate InFlight(cat: Catalogue, l: Ledger, k: RowKey, v: Option<Row>)
    requires Provenance(cat, l)
  {
    exists id :: PendingAt(cat, l, k, id) && v == EffectOf(cat, l, id)
  }

  ghost predicate TargetInv(cat: Catalogue, snap: Target, s: Store)
    requires Provenance(cat, s.ledger)
  {
    forall k :: Shown(cat, s.ledger, snap, k, Lookup(s.target, k)) || InFlight(cat, s.ledger, k, Lookup(s.target, k))
  }

  ghost predicate Inv(cat: Catalogue, snap: Target, s: Store) {
    LedgerInv(cat, s.ledger) && TargetInv(cat, snap, s)
  }

  // ---- Readiness of the waves still to execute ----

  ghost predicate WaveShape(ws: seq<seq<Event>>) {
    && (forall i :: 0 <= i < |ws| ==> ws[i] != [])
    && (forall i, e :: 0 <= i < |ws| && e in ws[i] ==> e.Wave() == ws[i][0].Wave())
    && (forall i, j :: 0 <= i < j < |ws| ==>
          WaveLe(ws[i][0].Wave(), ws[j][0].Wave()) && ws[i][0].Wave() != ws[j][0].Wave())
  }

  ghost predicate InSome(ws: seq<seq<Event>>, e: Event)
    ensures ws != [] && e in ws[0] ==> InSome(ws, e)
    ensures InSome(ws, e) ==> ws != []
  {
    exists i :: 0 <= i < |ws| && e in ws[i]
  }

  /** `ws` is what remains of processing set `pid`: only its first wave may be PENDING, every event is above
      its entity's applied maximum, and everything left out is settled. */
  ghost predicate Ready(cat: Catalogue, l: Ledger, pid: string, ws: seq<seq<Event>>) {
    && pid in cat
    && WaveShape(ws)
    && (forall e :: InSome(ws, e) ==> e in cat[pid])
    && (forall e :: InSome(ws, e) && e.Id() in l ==>
          IsPending(l, e.Id()) && l[e.Id()].processingId == pid && e in ws[0])
    && (forall e, a :: InSome(ws, e) && AppliedTo(l, e.Entity(), a) ==> l[a].sequence < e.Sequence())
    && (forall id :: IsPending(l, id) ==> ws != [] && id in Ids(ws[0]))
    && (forall e :: e in cat[pid] ==> Settled(l, e) || InSome(ws, e))
  }

  // ---- Small facts ----

  lemma EventByIdUnique(es: seq<Event>, e: Event)
    requires UniqueIds(es) && e in es
    ensures EventById(es, e.Id()) == e
  {
    var i :| 0 <= i < |es| && es[i] == e;
    var j :| 0 <= j < |es| && es[j] == EventById(es, e.Id());
  }

  lemma SameId(es: seq<Event>, e: Event, f: Event)
    requires UniqueIds(es) && e in es && f in es && e.Id() == f.Id()
    ensures e == f
  {
    EventByIdUnique(es, e);
    EventByIdUnique(es, f);
  }

  lemma SameEntitySequence(es: seq<Event>, e: Event, f: Event)
    requires UniqueSequences(es) && e in es && f in es
    requires e.Entity() == f.Entity() && e.Sequence() == f.Sequence()
    ensures e == f
  {
    var i :| 0 <= i < |es| && es[i] == e;
    var j :| 0 <= j < |es| && es[j] == f;
  }

  lemma InAll(cat: Catalogue, pid: string, e: Event)
    requires pid in cat && e in cat[pid]
    ensures e in All(cat)
  {}

  /** Within a batch, two events of one wave at one key are the same event. */
  lemma OneEventPerKey(cat: Catalogue, pid: string, e: Event, f: Event)
    requires WellFormed(cat) && pid in cat && e in cat[pid] && f in cat[pid]
    requires e.Wave() == f.Wave() && e.Key() == f.Key()
    ensures e == f
  {
    InAll(cat, pid, e);
    InAll(cat, pid, f);
    assert Agree(e, f);
    SameEntitySequence(cat[pid], e, f);
  }
}
