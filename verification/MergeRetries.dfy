/** The refinement without content-addressed processing ids (src/merge/pipeline.py:115-283): each submission may bring
    any list of events under its id, longer, shorter or simply another. Crashes may leave several waves PENDING, but
    what the gate demands of a retry is enough. */
module MergeRetries {
  import opened Cdc
  import opened MergeSpec
  import opened MergeInvariant
  import opened MergeWave
  import opened MergeRun
  import opened MergeDecide
  import opened MergeTheorems
  import opened MergeHistory

  /** Submit these events under `pid`; the process survives `survives` commits. */
  datatype Submission = Submission(pid: string, events: seq<Event>, survives: nat)

  /** `cat` lists, under each processing id, every event ever submitted under it: rows and entities coincide, and
      within one processing id an event id means one event. */
  ghost predicate Universe(cat: Catalogue) {
    KeyedByEntity(cat) && forall pid :: pid in cat ==> OneEventEachId(cat[pid])
  }

  ghost predicate SoundBatch(cat: Catalogue, pid: string, es: seq<Event>) {
    pid in cat && UniqueSequences(es) && forall e :: e in es ==> e in cat[pid]
  }

  /** Each list by itself is well-formed. */
  ghost predicate Sound(cat: Catalogue, subs: seq<Submission>) {
    forall b :: b in subs ==> SoundBatch(cat, b.pid, b.events)
  }

  ghost function AfterAll(s: Store, subs: seq<Submission>): Store {
    if subs == [] then s
    else
      var last := subs[|subs| - 1];
      Attempted(AfterAll(s, subs[..|subs| - 1]), last.pid, last.events, HARD, last.survives)
  }

  // ---- Invariant ----

  ghost predicate OneOwner(l: Ledger) {
    forall a, b :: IsPending(l, a) && IsPending(l, b) ==> l[a].processingId == l[b].processingId
  }

  ghost predicate RetryInv(cat: Catalogue, snap: Target, s: Store) {
    && Provenance(cat, s.ledger) && OneOwner(s.ledger) && PendingAboveApplied(s.ledger) && AppliedDistinct(s.ledger)
    && TargetInv(cat, snap, s)
  }

  ghost predicate SingleEvents(ws: seq<seq<Event>>) { forall i :: 0 <= i < |ws| ==> OneEventEach(ws[i]) }

  /** `ws` is what a run of `pid` still has to do: its events are new or PENDING under `pid`, above their entity's
      applied maximum, and include everything PENDING. */
  ghost predicate Remaining(cat: Catalogue, l: Ledger, pid: string, ws: seq<seq<Event>>) {
    && pid in cat && WaveShape(ws) && SingleEvents(ws)
    && (forall e :: InSome(ws, e) ==> e in cat[pid])
    && (forall e :: InSome(ws, e) && e.Id() in l ==> IsPending(l, e.Id()) && l[e.Id()].processingId == pid)
    && (forall e, a :: InSome(ws, e) && AppliedTo(l, e.Entity(), a) ==> l[a].sequence < e.Sequence())
    && (forall id :: IsPending(l, id) ==> id in SomeIds(ws))
  }

  ghost function SomeIds(ws: seq<seq<Event>>): set<string> {
    if ws == [] then {} else Ids(ws[0]) + SomeIds(ws[1..])
  }

  lemma {:induction false} SomeIdsAre(ws: seq<seq<Event>>, id: string)
    ensures id in SomeIds(ws) <==> exists e :: InSome(ws, e) && e.Id() == id
  {
    if ws != [] {
      SomeIdsAre(ws[1..], id);
      if e :| InSome(ws[1..], e) && e.Id() == id {
        InTail(ws, e);
      }
      if e :| InSome(ws, e) && e.Id() == id {
        InTail(ws, e);
      }
    }
  }

  lemma InTail(ws: seq<seq<Event>>, e: Event)
    requires ws != []
    ensures InSome(ws, e) <==> e in ws[0] || InSome(ws[1..], e)
  {
    if i :| 0 <= i < |ws[1..]| && e in ws[1..][i] {
      assert e in ws[i + 1];
    }
    if i :| 0 <= i < |ws| && e in ws[i] {
      assert i > 0 ==> e in ws[1..][i - 1];
    }
  }

  lemma OneById(es: seq<Event>, e: Event)
    requires OneEventEachId(es) && e in es
    ensures e.Id() in Ids(es) && EventById(es, e.Id()) == e
  {}

  // ---- PENDING ----

  /** The part of `Remaining` that concerns one wave. */
  ghost predicate Own(cat: Catalogue, l: Ledger, pid: string, w: seq<Event>) {
    && pid in cat && OneEventEachId(cat[pid]) && OneEventEach(w)
    && (forall e :: e in w ==> e in cat[pid])
    && (forall e :: e in w && e.Id() in l ==> IsPending(l, e.Id()) && l[e.Id()].processingId == pid)
  }

  lemma RecordsOwn(cat: Catalogue, l: Ledger, pid: string, w: seq<Event>)
    requires Provenance(cat, l) && Own(cat, l, pid, w)
    ensures var m := Recorded(l, w, pid);
      && Advances(l, m) && (forall id :: IsApplied(m, id) <==> IsApplied(l, id))
      && (forall id :: IsPending(m, id) <==> IsPending(l, id) || id in Ids(w))
      && (forall id :: id in l ==> id in m && m[id] == l[id])
      && (forall e :: e in w ==> e.Id() in m && m[e.Id()] == RecordOf(e, pid, PENDING))
  {
    hide Change.PkValue;
    var m := Recorded(l, w, pid);
    forall e | e in w ensures m[e.Id()] == RecordOf(e, pid, PENDING) {
      OneById(cat[pid], e);
      if e.Id() in l {
        assert Genuine(cat, l, e.Id());
      } else {
        assert EventById(w, e.Id()) == e;
      }
    }
    forall id ensures IsPending(m, id) <==> IsPending(l, id) || id in Ids(w) {
      if id in Ids(w) {
        var e :| e in w && e.Id() == id;
      }
    }
  }

  lemma RecordsProvenance(cat: Catalogue, l: Ledger, pid: string, w: seq<Event>)
    requires Provenance(cat, l) && Own(cat, l, pid, w)
    ensures Provenance(cat, Recorded(l, w, pid))
    ensures forall e :: e in w ==>
      (IsPending(Recorded(l, w, pid), e.Id()) && EventOf(cat, Recorded(l, w, pid), e.Id()) == e
       && EffectOf(cat, Recorded(l, w, pid), e.Id()) == Effect(e, pid))
  {
    hide Change.PkValue, RowOf;
    var m := Recorded(l, w, pid);
    RecordsOwn(cat, l, pid, w);
    forall id | id in m ensures Genuine(cat, m, id) {
      if id in l {
        assert Genuine(cat, l, id);
      } else {
        var e :| e in w && e.Id() == id;
        OneById(cat[pid], e);
      }
    }
    forall e | e in w ensures e.Id() in m && EventById(cat[pid], e.Id()) == e {
      OneById(cat[pid], e);
    }
  }

  /** What explains a row still does while applied records stay and PENDING ones stay PENDING. */
  lemma ExplainedStays(cat: Catalogue, l: Ledger, m: Ledger, snap: Target, k: RowKey, v: Option<Row>)
    requires Provenance(cat, l) && Provenance(cat, m) && forall id :: id in l ==> id in m && m[id] == l[id]
    requires forall id :: IsApplied(m, id) <==> IsApplied(l, id)
    requires Shown(cat, l, snap, k, v) || InFlight(cat, l, k, v)
    ensures Shown(cat, m, snap, k, v) || InFlight(cat, m, k, v)
  {
    hide Change.PkValue, RowOf;
    if Shown(cat, l, snap, k, v) {
      forall id ensures AppliedAt(cat, m, k, id) <==> AppliedAt(cat, l, k, id) {
        assert IsApplied(m, id) <==> IsApplied(l, id);
      }
      ShownStable(cat, l, m, snap, k, v);
    } else {
      var id :| PendingAt(cat, l, k, id) && v == EffectOf(cat, l, id);
      assert PendingAt(cat, m, k, id);
    }
  }

  lemma RecordsTarget(cat: Catalogue, snap: Target, s: Store, pid: string, w: seq<Event>)
    requires Provenance(cat, s.ledger) && TargetInv(cat, snap, s) && Own(cat, s.ledger, pid, w)
    ensures Provenance(cat, Recorded(s.ledger, w, pid)) && TargetInv(cat, snap, WithPending(s, w, pid))
  {
    RecordsOwn(cat, s.ledger, pid, w);
    RecordsProvenance(cat, s.ledger, pid, w);
    hide Recorded, Own, Shown, InFlight, Change.PkValue;
    forall k ensures Shown(cat, Recorded(s.ledger, w, pid), snap, k, Lookup(s.target, k))
                     || InFlight(cat, Recorded(s.ledger, w, pid), k, Lookup(s.target, k))
    {
      ExplainedStays(cat, s.ledger, Recorded(s.ledger, w, pid), snap, k, Lookup(s.target, k));
    }
  }

  /** The first wave of what remains is its own. */
  lemma FirstIsOwn(cat: Catalogue, l: Ledger, pid: string, ws: seq<seq<Event>>)
    requires Universe(cat) && Remaining(cat, l, pid, ws) && ws != []
    ensures Own(cat, l, pid, ws[0])
    ensures forall e, a :: e in ws[0] && AppliedTo(l, e.Entity(), a) ==> l[a].sequence < e.Sequence()
    ensures forall e :: e in ws[0] ==> InSome(ws, e)
  {
    forall e | e in ws[0] ensures InSome(ws, e) {}
  }

  /** Adding PENDING records above what has been applied keeps the order of each entity. */
  lemma AddingKeeps(l: Ledger, m: Ledger, w: seq<Event>, pid: string)
    requires PendingAboveApplied(l) && AppliedDistinct(l) && forall id :: IsPending(l, id) ==> l[id].processingId == pid
    requires forall id :: id in l ==> id in m && m[id] == l[id]
    requires forall id :: IsApplied(m, id) ==> IsApplied(l, id)
    requires forall id :: IsPending(m, id) ==> IsPending(l, id) || id in Ids(w)
    requires forall e :: e in w ==> e.Id() in m && m[e.Id()] == RecordOf(e, pid, PENDING)
    requires forall e, a :: e in w && AppliedTo(l, e.Entity(), a) ==> l[a].sequence < e.Sequence()
    ensures OneOwner(m) && PendingAboveApplied(m) && AppliedDistinct(m)
  {
    hide Change.PkValue;
    forall p, a | IsPending(m, p) && AppliedTo(m, m[p].entity, a) ensures m[a].sequence < m[p].sequence {
      assert IsApplied(l, a) && AppliedTo(l, m[p].entity, a);
      if p in Ids(w) {
        var e :| e in w && e.Id() == p;
      }
    }
    forall a, b | IsApplied(m, a) && AppliedTo(m, m[a].entity, b) && a != b ensures m[a].sequence != m[b].sequence {
      assert IsApplied(l, a) && IsApplied(l, b) && AppliedTo(l, l[a].entity, b);
    }
  }

  lemma RecordsLedger(cat: Catalogue, l: Ledger, pid: string, ws: seq<seq<Event>>)
    requires Universe(cat) && Remaining(cat, l, pid, ws) && ws != [] && Provenance(cat, l)
    requires PendingAboveApplied(l) && AppliedDistinct(l)
    ensures var m := Recorded(l, ws[0], pid); OneOwner(m) && PendingAboveApplied(m) && AppliedDistinct(m)
  {
    hide Universe, Remaining, Provenance, Recorded, Own, PendingAboveApplied;
    hide AppliedDistinct, OneOwner, RecordOf, Advances;
    FirstIsOwn(cat, l, pid, ws);
    RecordsOwn(cat, l, pid, ws[0]);
    PendingIsOwn(cat, l, pid, ws);
    AddingKeeps(l, Recorded(l, ws[0], pid), ws[0], pid);
  }

  lemma PendingIsOwn(cat: Catalogue, l: Ledger, pid: string, ws: seq<seq<Event>>)
    requires Remaining(cat, l, pid, ws)
    ensures forall id :: IsPending(l, id) ==> l[id].processingId == pid
  {
    forall id | IsPending(l, id) ensures l[id].processingId == pid {
      SomeIdsAre(ws, id);
    }
  }

  lemma RecordsInv(cat: Catalogue, snap: Target, s: Store, pid: string, ws: seq<seq<Event>>)
    requires Universe(cat) && RetryInv(cat, snap, s) && Remaining(cat, s.ledger, pid, ws) && ws != []
    ensures RetryInv(cat, snap, WithPending(s, ws[0], pid))
  {
    assert Provenance(cat, s.ledger);
    hide Universe, Remaining, Own, Provenance, TargetInv, OneOwner, PendingAboveApplied, AppliedDistinct, Recorded;
    FirstIsOwn(cat, s.ledger, pid, ws);
    RecordsLedger(cat, s.ledger, pid, ws);
    RecordsTarget(cat, snap, s, pid, ws[0]);
  }

  // ---- Target commits ----

  /** The wave is recorded and PENDING under `pid`. */
  ghost predicate InHand(cat: Catalogue, l: Ledger, pid: string, w: seq<Event>) {
    && OneEventEach(w) && Provenance(cat, l)
    && forall e :: e in w ==>
         (IsPending(l, e.Id()) && EventOf(cat, l, e.Id()) == e && EffectOf(cat, l, e.Id()) == Effect(e, pid))
  }

  lemma HandInFlight(cat: Catalogue, l: Ledger, pid: string, w: seq<Event>, e: Event)
    requires InHand(cat, l, pid, w) && e in w && e.change.Recognised()
    ensures InFlight(cat, l, e.Key(), Effect(e, pid))
  {
    assert PendingAt(cat, l, e.Key(), e.Id());
  }

  /** A target that changes only rows of events in hand, and to their effects, is explained. */
  lemma HandAllowed(cat: Catalogue, snap: Target, s: Store, t: Target)
    requires RetryInv(cat, snap, s)
    requires forall k :: Lookup(t, k) == Lookup(s.target, k) || InFlight(cat, s.ledger, k, Lookup(t, k))
    ensures RetryInv(cat, snap, s.(target := t))
  {
    hide Shown, InFlight;
  }

  lemma TargetCommitsInv(cat: Catalogue, snap: Target, s: Store, pid: string, w: seq<Event>)
    requires RetryInv(cat, snap, s) && InHand(cat, s.ledger, pid, w)
    ensures RetryInv(cat, snap, s.(target := Upserted(s.target, UpsertsIn(w), pid)))
    ensures RetryInv(cat, snap, s.(target := Mutated(s.target, w, pid, HARD)))
  {
    assert Provenance(cat, s.ledger);
    hide Change.PkValue, Change.Key, Shown, RowOf, InHand, RetryInv, Provenance;
    var u, m := Upserted(s.target, UpsertsIn(w), pid), Mutated(s.target, w, pid, HARD);
    forall k
      ensures Lookup(u, k) == Lookup(s.target, k) || InFlight(cat, s.ledger, k, Lookup(u, k))
      ensures Lookup(m, k) == Lookup(s.target, k) || InFlight(cat, s.ledger, k, Lookup(m, k))
    {
      HandLookup(cat, s.ledger, s.target, pid, w, k);
    }
    hide InFlight, Upserted, Mutated;
    HandAllowed(cat, snap, s, u);
    HandAllowed(cat, snap, s, m);
  }

  lemma HandLookup(cat: Catalogue, l: Ledger, t: Target, pid: string, w: seq<Event>, k: RowKey)
    requires Provenance(cat, l) && InHand(cat, l, pid, w)
    ensures var u := Lookup(Upserted(t, UpsertsIn(w), pid), k); u == Lookup(t, k) || InFlight(cat, l, k, u)
    ensures var m := Lookup(Mutated(t, w, pid, HARD), k); m == Lookup(t, k) || InFlight(cat, l, k, m)
  {
    MutatedLookup(t, w, pid, HARD, k);
    hide Mutated, Upserted, InFlight, Change.PkValue;
    if k in Keys(UpsertsIn(w)) {
      var e := EventByKey(UpsertsIn(w), k);
      HandInFlight(cat, l, pid, w, e);
    } else if k in Keys(DeletesIn(w)) {
      var e := EventByKey(DeletesIn(w), k);
      HandInFlight(cat, l, pid, w, e);
    }
  }

  // ---- APPLIED ----

  /** Everything PENDING besides the wave lies above it, entity by entity. */
  ghost predicate WaveFirst(l: Ledger, w: seq<Event>) {
    forall e, p :: e in w && IsPending(l, p) && p !in Ids(w) && l[p].entity == e.Entity() ==>
      e.Sequence() < l[p].sequence
  }

  lemma MarksProvenance(cat: Catalogue, l: Ledger, ids: set<string>)
    requires Provenance(cat, l)
    ensures Provenance(cat, Marked(l, ids))
    ensures forall id :: id in l ==> EventOf(cat, Marked(l, ids), id) == EventOf(cat, l, id)
    ensures forall id :: id in l ==> EffectOf(cat, Marked(l, ids), id) == EffectOf(cat, l, id)
  {
    hide Change.PkValue, RowOf;
    forall id | id in l ensures Genuine(cat, l, id) && Genuine(cat, Marked(l, ids), id) {}
  }

  lemma HandRecord(cat: Catalogue, l: Ledger, pid: string, w: seq<Event>, e: Event)
    requires InHand(cat, l, pid, w) && e in w
    ensures IsPending(l, e.Id()) && l[e.Id()].entity == e.Entity() && l[e.Id()].sequence == e.Sequence()
  {
    assert Genuine(cat, l, e.Id());
  }

  lemma MarksLedger(cat: Catalogue, l: Ledger, pid: string, w: seq<Event>)
    requires Universe(cat) && pid in cat && (forall e :: e in w ==> e in cat[pid] && e.Wave() == w[0].Wave())
    requires Provenance(cat, l) && OneOwner(l) && PendingAboveApplied(l) && AppliedDistinct(l)
    requires InHand(cat, l, pid, w) && WaveFirst(l, w)
    ensures var m := Marked(l, Ids(w)); OneOwner(m) && PendingAboveApplied(m) && AppliedDistinct(m)
  {
    hide Change.PkValue, Change.Key, InHand, Provenance, Universe;
    var m := Marked(l, Ids(w));
    forall e | e in w
      ensures IsPending(l, e.Id()) && l[e.Id()].entity == e.Entity() && l[e.Id()].sequence == e.Sequence()
    {
      HandRecord(cat, l, pid, w, e);
    }
    forall p, a | IsPending(m, p) && AppliedTo(m, m[p].entity, a) ensures m[a].sequence < m[p].sequence {
      if a in Ids(w) {
        var e :| e in w && e.Id() == a;
      } else {
        assert AppliedTo(l, l[p].entity, a);
      }
    }
    forall a, b | IsApplied(m, a) && AppliedTo(m, m[a].entity, b) && a != b ensures m[a].sequence != m[b].sequence {
      if a in Ids(w) && b in Ids(w) {
        var e :| e in w && e.Id() == a;
        var f :| f in w && f.Id() == b;
        SameEntitySameEvent(cat, pid, l, w, e, f);
      } else if a in Ids(w) {
        assert AppliedTo(l, l[a].entity, b);
      } else if b in Ids(w) {
        assert AppliedTo(l, l[b].entity, a);
      } else {
        assert AppliedTo(l, l[a].entity, b);
      }
    }
  }

  lemma SameEntitySameEvent(cat: Catalogue, pid: string, l: Ledger, w: seq<Event>, e: Event, f: Event)
    requires Universe(cat) && pid in cat && InHand(cat, l, pid, w)
    requires e in w && f in w && e in cat[pid] && f in cat[pid] && e.Entity() == f.Entity()
    ensures e == f
  {
    hide Change.PkValue, Change.Key;
    InAll(cat, pid, e);
    InAll(cat, pid, f);
    assert Agree(e, f);
  }

  lemma MarkedHere(cat: Catalogue, l: Ledger, pid: string, w: seq<Event>, e: Event)
    requires InHand(cat, l, pid, w) && Provenance(cat, Marked(l, Ids(w))) && e in w && e.change.Recognised()
    ensures AppliedAt(cat, Marked(l, Ids(w)), e.Key(), e.Id())
    ensures EffectOf(cat, Marked(l, Ids(w)), e.Id()) == Effect(e, pid)
    ensures e.Id() in l && Marked(l, Ids(w))[e.Id()].sequence == l[e.Id()].sequence
  {
    assert e.Id() in Ids(w) && IsPending(l, e.Id());
    hide Change.PkValue, Change.Key, RowOf;
    MarksProvenance(cat, l, Ids(w));
  }

  /** The wave's events are the latest at their keys once marked. */
  lemma MarksLatest(cat: Catalogue, l: Ledger, pid: string, w: seq<Event>, e: Event)
    requires Universe(cat) && pid in cat && e in cat[pid] && InHand(cat, l, pid, w) && PendingAboveApplied(l)
    requires Provenance(cat, Marked(l, Ids(w))) && e in w && e.change.Recognised()
    requires forall f :: f in w ==> f.Wave() == w[0].Wave()
    ensures Latest(cat, Marked(l, Ids(w)), e.Key(), e.Id())
    ensures EffectOf(cat, Marked(l, Ids(w)), e.Id()) == Effect(e, pid)
  {
    hide Change.PkValue, Change.Key, RowOf, Universe, Genuine, PendingAboveApplied, AppliedAt, InHand, Provenance;
    var m := Marked(l, Ids(w));
    MarkedHere(cat, l, pid, w, e);
    forall other | AppliedAt(cat, m, e.Key(), other)
      ensures other in m && e.Id() in m && m[other].sequence <= m[e.Id()].sequence
    {
      MarkedIsBelow(cat, l, pid, w, e, other);
    }
  }

  lemma MarkedIsBelow(cat: Catalogue, l: Ledger, pid: string, w: seq<Event>, e: Event, other: string)
    requires Universe(cat) && pid in cat && e in cat[pid] && InHand(cat, l, pid, w) && PendingAboveApplied(l)
    requires Provenance(cat, Marked(l, Ids(w))) && e in w && forall f :: f in w ==> f.Wave() == w[0].Wave()
    requires AppliedAt(cat, Marked(l, Ids(w)), e.Key(), other)
    ensures e.Id() in l && other in l && l[other].sequence <= l[e.Id()].sequence
  {
    hide Change.PkValue, RowOf, Universe, PendingAboveApplied;
    MarksProvenance(cat, l, Ids(w));
    if other in Ids(w) {
      SameWaveSequence(cat, l, pid, w, e, other);
    } else {
      assert AppliedAt(cat, l, e.Key(), other);
      AppliedBelow(cat, l, pid, e, other);
    }
  }

  lemma SameWaveSequence(cat: Catalogue, l: Ledger, pid: string, w: seq<Event>, e: Event, other: string)
    requires InHand(cat, l, pid, w) && e in w && other in Ids(w) && (forall f :: f in w ==> f.Wave() == w[0].Wave())
    ensures other in l && e.Id() in l && l[other].sequence == l[e.Id()].sequence
  {
    var g :| g in w && g.Id() == other;
    HandRecord(cat, l, pid, w, g);
    HandRecord(cat, l, pid, w, e);
    hide InHand;
    assert g.Wave() == e.Wave();
  }

  lemma AppliedBelow(cat: Catalogue, l: Ledger, pid: string, e: Event, other: string)
    requires Universe(cat) && pid in cat && e in cat[pid] && Provenance(cat, l) && PendingAboveApplied(l)
    requires IsPending(l, e.Id()) && EventOf(cat, l, e.Id()) == e && AppliedAt(cat, l, e.Key(), other)
    ensures l[other].sequence < l[e.Id()].sequence
  {
    hide Change.PkValue, Change.Key;
    assert Genuine(cat, l, e.Id()) && Genuine(cat, l, other);
    InAll(cat, pid, e);
    InAll(cat, l[other].processingId, EventOf(cat, l, other));
    assert Agree(e, EventOf(cat, l, other));
    assert AppliedTo(l, l[e.Id()].entity, other);
  }

  /** At a key at which the wave has no recognised event nothing changes. */
  lemma MarksElsewhere(cat: Catalogue, snap: Target, l: Ledger, pid: string, w: seq<Event>, k: RowKey, v: Option<Row>)
    requires InHand(cat, l, pid, w) && Provenance(cat, Marked(l, Ids(w)))
    requires forall e :: e in w && e.Key() == k ==> !e.change.Recognised()
    requires Shown(cat, l, snap, k, v) || InFlight(cat, l, k, v)
    ensures Shown(cat, Marked(l, Ids(w)), snap, k, v) || InFlight(cat, Marked(l, Ids(w)), k, v)
  {
    hide Change.PkValue, RowOf, Change.Key;
    var m := Marked(l, Ids(w));
    MarksProvenance(cat, l, Ids(w));
    forall id | id in Ids(w)
      ensures id in l && !(EventOf(cat, l, id).Key() == k && EventOf(cat, l, id).change.Recognised())
    {
      var e :| e in w && e.Id() == id;
    }
    if Shown(cat, l, snap, k, v) {
      forall id ensures AppliedAt(cat, m, k, id) <==> AppliedAt(cat, l, k, id) {}
      ShownStable(cat, l, m, snap, k, v);
    } else {
      var id :| PendingAt(cat, l, k, id) && v == EffectOf(cat, l, id);
      assert PendingAt(cat, m, k, id);
    }
  }

  lemma MarksInv(cat: Catalogue, snap: Target, s: Store, pid: string, w: seq<Event>)
    requires Universe(cat) && pid in cat && (forall e :: e in w ==> e in cat[pid] && e.Wave() == w[0].Wave())
    requires RetryInv(cat, snap, s) && InHand(cat, s.ledger, pid, w) && WaveFirst(s.ledger, w)
    requires forall e :: e in w && e.change.Recognised() ==> Lookup(s.target, e.Key()) == Effect(e, pid)
    ensures RetryInv(cat, snap, s.(ledger := Marked(s.ledger, Ids(w))))
  {
    hide Change.PkValue, Change.Key, RowOf, Universe, InHand, Shown, InFlight, Marked;
    MarksProvenance(cat, s.ledger, Ids(w));
    MarksLedger(cat, s.ledger, pid, w);
    forall k ensures Shown(cat, Marked(s.ledger, Ids(w)), snap, k, Lookup(s.target, k))
                     || InFlight(cat, Marked(s.ledger, Ids(w)), k, Lookup(s.target, k))
    {
      if e :| e in w && e.Key() == k && e.change.Recognised() {
        MarksLatest(cat, s.ledger, pid, w, e);
        LatestShows(cat, Marked(s.ledger, Ids(w)), snap, k, e.Id(), Lookup(s.target, k));
      } else {
        MarksElsewhere(cat, snap, s.ledger, pid, w, k, Lookup(s.target, k));
      }
    }
  }

  lemma LatestShows(cat: Catalogue, l: Ledger, snap: Target, k: RowKey, id: string, v: Option<Row>)
    requires Provenance(cat, l) && Latest(cat, l, k, id) && v == EffectOf(cat, l, id)
    ensures Shown(cat, l, snap, k, v)
  {}

  // ---- One wave, and what remains after it ----

  /** Every later event of an entity has a higher sequence number. */
  lemma LaterWaveIsAbove(cat: Catalogue, pid: string, ws: seq<seq<Event>>, e: Event, f: Event)
    requires Universe(cat) && pid in cat && WaveShape(ws) && ws != [] && e in ws[0] && InSome(ws[1..], f)
    requires e in cat[pid] && f in cat[pid]
    ensures e.Wave() != f.Wave() && (e.Entity() == f.Entity() ==> e.Sequence() < f.Sequence())
  {
    var i :| 0 <= i < |ws[1..]| && f in ws[1..][i];
    assert f in ws[i + 1];
    if e.Entity() == f.Entity() {
      InAll(cat, pid, e);
      InAll(cat, pid, f);
      assert Agree(e, f);
    }
  }

  lemma FirstGoesFirst(cat: Catalogue, l: Ledger, pid: string, ws: seq<seq<Event>>)
    requires Universe(cat) && Provenance(cat, l) && Remaining(cat, l, pid, ws) && ws != []
    ensures WaveFirst(Recorded(l, ws[0], pid), ws[0])
  {
    hide Change.PkValue, Change.Key;
    var w := ws[0];
    var m := Recorded(l, w, pid);
    FirstIsOwn(cat, l, pid, ws);
    RecordsOwn(cat, l, pid, w);
    forall e, p | e in w && IsPending(m, p) && p !in Ids(w) && m[p].entity == e.Entity()
      ensures e.Sequence() < m[p].sequence
    {
      SomeIdsAre(ws, p);
      var f :| InSome(ws, f) && f.Id() == p;
      InTail(ws, f);
      OneById(cat[pid], f);
      assert Genuine(cat, l, p);
      LaterWaveIsAbove(cat, pid, ws, e, f);
    }
  }

  /** Every state inside the first wave of what remains satisfies the invariant. */
  lemma WaveRetryInv(cat: Catalogue, snap: Target, s: Store, pid: string, ws: seq<seq<Event>>)
    requires Universe(cat) && RetryInv(cat, snap, s) && Remaining(cat, s.ledger, pid, ws) && ws != []
    ensures RetryInv(cat, snap, WithPending(s, ws[0], pid)) && RetryInv(cat, snap, WithUpserts(s, ws[0], pid))
    ensures RetryInv(cat, snap, WithTarget(s, ws[0], pid, HARD)) && RetryInv(cat, snap, WaveDone(s, ws[0], pid, HARD))
  {
    var w := ws[0];
    FirstIsOwn(cat, s.ledger, pid, ws);
    RecordsInv(cat, snap, s, pid, ws);
    assert Provenance(cat, s.ledger);
    RecordsProvenance(cat, s.ledger, pid, w);
    assert InHand(cat, Recorded(s.ledger, w, pid), pid, w);
    FirstGoesFirst(cat, s.ledger, pid, ws);
    hide InHand, WaveFirst, RetryInv, Universe, Recorded, Mutated, Upserted, Marked, Change.PkValue, Change.Key, RowOf;
    TargetCommitsInv(cat, snap, WithPending(s, w, pid), pid, w);
    var x := WithTarget(s, w, pid, HARD);
    forall e | e in w && e.change.Recognised() ensures Lookup(x.target, e.Key()) == Effect(e, pid) {
      MutatedAt(s.target, w, pid, e.Key());
    }
    MarksInv(cat, snap, x, pid, w);
  }

  lemma RestEvent(cat: Catalogue, l: Ledger, pid: string, ws: seq<seq<Event>>, e: Event)
    requires Universe(cat) && Provenance(cat, l) && Remaining(cat, l, pid, ws) && ws != [] && InSome(ws[1..], e)
    ensures e in cat[pid] && InSome(ws, e) && e.Id() !in Ids(ws[0])
    ensures forall f :: f in ws[0] && f.Entity() == e.Entity() ==> f.Sequence() < e.Sequence()
  {
    InTail(ws, e);
    FirstIsOwn(cat, l, pid, ws);
    assert e in cat[pid];
    hide Change.PkValue, Change.Key, Own;
    forall f | f in ws[0] ensures f.Id() != e.Id() && (f.Entity() == e.Entity() ==> f.Sequence() < e.Sequence()) {
      assert f in cat[pid];
      LaterWaveIsAbove(cat, pid, ws, f, e);
    }
  }

  /** What the finished wave leaves of the ledger. */
  lemma FinishedWave(cat: Catalogue, l: Ledger, pid: string, w: seq<Event>)
    requires Provenance(cat, l) && Own(cat, l, pid, w)
    ensures var m := Marked(Recorded(l, w, pid), Ids(w));
      && (forall id :: id in m <==> id in l || id in Ids(w))
      && (forall id :: id in l && id !in Ids(w) ==> m[id] == l[id])
      && (forall id :: id in Ids(w) ==> IsApplied(m, id))
      && (forall e :: e in w ==> m[e.Id()] == RecordOf(e, pid, APPLIED))
  {
    hide Change.PkValue;
    RecordsOwn(cat, l, pid, w);
  }

  lemma RestEventReady(cat: Catalogue, l: Ledger, pid: string, ws: seq<seq<Event>>, e: Event)
    requires Universe(cat) && Provenance(cat, l) && Remaining(cat, l, pid, ws) && ws != [] && InSome(ws[1..], e)
    ensures var m := Marked(Recorded(l, ws[0], pid), Ids(ws[0]));
      && e in cat[pid]
      && (e.Id() in m ==> IsPending(m, e.Id()) && m[e.Id()].processingId == pid)
      && forall a :: AppliedTo(m, e.Entity(), a) ==> m[a].sequence < e.Sequence()
  {
    RestEvent(cat, l, pid, ws, e);
    FirstIsOwn(cat, l, pid, ws);
    FinishedWave(cat, l, pid, ws[0]);
    assert e.Id() in l ==> IsPending(l, e.Id()) && l[e.Id()].processingId == pid;
    assert forall a :: AppliedTo(l, e.Entity(), a) ==> l[a].sequence < e.Sequence();
    hide Remaining, Universe, Provenance, Own, Recorded, Marked, Change.PkValue, Change.Key;
    var w := ws[0];
    var m := Marked(Recorded(l, w, pid), Ids(w));
    forall a | AppliedTo(m, e.Entity(), a) ensures m[a].sequence < e.Sequence() {
      if a in Ids(w) {
        var f :| f in w && f.Id() == a;
      } else {
        assert AppliedTo(l, e.Entity(), a);
      }
    }
  }

  lemma FinishedLeavesPending(cat: Catalogue, l: Ledger, pid: string, w: seq<Event>, id: string)
    requires Provenance(cat, l) && Own(cat, l, pid, w) && IsPending(Marked(Recorded(l, w, pid), Ids(w)), id)
    ensures IsPending(l, id) && id !in Ids(w)
  {
    FinishedWave(cat, l, pid, w);
    hide Provenance, Own, Recorded, Marked;
  }

  lemma RestPending(cat: Catalogue, l: Ledger, pid: string, ws: seq<seq<Event>>, id: string)
    requires Universe(cat) && Provenance(cat, l) && Remaining(cat, l, pid, ws) && ws != []
    requires IsPending(Marked(Recorded(l, ws[0], pid), Ids(ws[0])), id)
    ensures id in SomeIds(ws[1..])
  {
    assert IsPending(l, id) ==> id in SomeIds(ws);
    hide Universe, Provenance, Own, Recorded, Marked, Remaining, Ids, IsPending;
    FirstIsOwn(cat, l, pid, ws);
    FinishedLeavesPending(cat, l, pid, ws[0], id);
  }

  lemma RestRemains(cat: Catalogue, l: Ledger, pid: string, ws: seq<seq<Event>>)
    requires Universe(cat) && Provenance(cat, l) && Remaining(cat, l, pid, ws) && ws != []
    ensures Remaining(cat, Marked(Recorded(l, ws[0], pid), Ids(ws[0])), pid, ws[1..])
  {
    hide Universe, Provenance, Recorded, Marked, WaveShape, OneEventEach;
    var rest, m := ws[1..], Marked(Recorded(l, ws[0], pid), Ids(ws[0]));
    WaveShapeRest(ws);
    assert forall i :: 0 <= i < |rest| ==> rest[i] == ws[i + 1];
    forall e | InSome(rest, e)
      ensures e in cat[pid]
      ensures e.Id() in m ==> IsPending(m, e.Id()) && m[e.Id()].processingId == pid
      ensures forall a :: AppliedTo(m, e.Entity(), a) ==> m[a].sequence < e.Sequence()
    {
      RestEventReady(cat, l, pid, ws, e);
    }
    forall id | IsPending(m, id) ensures id in SomeIds(rest) {
      RestPending(cat, l, pid, ws, id);
    }
  }

  /** The invariant holds at every crash point of a plan. */
  lemma {:induction false} PlanRetryInv(cat: Catalogue, snap: Target, s: Store, pid: string, ws: seq<seq<Event>>,
                                        n: nat)
    requires Universe(cat) && RetryInv(cat, snap, s) && Remaining(cat, s.ledger, pid, ws) && n <= |Plan(ws, pid, HARD)|
    ensures RetryInv(cat, snap, ApplyAll(s, Plan(ws, pid, HARD)[..n]))
    decreases |ws|
  {
    if ws != [] {
      assert Provenance(cat, s.ledger);
      hide Universe, RetryInv, Remaining, Recorded, Marked, Mutated, ApplyAll, WaveCommits, Plan;
      var size := |WaveCommits(ws[0], pid, HARD)|;
      PlanStep(s, ws, pid, HARD, n);
      WaveRetryInv(cat, snap, s, pid, ws);
      if n <= size {
        WaveReach(s, ws[0], pid, HARD, n);
      } else {
        RestRemains(cat, s.ledger, pid, ws);
        PlanRetryInv(cat, snap, WaveDone(s, ws[0], pid, HARD), pid, ws[1..], n - size);
      }
    }
  }

  // ---- Whole runs ----

  lemma DecidedSingle(cat: Catalogue, pid: string, es: seq<Event>, acts: seq<Event>)
    requires Universe(cat) && SoundBatch(cat, pid, es) && forall e :: e in acts ==> e in es
    ensures SingleEvents(Waves(acts))
  {
    hide Change.PkValue, Change.Key;
    var ws: seq<seq<Event>> := Waves(acts);
    WavesFacts(acts);
    forall i, e, f | 0 <= i < |ws| && e in ws[i] && f in ws[i] && e.Key() == f.Key() ensures e == f {
      assert InSome(ws, e) && InSome(ws, f);
      assert e.Wave() == ws[i][0].Wave() == f.Wave();
      InAll(cat, pid, e);
      InAll(cat, pid, f);
      assert Agree(e, f);
      SameEntitySequence(es, e, f);
    }
  }

  lemma ActionableIsAbove(cat: Catalogue, l: Ledger, pid: string, es: seq<Event>, e: Event)
    requires Universe(cat) && SoundBatch(cat, pid, es) && Provenance(cat, l) && PendingAboveApplied(l)
    requires e in es && Acts(Classify(l, pid, e))
    ensures e.Id() in l ==> IsPending(l, e.Id()) && l[e.Id()].processingId == pid
    ensures forall a :: AppliedTo(l, e.Entity(), a) ==> l[a].sequence < e.Sequence()
  {
    hide Change.PkValue;
    ClassifyMeans(l, pid, e);
    if e.Id() in l {
      assert Genuine(cat, l, e.Id());
      OneById(cat[pid], e);
    }
  }

  /** An accepted run has exactly this remaining. */
  lemma DecidedRemains(cat: Catalogue, l: Ledger, pid: string, es: seq<Event>, t: Triage)
    requires Universe(cat) && SoundBatch(cat, pid, es) && Provenance(cat, l) && PendingAboveApplied(l)
    requires Decide(l, pid, es) == Ok(t)
    ensures Remaining(cat, l, pid, Waves(t.Actionable()))
  {
    var ws: seq<seq<Event>> := Waves(t.Actionable());
    WavesFacts(t.Actionable());
    ClassifyAllOk(l, pid, es);
    forall e ensures e in t.Actionable() <==> e in es && Acts(Classify(l, pid, e)) {
      ActionableIs(l, pid, es, e);
    }
    DecidedSingle(cat, pid, es, t.Actionable());
    forall e | InSome(ws, e)
      ensures e in cat[pid]
      ensures e.Id() in l ==> IsPending(l, e.Id()) && l[e.Id()].processingId == pid
      ensures forall a :: AppliedTo(l, e.Entity(), a) ==> l[a].sequence < e.Sequence()
    {
      ActionableIsAbove(cat, l, pid, es, e);
    }
    forall id | IsPending(l, id) ensures id in SomeIds(ws) {
      GatedIsActionable(l, pid, es, id);
      SomeIdsAre(ws, id);
    }
  }

  /** Whatever is PENDING is acted on by the next accepted run. */
  lemma GatedIsActionable(l: Ledger, pid: string, es: seq<Event>, id: string)
    requires Gate(l, pid, es).None? && IsPending(l, id)
    ensures exists e :: e in es && e.Id() == id && Acts(Classify(l, pid, e))
  {
    var e := EventById(es, id);
    ClassifyMeans(l, pid, e);
  }

  lemma SubmissionInv(cat: Catalogue, snap: Target, s: Store, b: Submission)
    requires Universe(cat) && SoundBatch(cat, b.pid, b.events) && RetryInv(cat, snap, s)
    ensures RetryInv(cat, snap, Attempted(s, b.pid, b.events, HARD, b.survives))
  {
    if Decide(s.ledger, b.pid, b.events).Ok? {
      var t := Decide(s.ledger, b.pid, b.events).value;
      DecidedRemains(cat, s.ledger, b.pid, b.events, t);
      var k := PrefixIs(Plan(Waves(t.Actionable()), b.pid, HARD), b.survives);
      hide Universe, RetryInv, Remaining, Decide, Waves;
      PlanRetryInv(cat, snap, s, b.pid, Waves(t.Actionable()), k);
    }
  }

  /** The invariant in every state reached by any submissions: every row is the effect of the latest APPLIED event at
      its key, the snapshot's, or the effect of an event still PENDING there. */
  lemma {:induction false} RetriesKeepInv(cat: Catalogue, snap: Target, subs: seq<Submission>)
    requires Universe(cat) && Sound(cat, subs)
    ensures RetryInv(cat, snap, AfterAll(Initial(snap), subs))
  {
    if subs == [] {
      InitialInv(cat, snap);
    } else {
      hide Universe, RetryInv, Attempted;
      RetriesKeepInv(cat, snap, subs[..|subs| - 1]);
      SubmissionInv(cat, snap, AfterAll(Initial(snap), subs[..|subs| - 1]), subs[|subs| - 1]);
    }
  }

  /** Refinement without content-addressed ids: after any submissions of any lists, each dying anywhere, with no
      record PENDING the target shows at every key exactly the effect of the highest-sequence APPLIED event, or the
      snapshot row. */
  lemma RetriesRefine(cat: Catalogue, snap: Target, subs: seq<Submission>, k: RowKey)
    requires Universe(cat) && Sound(cat, subs) && NoPending(AfterAll(Initial(snap), subs).ledger)
    ensures var x := AfterAll(Initial(snap), subs);
      Provenance(cat, x.ledger) && Shown(cat, x.ledger, snap, k, Lookup(x.target, k))
  {
    RetriesKeepInv(cat, snap, subs);
    var x := AfterAll(Initial(snap), subs);
    hide AfterAll, Universe, Sound;
    assert Shown(cat, x.ledger, snap, k, Lookup(x.target, k)) || InFlight(cat, x.ledger, k, Lookup(x.target, k));
  }

  /** No resurrection either: at the key of an applied DELETE, a row has a strictly higher sequence number. */
  lemma RetriesNoResurrection(cat: Catalogue, snap: Target, subs: seq<Submission>, id: string)
    requires Universe(cat) && Sound(cat, subs) && IsApplied(AfterAll(Initial(snap), subs).ledger, id)
    requires AfterAll(Initial(snap), subs).ledger[id].operation == DELETE
    ensures var x := AfterAll(Initial(snap), subs);
      && Provenance(cat, x.ledger)
      && var k := EventOf(cat, x.ledger, id).Key();
         k in x.target ==> x.target[k].sequence > x.ledger[id].sequence
  {
    RetriesKeepInv(cat, snap, subs);
    DeletedStaysDeleted(cat, snap, AfterAll(Initial(snap), subs), id);
  }
}
