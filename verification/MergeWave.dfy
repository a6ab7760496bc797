/** One wave of the two-phase protocol keeps the invariant at every commit, and commits are idempotent. */
module MergeWave {
  import opened Cdc
  import opened MergeSpec
  import opened MergeInvariant

  /** The conditions under which one wave may execute next. */
  ghost predicate ReadyWave(cat: Catalogue, l: Ledger, pid: string, w: seq<Event>) {
    && pid in cat && w != []
    && (forall e :: e in w ==> e in cat[pid] && e.Wave() == w[0].Wave())
    && (forall e :: e in w && e.Id() in l ==> IsPending(l, e.Id()) && l[e.Id()].processingId == pid)
    && (forall e, a :: e in w && AppliedTo(l, e.Entity(), a) ==> l[a].sequence < e.Sequence())
    && (forall id :: IsPending(l, id) ==> id in Ids(w))
    && (forall e :: e in cat[pid] && WaveLe(e.Wave(), w[0].Wave()) ==> Settled(l, e) || e in w)
  }

  /** The PENDING records are exactly this wave. */
  ghost predicate WavePending(cat: Catalogue, l: Ledger, pid: string, w: seq<Event>) {
    && ReadyWave(cat, l, pid, w)
    && (forall e :: e in w ==> e.Id() in l && l[e.Id()] == RecordOf(e, pid, PENDING))
  }

  /** A ledger in which some records have moved forward and none has been lost or altered. */
  ghost predicate Advances(l: Ledger, m: Ledger) {
    forall id :: id in l ==>
      id in m && (m[id] == l[id] || (l[id].status == PENDING && m[id] == l[id].(status := APPLIED)))
  }

  lemma SettledMonotone(l: Ledger, m: Ledger, e: Event)
    requires Advances(l, m) && Settled(l, e)
    ensures Settled(m, e)
  {
    if e.Id() !in l {
      var id :| AppliedTo(l, e.Entity(), id) && e.Sequence() < l[id].sequence;
      assert AppliedTo(m, e.Entity(), id);
    }
  }

  // ---- Phase A: PENDING ----

  lemma RecordedFacts(cat: Catalogue, l: Ledger, pid: string, w: seq<Event>)
    requires WellFormed(cat) && LedgerInv(cat, l) && ReadyWave(cat, l, pid, w)
    ensures Advances(l, Recorded(l, w, pid))
    ensures forall id :: IsApplied(Recorded(l, w, pid), id) <==> IsApplied(l, id)
    ensures forall id :: IsPending(Recorded(l, w, pid), id) <==> id in Ids(w)
    ensures forall e :: e in w ==> Recorded(l, w, pid)[e.Id()] == RecordOf(e, pid, PENDING)
  {
    var m := Recorded(l, w, pid);
    forall e | e in w ensures m[e.Id()] == RecordOf(e, pid, PENDING) {
      if e.Id() in l {
        assert Genuine(cat, l, e.Id());
        EventByIdUnique(cat[pid], e);
      } else {
        var f := EventById(w, e.Id());
        SameId(cat[pid], e, f);
      }
    }
    forall id ensures IsPending(m, id) <==> id in Ids(w) {
      if id in Ids(w) {
        var e :| e in w && e.Id() == id;
      }
    }
  }

  lemma RecordedProvenance(cat: Catalogue, l: Ledger, pid: string, w: seq<Event>)
    requires WellFormed(cat) && LedgerInv(cat, l) && ReadyWave(cat, l, pid, w)
    ensures Provenance(cat, Recorded(l, w, pid))
    ensures forall id | id in l ::
      (Genuine(cat, l, id) && Genuine(cat, Recorded(l, w, pid), id)
       && EventOf(cat, Recorded(l, w, pid), id) == EventOf(cat, l, id))
  {
    var m := Recorded(l, w, pid);
    RecordedFacts(cat, l, pid, w);
    forall id | id in m ensures Genuine(cat, m, id) {
      if id in Ids(w) {
        var e :| e in w && e.Id() == id;
        EventByIdUnique(cat[pid], e);
        assert e.Id() in Ids(cat[pid]);
      } else {
        assert Genuine(cat, l, id);
      }
    }
  }

  lemma RecordedSettled(cat: Catalogue, l: Ledger, pid: string, w: seq<Event>, e: Event)
    requires WellFormed(cat) && LedgerInv(cat, l) && ReadyWave(cat, l, pid, w)
    requires e in cat[pid] && WaveLe(e.Wave(), w[0].Wave())
    ensures Settled(Recorded(l, w, pid), e)
  {
    RecordedFacts(cat, l, pid, w);
    if e !in w {
      SettledMonotone(l, Recorded(l, w, pid), e);
    }
  }

  /** A PENDING id belongs to an event of the wave, recorded as that event. */
  lemma PendingIsInWave(cat: Catalogue, l: Ledger, pid: string, w: seq<Event>, id: string) returns (e: Event)
    requires WavePending(cat, l, pid, w) && IsPending(l, id)
    ensures e in w && e.Id() == id && l[id] == RecordOf(e, pid, PENDING) && l[id].Wave() == w[0].Wave()
  {
    e :| e in w && e.Id() == id;
  }

  lemma RecordedAbove(cat: Catalogue, l: Ledger, pid: string, w: seq<Event>, e: Event, a: string)
    requires WellFormed(cat) && LedgerInv(cat, l) && ReadyWave(cat, l, pid, w)
    requires e in w && AppliedTo(Recorded(l, w, pid), e.Entity(), a)
    ensures AppliedTo(l, e.Entity(), a) && Recorded(l, w, pid)[a].sequence < e.Sequence()
  {
    hide Change.PkValue, WellFormed, Provenance;
    assert a in l && Recorded(l, w, pid)[a] == l[a] by {
      RecordedFacts(cat, l, pid, w);
      assert IsApplied(l, a);
    }
  }

  lemma RecordedOwn(cat: Catalogue, l: Ledger, pid: string, w: seq<Event>, e: Event)
    requires WellFormed(cat) && LedgerInv(cat, l) && ReadyWave(cat, l, pid, w) && e in w
    ensures e.Id() in Recorded(l, w, pid) && Recorded(l, w, pid)[e.Id()] == RecordOf(e, pid, PENDING)
  {
    RecordedFacts(cat, l, pid, w);
  }

  lemma RecordedWavePending(cat: Catalogue, l: Ledger, pid: string, w: seq<Event>)
    requires WellFormed(cat) && LedgerInv(cat, l) && ReadyWave(cat, l, pid, w)
    ensures WavePending(cat, Recorded(l, w, pid), pid, w)
  {
    var m := Recorded(l, w, pid);
    forall e, a | e in w && AppliedTo(m, e.Entity(), a) ensures m[a].sequence < e.Sequence() {
      RecordedAbove(cat, l, pid, w, e, a);
    }
    forall e | e in cat[pid] && WaveLe(e.Wave(), w[0].Wave()) ensures Settled(m, e) {
      RecordedSettled(cat, l, pid, w, e);
    }
    forall e | e in w ensures e.Id() in m && m[e.Id()] == RecordOf(e, pid, PENDING) {
      RecordedOwn(cat, l, pid, w, e);
    }
    forall id | IsPending(m, id) ensures id in Ids(w) {
      RecordedFacts(cat, l, pid, w);
    }
  }

  lemma RecordedLedgerInv(cat: Catalogue, l: Ledger, pid: string, w: seq<Event>)
    requires WellFormed(cat) && LedgerInv(cat, l) && ReadyWave(cat, l, pid, w)
    ensures LedgerInv(cat, Recorded(l, w, pid)) && WavePending(cat, Recorded(l, w, pid), pid, w)
  {
    var m := Recorded(l, w, pid);
    RecordedFacts(cat, l, pid, w);
    RecordedProvenance(cat, l, pid, w);
    RecordedWavePending(cat, l, pid, w);
    assert OnePendingWave(m) by {
      forall a, b | IsPending(m, a) && IsPending(m, b)
        ensures m[a].processingId == m[b].processingId && m[a].Wave() == m[b].Wave()
      {
        var e := PendingIsInWave(cat, m, pid, w, a);
        var f := PendingIsInWave(cat, m, pid, w, b);
      }
    }
    assert PendingAboveApplied(m) by {
      forall p, a | IsPending(m, p) && AppliedTo(m, m[p].entity, a) ensures m[a].sequence < m[p].sequence {
        var e := PendingIsInWave(cat, m, pid, w, p);
        assert AppliedTo(l, e.Entity(), a);
      }
    }
    assert AppliedDistinct(m) by {
      forall a, b | IsApplied(m, a) && AppliedTo(m, m[a].entity, b) && a != b ensures m[a].sequence != m[b].sequence {
        assert AppliedTo(l, l[a].entity, b);
      }
    }
    assert EarlierSettled(cat, m) by {
      forall p, e | IsPending(m, p) && e in cat[m[p].processingId] && WaveLe(e.Wave(), m[p].Wave())
        ensures Settled(m, e)
      {
        var f := PendingIsInWave(cat, m, pid, w, p);
        RecordedSettled(cat, l, pid, w, e);
      }
    }
  }

  /** What explains a row keeps explaining it while the applied records at its key stay the same. */
  lemma ShownStable(cat: Catalogue, l: Ledger, m: Ledger, snap: Target, k: RowKey, v: Option<Row>)
    requires Provenance(cat, l) && Provenance(cat, m)
    requires forall id :: AppliedAt(cat, m, k, id) <==> AppliedAt(cat, l, k, id)
    requires forall id :: AppliedAt(cat, l, k, id) ==> id in m && m[id] == l[id]
    requires Shown(cat, l, snap, k, v)
    ensures Shown(cat, m, snap, k, v)
  {
    if id :| Latest(cat, l, k, id) && v == EffectOf(cat, l, id) {
      assert AppliedAt(cat, m, k, id);
      assert Latest(cat, m, k, id);
    }
  }

  /** PENDING records explain no row differently. */
  lemma RecordedExplains(cat: Catalogue, l: Ledger, snap: Target, pid: string, w: seq<Event>, k: RowKey, v: Option<Row>)
    requires WellFormed(cat) && LedgerInv(cat, l) && ReadyWave(cat, l, pid, w) && Provenance(cat, Recorded(l, w, pid))
    requires Shown(cat, l, snap, k, v) || InFlight(cat, l, k, v)
    ensures Shown(cat, Recorded(l, w, pid), snap, k, v) || InFlight(cat, Recorded(l, w, pid), k, v)
  {
    hide Change.PkValue, RowOf, WellFormed, OnePendingWave, EarlierSettled;
    var m := Recorded(l, w, pid);
    RecordedFacts(cat, l, pid, w);
    if Shown(cat, l, snap, k, v) {
      forall id ensures AppliedAt(cat, m, k, id) <==> AppliedAt(cat, l, k, id) {
        assert IsApplied(m, id) <==> IsApplied(l, id);
      }
      ShownStable(cat, l, m, snap, k, v);
    } else {
      var id :| PendingAt(cat, l, k, id) && v == EffectOf(cat, l, id);
      assert PendingAt(cat, m, k, id);
    }
  }

  lemma RecordedTargetInv(cat: Catalogue, snap: Target, s: Store, pid: string, w: seq<Event>)
    requires WellFormed(cat) && Inv(cat, snap, s) && ReadyWave(cat, s.ledger, pid, w)
    ensures Inv(cat, snap, s.(ledger := Recorded(s.ledger, w, pid)))
    ensures WavePending(cat, Recorded(s.ledger, w, pid), pid, w)
  {
    RecordedLedgerInv(cat, s.ledger, pid, w);
    forall k ensures Shown(cat, Recorded(s.ledger, w, pid), snap, k, Lookup(s.target, k))
                     || InFlight(cat, Recorded(s.ledger, w, pid), k, Lookup(s.target, k)) {
      RecordedExplains(cat, s.ledger, snap, pid, w, k, Lookup(s.target, k));
    }
    hide Recorded, WavePending, Shown, InFlight, WellFormed, ReadyWave;
  }

  // ---- Phase B: target commits ----

  /** Any target that changes only keys of pending, recognised events, and to their effects, is explained. */
  lemma PendingEffectsAllowed(cat: Catalogue, snap: Target, s: Store, t: Target)
    requires WellFormed(cat) && Inv(cat, snap, s)
    requires forall k :: Lookup(t, k) == Lookup(s.target, k) || InFlight(cat, s.ledger, k, Lookup(t, k))
    ensures Inv(cat, snap, s.(target := t))
  {}

  lemma WaveEventPendingAt(cat: Catalogue, l: Ledger, pid: string, w: seq<Event>, e: Event)
    requires WellFormed(cat) && LedgerInv(cat, l) && WavePending(cat, l, pid, w) && e in w
    ensures IsPending(l, e.Id()) && EventOf(cat, l, e.Id()) == e && EffectOf(cat, l, e.Id()) == Effect(e, pid)
    ensures e.change.Recognised() ==> InFlight(cat, l, e.Key(), Effect(e, pid))
  {
    EventByIdUnique(cat[pid], e);
    if e.change.Recognised() {
      assert PendingAt(cat, l, e.Key(), e.Id());
    }
  }

  lemma UpsertedInv(cat: Catalogue, snap: Target, s: Store, pid: string, w: seq<Event>)
    requires WellFormed(cat) && Inv(cat, snap, s) && WavePending(cat, s.ledger, pid, w)
    ensures Inv(cat, snap, s.(target := Upserted(s.target, UpsertsIn(w), pid)))
  {
    var t := Upserted(s.target, UpsertsIn(w), pid);
    forall k ensures Lookup(t, k) == Lookup(s.target, k) || InFlight(cat, s.ledger, k, Lookup(t, k)) {
      if k in Keys(UpsertsIn(w)) {
        WaveEventPendingAt(cat, s.ledger, pid, w, EventByKey(UpsertsIn(w), k));
      }
    }
    PendingEffectsAllowed(cat, snap, s, t);
  }

  lemma DeletedInv(cat: Catalogue, snap: Target, s: Store, pid: string, w: seq<Event>)
    requires WellFormed(cat) && Inv(cat, snap, s) && WavePending(cat, s.ledger, pid, w)
    ensures Inv(cat, snap, s.(target := Deleted(s.target, DeletesIn(w), pid, HARD)))
  {
    var t := Deleted(s.target, DeletesIn(w), pid, HARD);
    assert LedgerInv(cat, s.ledger);
    hide Inv, LedgerInv, WellFormed, WavePending, Shown, InFlight, Change.PkValue, Change.Key;
    forall k ensures Lookup(t, k) == Lookup(s.target, k) || InFlight(cat, s.ledger, k, Lookup(t, k)) {
      if k in Keys(DeletesIn(w)) {
        WaveEventPendingAt(cat, s.ledger, pid, w, EventByKey(DeletesIn(w), k));
      }
    }
    PendingEffectsAllowed(cat, snap, s, t);
  }

  /** The target after both commits of a wave. */
  function Mutated(t: Target, w: seq<Event>, pid: string, policy: DeletePolicy): Target {
    Deleted(Upserted(t, UpsertsIn(w), pid), DeletesIn(w), pid, policy)
  }

  ghost predicate OneEventEach(w: seq<Event>) {
    forall e, f :: e in w && f in w && e.Key() == f.Key() ==> e == f
  }

  lemma WaveOneEventEach(cat: Catalogue, l: Ledger, pid: string, w: seq<Event>)
    requires WellFormed(cat) && ReadyWave(cat, l, pid, w)
    ensures OneEventEach(w)
  {
    forall e, f | e in w && f in w && e.Key() == f.Key() ensures e == f {
      OneEventPerKey(cat, pid, e, f);
    }
  }

  /** A wave takes effect exactly at the keys of its recognised events. */
  lemma MutatedAt(t: Target, w: seq<Event>, pid: string, k: RowKey)
    requires OneEventEach(w)
    ensures forall e :: e in w && e.Key() == k && e.change.Recognised() ==>
      Lookup(Mutated(t, w, pid, HARD), k) == Effect(e, pid)
    ensures (forall e :: e in w && e.Key() == k ==> !e.change.Recognised()) ==>
      Lookup(Mutated(t, w, pid, HARD), k) == Lookup(t, k)
  {
    if k in Keys(UpsertsIn(w)) {
      var u := EventByKey(UpsertsIn(w), k);
      assert u in w;
    }
    if k in Keys(DeletesIn(w)) {
      var d := EventByKey(DeletesIn(w), k);
      assert d in w;
    }
    forall e | e in w && e.Key() == k && e.change.Recognised()
      ensures Lookup(Mutated(t, w, pid, HARD), k) == Effect(e, pid)
    {
      assert e.change.Upserts() ==> e in UpsertsIn(w);
      assert e.change.Deletes() ==> e in DeletesIn(w);
    }
  }

  // ---- Phase C: APPLIED ----

  lemma MarkedFacts(cat: Catalogue, l: Ledger, pid: string, w: seq<Event>)
    requires WavePending(cat, l, pid, w)
    ensures var m := Marked(l, Ids(w)); Advances(l, m) && NoPending(m)
    ensures forall id :: IsApplied(Marked(l, Ids(w)), id) <==> IsApplied(l, id) || id in Ids(w)
    ensures forall e :: e in w ==> Marked(l, Ids(w))[e.Id()] == RecordOf(e, pid, APPLIED)
  {
    forall id | id in Ids(w) ensures IsPending(l, id) {
      var e :| e in w && e.Id() == id;
    }
  }

  lemma MarkedProvenance(cat: Catalogue, l: Ledger, pid: string, w: seq<Event>)
    requires LedgerInv(cat, l) && WavePending(cat, l, pid, w)
    ensures Provenance(cat, Marked(l, Ids(w)))
    ensures forall id | id in l ::
      (Genuine(cat, l, id) && Genuine(cat, Marked(l, Ids(w)), id)
       && EventOf(cat, Marked(l, Ids(w)), id) == EventOf(cat, l, id))
  {
    hide Change.PkValue, WaveLe, Settled, OnePendingWave, PendingAboveApplied, AppliedDistinct, EarlierSettled;
    forall id | id in l ensures Genuine(cat, l, id) && Genuine(cat, Marked(l, Ids(w)), id) {}
  }

  /** Two events of one wave never share entity and sequence. */
  lemma OneSlotEach(cat: Catalogue, l: Ledger, pid: string, w: seq<Event>, a: string, b: string)
    requires WellFormed(cat) && LedgerInv(cat, l) && WavePending(cat, l, pid, w)
    requires a in Ids(w) && b in Ids(w) && l[a].entity == l[b].entity && l[a].sequence == l[b].sequence
    ensures a == b
  {
    var e :| e in w && e.Id() == a;
    var f :| f in w && f.Id() == b;
    SameEntitySequence(cat[pid], e, f);
  }

  lemma MarkedAppliedDistinct(cat: Catalogue, l: Ledger, pid: string, w: seq<Event>, a: string, b: string)
    requires WellFormed(cat) && LedgerInv(cat, l) && WavePending(cat, l, pid, w) && a != b
    requires IsApplied(Marked(l, Ids(w)), a) && AppliedTo(Marked(l, Ids(w)), Marked(l, Ids(w))[a].entity, b)
    ensures l[a].sequence != l[b].sequence
  {
    hide Change.PkValue, Genuine;
    if a !in Ids(w) && b !in Ids(w) {
      assert AppliedTo(l, l[a].entity, b);
    } else if b !in Ids(w) {
      var e :| e in w && e.Id() == a;
      assert AppliedTo(l, e.Entity(), b);
    } else if a !in Ids(w) {
      var e :| e in w && e.Id() == b;
      assert AppliedTo(l, e.Entity(), a);
    } else {
      OneSlotEach(cat, l, pid, w, a, b);
    }
  }

  lemma MarkedLedgerInv(cat: Catalogue, l: Ledger, pid: string, w: seq<Event>)
    requires WellFormed(cat) && LedgerInv(cat, l) && WavePending(cat, l, pid, w)
    ensures LedgerInv(cat, Marked(l, Ids(w)))
  {
    var m := Marked(l, Ids(w));
    MarkedFacts(cat, l, pid, w);
    MarkedProvenance(cat, l, pid, w);
    forall a, b | IsApplied(m, a) && AppliedTo(m, m[a].entity, b) && a != b ensures m[a].sequence != m[b].sequence {
      MarkedAppliedDistinct(cat, l, pid, w, a, b);
    }
  }

  lemma AppliedBelowWave(cat: Catalogue, l: Ledger, pid: string, w: seq<Event>, e: Event, other: string)
    requires WellFormed(cat) && LedgerInv(cat, l) && WavePending(cat, l, pid, w)
    requires e in w && AppliedAt(cat, l, e.Key(), other)
    ensures l[other].sequence < e.Sequence()
  {
    var f := EventOf(cat, l, other);
    InAll(cat, pid, e);
    InAll(cat, l[other].processingId, f);
    assert Agree(e, f);
    assert AppliedTo(l, e.Entity(), other);
  }

  /** The latest applied event at a key of the wave is now the wave's. */
  lemma MarkedLatest(cat: Catalogue, l: Ledger, pid: string, w: seq<Event>, e: Event)
    requires WellFormed(cat) && LedgerInv(cat, l) && WavePending(cat, l, pid, w)
    requires Provenance(cat, Marked(l, Ids(w)))
    requires e in w && e.change.Recognised()
    ensures Latest(cat, Marked(l, Ids(w)), e.Key(), e.Id())
    ensures EffectOf(cat, Marked(l, Ids(w)), e.Id()) == Effect(e, pid)
  {
    hide Change.PkValue, Genuine, WellFormed;
    var m := Marked(l, Ids(w));
    MarkedFacts(cat, l, pid, w);
    MarkedProvenance(cat, l, pid, w);
    WaveEventPendingAt(cat, l, pid, w, e);
    assert e.Id() in Ids(w);
    assert AppliedAt(cat, m, e.Key(), e.Id());
    forall other | AppliedAt(cat, m, e.Key(), other) ensures m[other].sequence <= e.Sequence() {
      if other in Ids(w) {
        var g :| g in w && g.Id() == other;
      } else {
        AppliedBelowWave(cat, l, pid, w, e, other);
      }
    }
  }

  /** Nothing of the wave concerns a key at which it has no recognised event. */
  lemma ElsewhereUntouched(cat: Catalogue, l: Ledger, pid: string, w: seq<Event>, k: RowKey, id: string)
    requires WellFormed(cat) && LedgerInv(cat, l) && WavePending(cat, l, pid, w)
    requires Provenance(cat, Marked(l, Ids(w)))
    requires forall e :: e in w && e.Key() == k ==> !e.change.Recognised()
    ensures !PendingAt(cat, l, k, id)
    ensures AppliedAt(cat, Marked(l, Ids(w)), k, id) <==> AppliedAt(cat, l, k, id)
  {
    hide Change.PkValue, RowOf, Change.Key, OnePendingWave, EarlierSettled, PendingAboveApplied, AppliedDistinct;
    MarkedFacts(cat, l, pid, w);
    MarkedProvenance(cat, l, pid, w);
    if id in Ids(w) {
      var f :| f in w && f.Id() == id;
      WaveEventPendingAt(cat, l, pid, w, f);
    } else {
      assert !IsPending(l, id);
    }
  }

  lemma MarkedElsewhere(cat: Catalogue, snap: Target, s: Store, pid: string, w: seq<Event>, k: RowKey)
    requires WellFormed(cat) && Inv(cat, snap, s) && WavePending(cat, s.ledger, pid, w)
    requires Provenance(cat, Marked(s.ledger, Ids(w)))
    requires forall e :: e in w && e.Key() == k ==> !e.change.Recognised()
    ensures Shown(cat, Marked(s.ledger, Ids(w)), snap, k, Lookup(s.target, k))
  {
    var l, m := s.ledger, Marked(s.ledger, Ids(w));
    forall id
      ensures !PendingAt(cat, l, k, id)
      ensures AppliedAt(cat, m, k, id) <==> AppliedAt(cat, l, k, id)
    {
      ElsewhereUntouched(cat, l, pid, w, k, id);
    }
    assert Shown(cat, l, snap, k, Lookup(s.target, k));
    ShownStable(cat, l, m, snap, k, Lookup(s.target, k));
  }

  lemma MarkedInv(cat: Catalogue, snap: Target, s: Store, pid: string, w: seq<Event>)
    requires WellFormed(cat) && Inv(cat, snap, s) && WavePending(cat, s.ledger, pid, w)
    requires forall e :: e in w && e.change.Recognised() ==> Lookup(s.target, e.Key()) == Effect(e, pid)
    ensures Inv(cat, snap, s.(ledger := Marked(s.ledger, Ids(w))))
  {
    MarkedLedgerInv(cat, s.ledger, pid, w);
    forall k ensures Shown(cat, Marked(s.ledger, Ids(w)), snap, k, Lookup(s.target, k)) {
      if e :| e in w && e.Key() == k && e.change.Recognised() {
        MarkedLatest(cat, s.ledger, pid, w, e);
      } else {
        MarkedElsewhere(cat, snap, s, pid, w, k);
      }
    }
  }
}
