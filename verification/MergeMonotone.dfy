/** When a target row moves to a lower sequence number: never over a history of the same event lists, and exactly when
    an acted-on event asks for it in general (src/merge/pipeline.py:115-283, merge_engine.py:70-157). */
module MergeMonotone {
  import opened Cdc
  import opened Ordering
  import opened MergeSpec
  import opened MergeInvariant
  import opened MergeWave
  import opened MergeRun
  import opened MergeDecide
  import opened MergeTheorems
  import opened MergeHistory

  // ---- Histories that continue ----

  lemma {:induction false} AfterLedgerInv(cat: Catalogue, s: Store, policy: DeletePolicy, history: seq<Attempt>)
    requires WellFormed(cat) && LedgerInv(cat, s.ledger) && Submits(cat, history)
    ensures LedgerInv(cat, After(cat, s, policy, history).ledger)
  {
    if history != [] {
      var init, last := history[..|history| - 1], history[|history| - 1];
      AfterLedgerInv(cat, s, policy, init);
      AttemptLedgerInv(cat, After(cat, s, policy, init), last.pid, policy, last.survives);
    }
  }

  // ---- A row in flight stays in flight until its event is applied ----

  lemma WaveKeepsInFlight(s: Store, x: Store, w: seq<Event>, pid: string, e: Event)
    requires OneEventEach(w) && e in w && e.change.Recognised() && Lookup(s.target, e.Key()) == Effect(e, pid)
    requires || x == s || x == WithPending(s, w, pid) || x == WithUpserts(s, w, pid) || x == WithTarget(s, w, pid, HARD)
             || x == WaveDone(s, w, pid, HARD)
    ensures Lookup(x.target, e.Key()) == Effect(e, pid)
  {
    hide Change.PkValue, RowOf, Recorded, Marked;
    MutatedLookup(s.target, w, pid, HARD, e.Key());
    MutatedAt(s.target, w, pid, e.Key());
  }

  lemma FirstWaveOwner(cat: Catalogue, l: Ledger, pid: string, ws: seq<seq<Event>>, p: string) returns (e: Event)
    requires WellFormed(cat) && LedgerInv(cat, l) && Ready(cat, l, pid, ws) && IsPending(l, p)
    ensures ws != [] && e in ws[0] && e.Id() == p && e in cat[pid] && l[p].processingId == pid
  {
    e :| e in ws[0] && e.Id() == p;
    hide WellFormed, LedgerInv;
    assert InSome(ws, e);
  }

  /** A PENDING record is that of an event in the run's first wave. */
  lemma PendingOwner(cat: Catalogue, l: Ledger, pid: string, t: Triage, p: string) returns (e: Event)
    requires WellFormed(cat) && LedgerInv(cat, l) && pid in cat && Decide(l, pid, cat[pid]) == Ok(t) && IsPending(l, p)
    ensures var ws := Waves(t.Actionable()); ws != [] && OneEventEach(ws[0]) && e in ws[0] && e.Id() == p
    ensures EventOf(cat, l, p) == e && l[p].processingId == pid
  {
    var ws: seq<seq<Event>> := Waves(t.Actionable());
    DecideReady(cat, l, pid, t);
    e := FirstWaveOwner(cat, l, pid, ws, p);
    EventByIdUnique(cat[pid], e);
    assert Provenance(cat, l);
    hide WellFormed, LedgerInv, Ready, Waves, Decide, Change.PkValue;
    ReadyFirst(cat, l, pid, ws);
    WaveOneEventEach(cat, l, pid, ws[0]);
  }

  lemma DoneMarks(s: Store, w: seq<Event>, pid: string, cs: seq<Commit>, p: string)
    requires p in Ids(w)
    ensures IsApplied(ApplyAll(WaveDone(s, w, pid, HARD), cs).ledger, p)
  {
    CommitsAdvance(WaveDone(s, w, pid, HARD), cs);
  }

  lemma PlanKeepsInFlight(s: Store, ws: seq<seq<Event>>, pid: string, m: nat, e: Event)
    requires ws != [] && m <= |Plan(ws, pid, HARD)| && OneEventEach(ws[0]) && e in ws[0] && e.change.Recognised()
    requires Lookup(s.target, e.Key()) == Effect(e, pid)
    ensures var x := ApplyAll(s, Plan(ws, pid, HARD)[..m]);
      IsApplied(x.ledger, e.Id()) || Lookup(x.target, e.Key()) == Effect(e, pid)
  {
    hide Change.PkValue, Change.Key, RowOf, WaveCommits, Plan, OneEventEach;
    PlanStep(s, ws, pid, HARD, m);
    var size := |WaveCommits(ws[0], pid, HARD)|;
    if m <= size {
      WaveReach(s, ws[0], pid, HARD, m);
      WaveKeepsInFlight(s, ApplyAll(s, WaveCommits(ws[0], pid, HARD)[..m]), ws[0], pid, e);
    } else {
      DoneMarks(s, ws[0], pid, Plan(ws[1..], pid, HARD)[..m - size], e.Id());
    }
  }

  lemma AttemptKeepsInFlight(cat: Catalogue, s: Store, pid: string, n: nat, k: RowKey, p: string)
    requires WellFormed(cat) && LedgerInv(cat, s.ledger) && pid in cat
    requires PendingAt(cat, s.ledger, k, p) && Lookup(s.target, k) == EffectOf(cat, s.ledger, p)
    ensures var x := Attempted(s, pid, cat[pid], HARD, n);
      IsApplied(x.ledger, p) || Lookup(x.target, k) == Lookup(s.target, k)
  {
    if Decide(s.ledger, pid, cat[pid]).Ok? {
      var t := Decide(s.ledger, pid, cat[pid]).value;
      var ws: seq<seq<Event>> := Waves(t.Actionable());
      var e := PendingOwner(cat, s.ledger, pid, t, p);
      var m := PrefixIs(Plan(ws, pid, HARD), n);
      assert Attempted(s, pid, cat[pid], HARD, n) == ApplyAll(s, Plan(ws, pid, HARD)[..m]);
      assert e.Key() == k && e.change.Recognised() && EffectOf(cat, s.ledger, p) == Effect(e, pid);
      hide Waves, LedgerInv, WellFormed, Decide, Plan, Attempted, RowOf, Change.PkValue, Change.Key;
      PlanKeepsInFlight(s, ws, pid, m, e);
    }
  }

  /** A record that is still PENDING explains what it explained. */
  lemma StillPending(cat: Catalogue, l: Ledger, m: Ledger, k: RowKey, p: string)
    requires Provenance(cat, l) && Provenance(cat, m) && Advances(l, m) && PendingAt(cat, l, k, p)
    ensures p in m && EventOf(cat, m, p) == EventOf(cat, l, p) && m[p].processingId == l[p].processingId
    ensures IsApplied(m, p) || PendingAt(cat, m, k, p)
    ensures IsApplied(m, p) ==> AppliedAt(cat, m, k, p)
    ensures EffectOf(cat, m, p) == EffectOf(cat, l, p)
  {
    hide Change.PkValue, RowOf;
    assert Genuine(cat, l, p) && Genuine(cat, m, p);
  }

  lemma {:induction false} InFlightUntilApplied(cat: Catalogue, s: Store, history: seq<Attempt>, k: RowKey, p: string)
    requires WellFormed(cat) && LedgerInv(cat, s.ledger) && Submits(cat, history)
    requires PendingAt(cat, s.ledger, k, p) && Lookup(s.target, k) == EffectOf(cat, s.ledger, p)
    ensures var y := After(cat, s, HARD, history);
      IsApplied(y.ledger, p) || Lookup(y.target, k) == Lookup(s.target, k)
  {
    hide Change.PkValue, WellFormed, PendingAt, Genuine, Attempted;
    if history != [] {
      var init, last := history[..|history| - 1], history[|history| - 1];
      var y := After(cat, s, HARD, init);
      InFlightUntilApplied(cat, s, init, k, p);
      LedgerOnlyAdvances(cat, s, HARD, init);
      AfterLedgerInv(cat, s, HARD, init);
      StillPending(cat, s.ledger, y.ledger, k, p);
      AttemptKeepsApplied(y, last, cat[last.pid], p);
      if !IsApplied(y.ledger, p) {
        AttemptKeepsInFlight(cat, y, last.pid, last.survives, k, p);
      }
    }
  }

  lemma AttemptKeepsApplied(s: Store, a: Attempt, es: seq<Event>, p: string)
    ensures IsApplied(s.ledger, p) ==> IsApplied(Attempted(s, a.pid, es, HARD, a.survives).ledger, p)
  {
    CommitsAdvance(s, Prefix(Commits(s.ledger, a.pid, es, HARD), a.survives));
  }

  // ---- Rows never move backwards ----

  /** No event at the key is below the snapshot row. */
  ghost predicate SnapshotBelow(cat: Catalogue, snap: Target, k: RowKey) {
    k in snap ==> forall e :: e in All(cat) && e.Key() == k ==> snap[k].sequence <= e.Sequence()
  }

  lemma EffectSequence(cat: Catalogue, l: Ledger, id: string, v: Option<Row>)
    requires Provenance(cat, l) && id in l && v == EffectOf(cat, l, id) && v.Some?
    ensures v.value.sequence == l[id].sequence == EventOf(cat, l, id).Sequence() && EventOf(cat, l, id) in All(cat)
  {
    hide DeltaImage, Change.PkValue;
    assert Genuine(cat, l, id);
    InAll(cat, l[id].processingId, EventOf(cat, l, id));
  }

  lemma InvExplains(cat: Catalogue, snap: Target, x: Store, k: RowKey)
    requires Inv(cat, snap, x)
    ensures Provenance(cat, x.ledger)
    ensures Shown(cat, x.ledger, snap, k, Lookup(x.target, k)) || InFlight(cat, x.ledger, k, Lookup(x.target, k))
  {
    hide Shown, InFlight, Genuine;
  }

  /** A row never lies below an event applied at its key. */
  lemma AppliedIsFloor(cat: Catalogue, snap: Target, y: Store, k: RowKey, id: string)
    requires WellFormed(cat) && Inv(cat, snap, y) && AppliedAt(cat, y.ledger, k, id) && k in y.target
    ensures y.ledger[id].sequence <= y.target[k].sequence
  {
    hide Change.PkValue, Change.Key, WaveLe, OnePendingWave, EarlierSettled, RowOf;
    var l, v := y.ledger, Lookup(y.target, k);
    assert Shown(cat, l, snap, k, v) || InFlight(cat, l, k, v);
    if InFlight(cat, l, k, v) {
      var p :| PendingAt(cat, l, k, p) && v == EffectOf(cat, l, p);
      EffectSequence(cat, l, p, v);
      SameKeySameEntity(cat, l, p, id);
    } else {
      var a :| Latest(cat, l, k, a) && v == EffectOf(cat, l, a);
      EffectSequence(cat, l, a, v);
    }
  }

  lemma SnapshotIsFloor(cat: Catalogue, snap: Target, y: Store, k: RowKey)
    requires Inv(cat, snap, y) && SnapshotBelow(cat, snap, k) && k in snap && k in y.target
    ensures snap[k].sequence <= y.target[k].sequence
  {
    hide Change.PkValue, Change.Key, RowOf, LedgerInv, Inv;
    var l, v := y.ledger, Lookup(y.target, k);
    InvExplains(cat, snap, y, k);
    if v != Lookup(snap, k) {
      var id := Explainer(cat, l, snap, k, v);
      EffectSequence(cat, l, id, v);
    }
  }

  /** The event that explains a row which is not the snapshot's. */
  lemma Explainer(cat: Catalogue, l: Ledger, snap: Target, k: RowKey, v: Option<Row>) returns (id: string)
    requires Provenance(cat, l) && (Shown(cat, l, snap, k, v) || InFlight(cat, l, k, v)) && v != Lookup(snap, k)
    ensures id in l && EventOf(cat, l, id).Key() == k && v == EffectOf(cat, l, id)
    ensures AppliedAt(cat, l, k, id) || PendingAt(cat, l, k, id)
  {
    hide Change.PkValue, RowOf;
    if InFlight(cat, l, k, v) {
      id :| PendingAt(cat, l, k, id) && v == EffectOf(cat, l, id);
    } else {
      id :| Latest(cat, l, k, id) && v == EffectOf(cat, l, id);
    }
  }

  lemma AppliedStaysAt(cat: Catalogue, l: Ledger, m: Ledger, k: RowKey, id: string)
    requires Provenance(cat, l) && Provenance(cat, m) && Advances(l, m) && AppliedAt(cat, l, k, id)
    ensures AppliedAt(cat, m, k, id) && m[id] == l[id]
  {
    hide Change.PkValue;
  }

  /** Of two stores on one path, the later one's row is not below the earlier one's. */
  lemma LaterRowNotBelow(cat: Catalogue, snap: Target, x: Store, y: Store, k: RowKey)
    requires WellFormed(cat) && Inv(cat, snap, x) && Inv(cat, snap, y) && Advances(x.ledger, y.ledger)
    requires SnapshotBelow(cat, snap, k) && k in x.target && k in y.target
    requires Provenance(cat, x.ledger)
    requires forall p :: PendingAt(cat, x.ledger, k, p) && Lookup(x.target, k) == EffectOf(cat, x.ledger, p) ==>
      IsApplied(y.ledger, p) || Lookup(y.target, k) == Lookup(x.target, k)
    ensures x.target[k].sequence <= y.target[k].sequence
  {
    hide Inv, WellFormed, SnapshotBelow, Genuine, AppliedAt, PendingAt, Shown, InFlight, RowOf, Change.Key;
    var v := Lookup(x.target, k);
    InvExplains(cat, snap, x, k);
    InvExplains(cat, snap, y, k);
    if v == Lookup(snap, k) {
      SnapshotIsFloor(cat, snap, y, k);
    } else {
      var id := Explainer(cat, x.ledger, snap, k, v);
      EffectSequence(cat, x.ledger, id, v);
      if AppliedAt(cat, x.ledger, k, id) {
        AppliedStaysAt(cat, x.ledger, y.ledger, k, id);
        AppliedIsFloor(cat, snap, y, k, id);
      } else {
        StillPending(cat, x.ledger, y.ledger, k, id);
        if IsApplied(y.ledger, id) {
          AppliedIsFloor(cat, snap, y, k, id);
        }
      }
    }
  }

  /** Rows never move backwards: if the key holds a row at two points of one history, mid-crash or not and however often
      it was deleted in between, the later row's sequence is not below the earlier one's. */
  lemma RowsNeverMoveBackwards(cat: Catalogue, snap: Target, history: seq<Attempt>, more: seq<Attempt>, k: RowKey)
    requires WellFormed(cat) && Submits(cat, history) && Submits(cat, more) && Submits(cat, history + more)
    requires SnapshotBelow(cat, snap, k)
    requires k in After(cat, Initial(snap), HARD, history).target
    requires k in After(cat, Initial(snap), HARD, history + more).target
    ensures After(cat, Initial(snap), HARD, history).target[k].sequence
            <= After(cat, Initial(snap), HARD, history + more).target[k].sequence
  {
    var x, y := After(cat, Initial(snap), HARD, history), After(cat, Initial(snap), HARD, history + more);
    AfterConcat(cat, Initial(snap), HARD, history, more);
    ReachableInv(cat, snap, history);
    ReachableInv(cat, snap, history + more);
    LedgerOnlyAdvances(cat, x, HARD, more);
    assert Provenance(cat, x.ledger);
    hide After, WellFormed, SnapshotBelow, Genuine, Inv;
    forall p | PendingAt(cat, x.ledger, k, p) && Lookup(x.target, k) == EffectOf(cat, x.ledger, p)
      ensures IsApplied(y.ledger, p) || Lookup(y.target, k) == Lookup(x.target, k)
    {
      InFlightUntilApplied(cat, x, more, k, p);
    }
    LaterRowNotBelow(cat, snap, x, y, k);
  }

  // ---- Which run lowers a row, whatever it is given ----

  /** The events whose sequence number the commit writes into rows. */
  function Writers(c: Commit): seq<Event> {
    match c
    case MergeUpserts(es, _) => es
    case MergeDeletes(es, _, SOFT) => es
    case _ => []
  }

  predicate Rewrites(e: Event, policy: DeletePolicy) { e.change.Upserts() || (policy == SOFT && e.change.Deletes()) }

  ghost predicate WrittenBy(cs: seq<Commit>, k: RowKey, q: int) {
    exists c, e :: c in cs && e in Writers(c) && e.Key() == k && e.Sequence() == q
  }

  lemma CommitRowFrom(s: Store, c: Commit, k: RowKey)
    requires k in Apply(s, c).target
    ensures (k in s.target && s.target[k].sequence == Apply(s, c).target[k].sequence)
            || exists e :: e in Writers(c) && e.Key() == k && e.Sequence() == Apply(s, c).target[k].sequence
  {
    hide Change.PkValue, DeltaImage, Recorded, Marked;
    match c
    case MergeUpserts(es, pid) =>
      if k in Keys(es) {
        assert EventByKey(es, k) in Writers(c);
      }
    case MergeDeletes(es, pid, policy) =>
      if k in Keys(es) && policy == SOFT {
        assert EventByKey(es, k) in Writers(c);
      }
    case RecordPending(_, _) =>
    case MarkApplied(_) =>
  }

  /** Every row's sequence number was there before or was written by one of the commits. */
  lemma {:induction false} CommitsRowFrom(s: Store, cs: seq<Commit>, k: RowKey)
    requires k in ApplyAll(s, cs).target
    ensures (k in s.target && s.target[k].sequence == ApplyAll(s, cs).target[k].sequence)
            || WrittenBy(cs, k, ApplyAll(s, cs).target[k].sequence)
  {
    hide Apply, Writers, Change.Key;
    if cs != [] {
      var init, last := cs[..|cs| - 1], cs[|cs| - 1];
      assert cs == init + [last];
      CommitRowFrom(ApplyAll(s, init), last, k);
      if e :| e in Writers(last) && e.Key() == k && e.Sequence() == ApplyAll(s, cs).target[k].sequence {
        assert last in cs;
      } else {
        CommitsRowFrom(s, init, k);
      }
    }
  }

  lemma {:induction false} PlanWriters(ws: seq<seq<Event>>, pid: string, policy: DeletePolicy, c: Commit)
    requires c in Plan(ws, pid, policy)
    ensures forall e :: e in Writers(c) ==> InSome(ws, e) && Rewrites(e, policy)
    ensures c.MergeDeletes? ==> c.policy == policy
    decreases |ws|
  {
    hide Change.Upserts, Change.Deletes;
    if c in WaveCommits(ws[0], pid, policy) {
      assert forall e :: e in UpsertsIn(ws[0]) || e in DeletesIn(ws[0]) ==> e in ws[0];
    } else {
      PlanWriters(ws[1..], pid, policy, c);
      forall e | e in Writers(c) ensures InSome(ws, e) {
        var i :| 0 <= i < |ws[1..]| && e in ws[1..][i];
        assert e in ws[i + 1];
      }
    }
  }

  lemma {:induction false} SoftKeepsKeys(s: Store, cs: seq<Commit>, k: RowKey)
    requires k in s.target && forall c :: c in cs && c.MergeDeletes? ==> c.policy == SOFT
    ensures k in ApplyAll(s, cs).target
  {
    if cs != [] {
      assert cs == cs[..|cs| - 1] + [cs[|cs| - 1]];
      SoftKeepsKeys(s, cs[..|cs| - 1], k);
    }
  }

  lemma UpsertWaveWrites(s: Store, w: seq<Event>, pid: string, policy: DeletePolicy, e: Event)
    requires e in w && e.change.Upserts() && forall f :: f in w ==> f.Wave() == e.Wave()
    ensures 2 <= |WaveCommits(w, pid, policy)|
    ensures var x := ApplyAll(s, WaveCommits(w, pid, policy)[..2]);
      e.Key() in x.target && x.target[e.Key()].sequence == e.Sequence()
  {
    hide Change.PkValue, Change.Key, DeltaImage, Recorded, Marked;
    var u, c := UpsertsIn(w), WaveCommits(w, pid, policy);
    assert e in u;
    assert c[..2] == [RecordPending(w, pid), MergeUpserts(u, pid)];
    TwoCommits(s, c[0], c[1]);
    assert EventByKey(u, e.Key()) in w;
  }

  lemma DeleteWaveWrites(s: Store, w: seq<Event>, pid: string, e: Event)
    requires e in w && e.change.Deletes() && e.Key() in s.target && forall f :: f in w ==> f.Wave() == e.Wave()
    ensures var x := ApplyAll(s, WaveCommits(w, pid, SOFT));
      e.Key() in x.target && x.target[e.Key()].sequence == e.Sequence()
  {
    hide Change.PkValue, Change.Key, DeltaImage, Recorded, Marked;
    WaveComplete(s, w, pid, SOFT);
    assert e in DeletesIn(w);
    assert EventByKey(DeletesIn(w), e.Key()) in w;
  }

  /** Some crash point shows the row at this event's sequence number. */
  lemma EventShowsUp(s: Store, ws: seq<seq<Event>>, pid: string, policy: DeletePolicy, e: Event) returns (n: nat)
    requires WaveShape(ws) && InSome(ws, e) && Rewrites(e, policy) && e.Key() in s.target
    ensures var x := ApplyAll(s, Prefix(Plan(ws, pid, policy), n));
      e.Key() in x.target && x.target[e.Key()].sequence == e.Sequence()
  {
    hide Change.PkValue, Change.Key, WaveCommits, Plan, Apply;
    var i :| 0 <= i < |ws| && e in ws[i];
    assert forall f :: f in ws[i] ==> f.Wave() == e.Wave();
    var before, c := Plan(ws[..i], pid, policy), WaveCommits(ws[i], pid, policy);
    var y := ApplyAll(s, before);
    if e.change.Upserts() {
      UpsertWaveWrites(y, ws[i], pid, policy, e);
      PlanCut(ws, pid, policy, i, 2);
      ApplyAllConcat(s, before, c[..2]);
      n := |before| + 2;
    } else {
      forall d | d in before ensures d.MergeDeletes? ==> d.policy == SOFT {
        PlanWriters(ws[..i], pid, policy, d);
      }
      SoftKeepsKeys(s, before, e.Key());
      DeleteWaveWrites(y, ws[i], pid, e);
      PlanCut(ws, pid, policy, i, |c|);
      FullPrefix(c);
      ApplyAllConcat(s, before, c);
      n := |before| + |c|;
    }
  }

  ghost predicate Lowers(s: Store, x: Store, k: RowKey)
    requires k in s.target
  {
    k in x.target && x.target[k].sequence < s.target[k].sequence
  }

  lemma LoweredBy(s: Store, pid: string, es: seq<Event>, policy: DeletePolicy, t: Triage, k: RowKey, n: nat)
    returns (e: Event)
    requires Decide(s.ledger, pid, es) == Ok(t) && k in s.target && Lowers(s, Attempted(s, pid, es, policy, n), k)
    ensures e in t.Actionable() && Rewrites(e, policy) && e.Key() == k && e.Sequence() < s.target[k].sequence
  {
    var ws := Waves(t.Actionable());
    var cs := Prefix(Plan(ws, pid, policy), n);
    CommitsRowFrom(s, cs, k);
    var q := ApplyAll(s, cs).target[k].sequence;
    var c, f :| c in cs && f in Writers(c) && f.Key() == k && f.Sequence() == q;
    assert c in Plan(ws, pid, policy);
    hide Plan, Waves, Writers, ApplyAll;
    PlanWriters(ws, pid, policy, c);
    WavesFacts(t.Actionable());
    e := f;
  }

  /** Whatever the store, the list and the crash point: an accepted run can leave a row with a lower sequence number
      exactly when it acts on an event at that key, below the row, that writes rows. */
  lemma RunLowersRowIff(s: Store, pid: string, es: seq<Event>, policy: DeletePolicy, t: Triage, k: RowKey)
    requires Decide(s.ledger, pid, es) == Ok(t) && k in s.target
    ensures (exists n :: Lowers(s, Attempted(s, pid, es, policy, n), k))
            <==> exists e ::
                   e in t.Actionable() && Rewrites(e, policy) && e.Key() == k && e.Sequence() < s.target[k].sequence
  {
    if n :| Lowers(s, Attempted(s, pid, es, policy, n), k) {
      var e := LoweredBy(s, pid, es, policy, t, k, n);
    }
    if e :| e in t.Actionable() && Rewrites(e, policy) && e.Key() == k && e.Sequence() < s.target[k].sequence {
      WavesFacts(t.Actionable());
      var n := EventShowsUp(s, Waves(t.Actionable()), pid, policy, e);
      assert Lowers(s, Attempted(s, pid, es, policy, n), k);
    }
  }

  /** A rejected run lowers nothing. */
  lemma RejectedRunKeeps(s: Store, pid: string, es: seq<Event>, policy: DeletePolicy, n: nat)
    requires Decide(s.ledger, pid, es).Err?
    ensures Attempted(s, pid, es, policy, n) == s
  {}
}
