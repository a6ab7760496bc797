/** What the classification of a processing set decides, and why a resubmission decides on exactly the rest. */
module MergeDecide {
  import opened Cdc
  import opened Ordering
  import opened MergeSpec
  import opened MergeInvariant
  import opened MergeWave
  import opened MergeRun

  // ---- Classification ----

  ghost predicate Acts(c: Result<Class, MergeError>) { c == Ok(Fresh) || c == Ok(Recovery) }

  /** A batch is accepted by classification when each of its events is. */
  lemma {:induction false} ClassifyAllOk(l: Ledger, pid: string, es: seq<Event>)
    ensures ClassifyAll(l, pid, es).Ok? <==> forall e :: e in es ==> Classify(l, pid, e).Ok?
  {
    if es != [] {
      var init, last := es[..|es| - 1], es[|es| - 1];
      assert es == init + [last];
      ClassifyAllOk(l, pid, init);
    }
  }

  lemma AddOf(t: Triage, e: Event, d: Class, c: Class)
    ensures t.Add(e, d).Of(c) == if c == d then t.Of(c) + [e] else t.Of(c)
  {}

  lemma {:induction false} ClassifiedInBatch(l: Ledger, pid: string, es: seq<Event>, c: Class)
    requires ClassifyAll(l, pid, es).Ok?
    ensures forall e :: e in ClassifyAll(l, pid, es).value.Of(c) <==> e in es && Classify(l, pid, e) == Ok(c)
  {
    if es != [] {
      var init, last := es[..|es| - 1], es[|es| - 1];
      assert es == init + [last];
      ClassifiedInBatch(l, pid, init, c);
      AddOf(ClassifyAll(l, pid, init).value, last, Classify(l, pid, last).value, c);
    }
  }

  /** Each list of the triage holds exactly the events of its class, once each. */
  lemma {:induction false} ClassifyAllOf(l: Ledger, pid: string, es: seq<Event>, c: Class)
    requires ClassifyAll(l, pid, es).Ok?
    ensures forall e :: e in ClassifyAll(l, pid, es).value.Of(c) <==> e in es && Classify(l, pid, e) == Ok(c)
    ensures Distinct(es) ==> Distinct(ClassifyAll(l, pid, es).value.Of(c))
  {
    ClassifiedInBatch(l, pid, es, c);
    if es != [] {
      var init, last := es[..|es| - 1], es[|es| - 1];
      assert es == init + [last];
      ClassifyAllOf(l, pid, init, c);
      AddOf(ClassifyAll(l, pid, init).value, last, Classify(l, pid, last).value, c);
      if Distinct(es) {
        DistinctLast(init, last);
      }
    }
  }

  lemma ActionableIs(l: Ledger, pid: string, es: seq<Event>, e: Event)
    requires ClassifyAll(l, pid, es).Ok?
    ensures e in ClassifyAll(l, pid, es).value.Actionable() <==> e in es && Acts(Classify(l, pid, e))
  {
    ClassifyAllOf(l, pid, es, Fresh);
    ClassifyAllOf(l, pid, es, Recovery);
  }

  lemma ActionableDistinct(l: Ledger, pid: string, es: seq<Event>)
    requires ClassifyAll(l, pid, es).Ok? && Distinct(es)
    ensures Distinct(ClassifyAll(l, pid, es).value.Actionable())
  {
    ClassifyAllOf(l, pid, es, Fresh);
    ClassifyAllOf(l, pid, es, Recovery);
    var t := ClassifyAll(l, pid, es).value;
    forall i, j | 0 <= i < |t.unseen| && 0 <= j < |t.recovery| ensures t.unseen[i] != t.recovery[j] {
      assert t.unseen[i] in t.unseen && t.recovery[j] in t.recovery;
    }
  }

  lemma OwnPending(cat: Catalogue, l: Ledger, pid: string, e: Event)
    requires WellFormed(cat) && LedgerInv(cat, l) && pid in cat && e in cat[pid]
    requires IsPending(l, e.Id()) && l[e.Id()].processingId == pid
    ensures l[e.Id()] == RecordOf(e, pid, PENDING)
    ensures forall a :: AppliedTo(l, e.Entity(), a) ==> l[a].sequence < e.Sequence()
  {
    assert Genuine(cat, l, e.Id());
    EventByIdUnique(cat[pid], e);
  }

  /** Classification of one event, read off the ledger in both directions. */
  lemma ClassifyMeans(l: Ledger, pid: string, e: Event)
    ensures Classify(l, pid, e) == Ok(Fresh) <==>
      e.Id() !in l && forall a :: AppliedTo(l, e.Entity(), a) ==> l[a].sequence < e.Sequence()
    ensures Classify(l, pid, e) == Ok(Stale) <==>
      e.Id() !in l && exists a :: AppliedTo(l, e.Entity(), a) && e.Sequence() < l[a].sequence
    ensures Classify(l, pid, e) == Ok(Recovery) <==>
      IsPending(l, e.Id()) && l[e.Id()].processingId == pid && l[e.Id()].fingerprint == e.fingerprint
    ensures Classify(l, pid, e) == Ok(Replay) <==> IsApplied(l, e.Id()) && l[e.Id()].fingerprint == e.fingerprint
  {}

  /** What each class says about an event of the batch, read off the ledger. */
  lemma ClassMeans(cat: Catalogue, l: Ledger, pid: string, e: Event)
    requires WellFormed(cat) && LedgerInv(cat, l) && pid in cat && e in cat[pid]
    requires Classify(l, pid, e).Ok?
    ensures Acts(Classify(l, pid, e)) ==> (e.Id() in l ==> IsPending(l, e.Id()) && l[e.Id()].processingId == pid)
    ensures Acts(Classify(l, pid, e)) ==> forall a :: AppliedTo(l, e.Entity(), a) ==> l[a].sequence < e.Sequence()
    ensures !Acts(Classify(l, pid, e)) ==> Settled(l, e) && !IsPending(l, e.Id())
  {
    ClassifyMeans(l, pid, e);
    match Classify(l, pid, e).value
    case Recovery => OwnPending(cat, l, pid, e);
    case Fresh =>
    case Replay =>
    case Stale =>
  }

  // ---- Wave decomposition ----

  lemma {:induction false} CheckWavesNone(es: seq<Event>, keys: seq<WaveKey>)
    ensures CheckWaves(es, keys).None? <==>
      forall k :: k in keys ==> k.table in TABLE_PRIMARY_KEYS && UniqueKeys(WaveOf(es, k))
  {
    if keys != [] {
      var init, last := keys[..|keys| - 1], keys[|keys| - 1];
      assert keys == init + [last];
      CheckWavesNone(es, init);
    }
  }

  lemma WaveKeysMembers(es: seq<Event>, k: WaveKey)
    ensures k in WaveOrder(es) <==> exists e :: e in es && e.Wave() == k
  {
    WaveKeysAre(es);
    if k in WaveKeys(es) {
      var i :| 0 <= i < |es| && WaveKeys(es)[i] == k;
      assert es[i] in es;
    }
    if e :| e in es && e.Wave() == k {
      var i :| 0 <= i < |es| && es[i] == e;
      assert WaveKeys(es)[i] == k;
    }
  }

  ghost function SortedKeys(es: seq<Event>): seq<WaveKey> { Sort(WaveOrder(es), WaveLe) }

  lemma SortedKeysFacts(es: seq<Event>)
    ensures Sorted(SortedKeys(es), WaveLe) && Distinct(SortedKeys(es))
    ensures forall k :: k in SortedKeys(es) <==> exists e :: e in es && e.Wave() == k
  {
    WaveLeTotalPreorder();
    SortSorted(WaveOrder(es), WaveLe);
    SortPermutes(WaveOrder(es), WaveLe);
    PermutationDistinct(WaveOrder(es), SortedKeys(es));
    SortMembers(WaveOrder(es), WaveLe);
    forall k ensures k in SortedKeys(es) <==> exists e :: e in es && e.Wave() == k {
      WaveKeysMembers(es, k);
    }
  }

  /** The waves split the events by wave key, in ascending order, without loss. */
  lemma WavesFacts(es: seq<Event>)
    ensures WaveShape(Waves(es))
    ensures forall e :: InSome(Waves(es), e) <==> e in es
  {
    SortedKeysFacts(es);
    var keys: seq<WaveKey>, ws: seq<seq<Event>> := SortedKeys(es), Waves(es);
    forall i | 0 <= i < |ws| ensures ws[i] != [] && forall e :: e in ws[i] ==> e in es && e.Wave() == keys[i] {
      assert keys[i] in keys;
      var e :| e in es && e.Wave() == keys[i];
      assert e in ws[i];
    }
    forall i | 0 <= i < |ws| ensures ws[i][0].Wave() == keys[i] {
      assert ws[i][0] in ws[i];
    }
    forall e | e in es ensures InSome(ws, e) {
      assert e.Wave() in keys;
      var i :| 0 <= i < |keys| && keys[i] == e.Wave();
      assert e in ws[i];
    }
  }

  /** Tables in alphabetical order, and in each table ascending sequence numbers; each wave keeps the order of its
      events. */
  lemma WavesInOrder(es: seq<Event>, i: nat, j: nat)
    requires i < j < |Waves(es)|
    ensures Waves(es)[i] != [] && Waves(es)[j] != []
    ensures var a, b := Waves(es)[i][0].change, Waves(es)[j][0].change;
      || (a.table == b.table && a.sequence < b.sequence)
      || (a.table != b.table && StringLe(a.table, b.table))
    ensures var a := Waves(es)[i][0].change;
      Waves(es)[i]
      == Filter(es, (e: Event) => e.change.table == a.table && e.change.sequence == a.sequence)
  {
    WavesFacts(es);
    var w := Waves(es)[i];
    assert InSome(Waves(es), w[0]) && w[0] in w;
    var k := SortedKeys(es)[i];
    assert w == WaveOf(es, k);
    FilterSame(es, (e: Event) => e.Wave() == k,
               (e: Event) => e.change.table == w[0].change.table && e.change.sequence == w[0].change.sequence);
  }

  ghost function KeyList(ws: seq<seq<Event>>): seq<WaveKey>
    requires WaveShape(ws)
  {
    seq(|ws|, i requires 0 <= i < |ws| => ws[i][0].Wave())
  }

  lemma KeyListFacts(ws: seq<seq<Event>>, k: WaveKey)
    requires WaveShape(ws)
    ensures Distinct(KeyList(ws)) && Sorted(KeyList(ws), WaveLe)
    ensures k in KeyList(ws) <==> exists e :: InSome(ws, e) && e.Wave() == k
  {
    if k in KeyList(ws) {
      var i :| 0 <= i < |ws| && KeyList(ws)[i] == k;
      assert ws[i][0] in ws[i];
      assert InSome(ws, ws[i][0]);
    }
    if e :| InSome(ws, e) && e.Wave() == k {
      var i :| 0 <= i < |ws| && e in ws[i];
      assert KeyList(ws)[i] == k;
    }
  }

  ghost predicate SameWaves(vs: seq<seq<Event>>, ws: seq<seq<Event>>) {
    |vs| == |ws| && forall i, e :: 0 <= i < |vs| ==> (e in vs[i] <==> e in ws[i])
  }

  lemma InItsWave(vs: seq<seq<Event>>, ws: seq<seq<Event>>, i: int, e: Event)
    requires WaveShape(vs) && WaveShape(ws) && KeyList(vs) == KeyList(ws)
    requires forall f :: InSome(vs, f) <==> InSome(ws, f)
    requires 0 <= i < |vs| && e in vs[i]
    ensures i < |ws| && e in ws[i]
  {
    assert |KeyList(vs)| == |KeyList(ws)|;
    assert InSome(vs, e);
    var j :| 0 <= j < |ws| && e in ws[j];
    assert KeyList(vs)[i] == e.Wave() == KeyList(ws)[j];
    KeyListFacts(ws, e.Wave());
  }

  /** Events determine their waves. */
  lemma WavesUnique(vs: seq<seq<Event>>, ws: seq<seq<Event>>)
    requires WaveShape(vs) && WaveShape(ws)
    requires forall e :: InSome(vs, e) <==> InSome(ws, e)
    ensures SameWaves(vs, ws)
  {
    forall k ensures k in KeyList(vs) <==> k in KeyList(ws) {
      KeyListFacts(vs, k);
      KeyListFacts(ws, k);
    }
    KeyListFacts(vs, WaveKey("", 0));
    KeyListFacts(ws, WaveKey("", 0));
    DistinctSameMembers(KeyList(vs), KeyList(ws));
    WaveLeTotalPreorder();
    SortedUnique(KeyList(vs), KeyList(ws), WaveLe);
    assert |vs| == |KeyList(vs)| == |KeyList(ws)| == |ws|;
    forall i, e | 0 <= i < |vs| ensures e in vs[i] <==> e in ws[i] {
      if e in vs[i] {
        InItsWave(vs, ws, i, e);
      }
      if e in ws[i] {
        InItsWave(ws, vs, i, e);
      }
    }
  }

  // ---- Waves act as sets ----

  ghost predicate OneEventEachId(w: seq<Event>) {
    forall e, f :: e in w && f in w && e.Id() == f.Id() ==> e == f
  }

  ghost predicate SameSet(v: seq<Event>, w: seq<Event>) { forall e :: e in v <==> e in w }

  lemma SameSetRecorded(l: Ledger, v: seq<Event>, w: seq<Event>, pid: string)
    requires SameSet(v, w) && OneEventEachId(w)
    ensures Ids(v) == Ids(w) && Recorded(l, v, pid) == Recorded(l, w, pid)
  {}

  lemma SameSetMutated(t: Target, v: seq<Event>, w: seq<Event>, pid: string, policy: DeletePolicy)
    requires SameSet(v, w) && OneEventEach(w)
    ensures Upserted(t, v, pid) == Upserted(t, w, pid) && Deleted(t, v, pid, policy) == Deleted(t, w, pid, policy)
  {
    hide Change.PkValue;
    assert Keys(v) == Keys(w);
  }

  lemma SameSetSameWave(s: Store, v: seq<Event>, w: seq<Event>, pid: string, policy: DeletePolicy)
    requires SameSet(v, w) && OneEventEach(w) && OneEventEachId(w)
    ensures WaveDone(s, v, pid, policy) == WaveDone(s, w, pid, policy)
  {
    SameSetRecorded(s.ledger, v, w, pid);
    SameSetMutated(s.target, UpsertsIn(v), UpsertsIn(w), pid, policy);
    SameSetMutated(Upserted(s.target, UpsertsIn(w), pid), DeletesIn(v), DeletesIn(w), pid, policy);
  }

  lemma {:induction false} SameWavesSameEnd(s: Store, vs: seq<seq<Event>>, ws: seq<seq<Event>>, pid: string,
                                            policy: DeletePolicy)
    requires SameWaves(vs, ws)
    requires forall i :: 0 <= i < |ws| ==> OneEventEach(ws[i]) && OneEventEachId(ws[i])
    ensures ApplyAll(s, Plan(vs, pid, policy)) == ApplyAll(s, Plan(ws, pid, policy))
    decreases |vs|
  {
    if vs != [] {
      PlanStep(s, vs, pid, policy, 0);
      PlanStep(s, ws, pid, policy, 0);
      SameSetSameWave(s, vs[0], ws[0], pid, policy);
      SameWavesSameEnd(WaveDone(s, vs[0], pid, policy), vs[1..], ws[1..], pid, policy);
    }
  }

  // ---- Decide and Ready ----

  lemma BatchDistinct(es: seq<Event>)
    requires UniqueIds(es)
    ensures Distinct(es)
  {}

  lemma PendingInActionable(cat: Catalogue, l: Ledger, pid: string, t: Triage, id: string) returns (e: Event)
    requires WellFormed(cat) && LedgerInv(cat, l) && pid in cat && Decide(l, pid, cat[pid]) == Ok(t)
    requires IsPending(l, id)
    ensures e in cat[pid] && e.Id() == id && e in t.Actionable() && e.Wave() == l[id].Wave()
    ensures l[id].processingId == pid
  {
    e := EventById(cat[pid], id);
    assert Genuine(cat, l, id);
    ClassifyAllOk(l, pid, cat[pid]);
    ActionableIs(l, pid, cat[pid], e);
  }

  /** An actionable event that does not come after a PENDING wave belongs to it. */
  lemma NotBeforePending(cat: Catalogue, l: Ledger, pid: string, t: Triage, id: string, f: Event)
    requires WellFormed(cat) && LedgerInv(cat, l) && pid in cat && Decide(l, pid, cat[pid]) == Ok(t)
    requires IsPending(l, id) && l[id].processingId == pid && f in t.Actionable() && WaveLe(f.Wave(), l[id].Wave())
    ensures f.Wave() == l[id].Wave()
  {
    ActionableIs(l, pid, cat[pid], f);
    ClassMeans(cat, l, pid, f);
    assert Settled(l, f);
    OwnPending(cat, l, pid, f);
  }

  /** Nothing actionable comes before a PENDING wave. */
  lemma PendingFirst(cat: Catalogue, l: Ledger, pid: string, t: Triage, id: string)
    requires WellFormed(cat) && LedgerInv(cat, l) && pid in cat && Decide(l, pid, cat[pid]) == Ok(t)
    requires IsPending(l, id)
    ensures Waves(t.Actionable()) != [] && id in Ids(Waves(t.Actionable())[0])
  {
    var ws: seq<seq<Event>> := Waves(t.Actionable());
    var e := PendingInActionable(cat, l, pid, t, id);
    WavesFacts(t.Actionable());
    WaveLeTotalPreorder();
    assert InSome(ws, e);
    var i :| 0 <= i < |ws| && e in ws[i];
    var f := ws[0][0];
    assert f in ws[0] && InSome(ws, f);
    NotBeforePending(cat, l, pid, t, id, f);
  }

  lemma DecideEvent(cat: Catalogue, l: Ledger, pid: string, t: Triage, e: Event)
    requires WellFormed(cat) && LedgerInv(cat, l) && pid in cat && Decide(l, pid, cat[pid]) == Ok(t)
    requires e in t.Actionable()
    ensures e in cat[pid]
    ensures forall a :: AppliedTo(l, e.Entity(), a) ==> l[a].sequence < e.Sequence()
    ensures e.Id() in l ==>
      (IsPending(l, e.Id()) && l[e.Id()].processingId == pid
       && Waves(t.Actionable()) != [] && e in Waves(t.Actionable())[0])
  {
    ActionableIs(l, pid, cat[pid], e);
    ClassMeans(cat, l, pid, e);
    if e.Id() in l {
      PendingFirst(cat, l, pid, t, e.Id());
      WavesFacts(t.Actionable());
      var ws: seq<seq<Event>> := Waves(t.Actionable());
      var f :| f in ws[0] && f.Id() == e.Id();
      assert InSome(ws, f);
      ActionableIs(l, pid, cat[pid], f);
      SameId(cat[pid], e, f);
    }
  }

  lemma DecideRest(cat: Catalogue, l: Ledger, pid: string, t: Triage, e: Event)
    requires WellFormed(cat) && LedgerInv(cat, l) && pid in cat && Decide(l, pid, cat[pid]) == Ok(t)
    requires e in cat[pid]
    ensures Settled(l, e) || e in t.Actionable()
  {
    ClassifyAllOk(l, pid, cat[pid]);
    ActionableIs(l, pid, cat[pid], e);
    ClassMeans(cat, l, pid, e);
  }

  /** An accepted run is ready to execute its waves. */
  lemma DecideReady(cat: Catalogue, l: Ledger, pid: string, t: Triage)
    requires WellFormed(cat) && LedgerInv(cat, l) && pid in cat && Decide(l, pid, cat[pid]) == Ok(t)
    ensures Ready(cat, l, pid, Waves(t.Actionable()))
  {
    var ws: seq<seq<Event>> := Waves(t.Actionable());
    WavesFacts(t.Actionable());
    forall e | InSome(ws, e)
      ensures e in cat[pid]
      ensures forall a :: AppliedTo(l, e.Entity(), a) ==> l[a].sequence < e.Sequence()
      ensures e.Id() in l ==> IsPending(l, e.Id()) && l[e.Id()].processingId == pid && e in ws[0]
    {
      DecideEvent(cat, l, pid, t, e);
    }
    forall id | IsPending(l, id) ensures ws != [] && id in Ids(ws[0]) {
      PendingFirst(cat, l, pid, t, id);
    }
    forall e | e in cat[pid] ensures Settled(l, e) || InSome(ws, e) {
      DecideRest(cat, l, pid, t, e);
    }
  }

  /** Ledger and batch agree on the content of the events they share. */
  ghost predicate SameFingerprints(l: Ledger, es: seq<Event>) {
    forall e :: e in es && e.Id() in l ==> l[e.Id()].fingerprint == e.fingerprint
  }

  lemma DecideSameFingerprints(l: Ledger, pid: string, es: seq<Event>)
    requires Decide(l, pid, es).Ok?
    ensures SameFingerprints(l, es)
  {
    ClassifyAllOk(l, pid, es);
  }

  lemma ReadyGate(cat: Catalogue, l: Ledger, pid: string, ws: seq<seq<Event>>)
    requires WellFormed(cat) && LedgerInv(cat, l) && Ready(cat, l, pid, ws)
    ensures Gate(l, pid, cat[pid]).None?
  {
    assert pid in cat;
    hide WellFormed, LedgerInv, Ready, Change.PkValue, Ids, Gate, EventById;
    forall id | IsPending(l, id)
      ensures l[id].processingId == pid && id in Ids(cat[pid])
      ensures EventById(cat[pid], id).fingerprint == l[id].fingerprint
    {
      ReadyPending(cat, l, pid, ws, id);
    }
    GateOpen(l, pid, cat[pid]);
  }

  lemma GateOpen(l: Ledger, pid: string, es: seq<Event>)
    requires forall id :: IsPending(l, id) ==>
      l[id].processingId == pid && id in Ids(es) && EventById(es, id).fingerprint == l[id].fingerprint
    ensures Gate(l, pid, es).None?
  {
    hide Ids, EventById;
  }

  lemma ReadyPending(cat: Catalogue, l: Ledger, pid: string, ws: seq<seq<Event>>, id: string)
    requires LedgerInv(cat, l) && Ready(cat, l, pid, ws) && IsPending(l, id)
    ensures l[id].processingId == pid && id in Ids(cat[pid])
    ensures EventById(cat[pid], id).fingerprint == l[id].fingerprint
  {
    hide Change.PkValue, Settled, WaveLe, WaveShape;
    var e :| e in ws[0] && e.Id() == id;
    assert Genuine(cat, l, id);
  }

  /** From a ready ledger, an event is acted on exactly when it is in a remaining wave. */
  lemma ReadyClass(cat: Catalogue, l: Ledger, pid: string, ws: seq<seq<Event>>, e: Event)
    requires WellFormed(cat) && LedgerInv(cat, l) && Ready(cat, l, pid, ws) && SameFingerprints(l, cat[pid])
    requires e in cat[pid]
    ensures Classify(l, pid, e).Ok?
    ensures Acts(Classify(l, pid, e)) <==> InSome(ws, e)
  {
    hide Change.PkValue, WaveLe, Genuine;
    ClassifyMeans(l, pid, e);
    if IsPending(l, e.Id()) {
      var f :| f in ws[0] && f.Id() == e.Id();
      assert InSome(ws, f);
      SameId(cat[pid], e, f);
    } else if !InSome(ws, e) {
      assert Settled(l, e);
    }
  }

  lemma ReadyWavesChecked(cat: Catalogue, pid: string, es: seq<Event>)
    requires WellFormed(cat) && pid in cat && Distinct(es)
    requires forall e :: e in es ==> e in cat[pid] && e.change.table in TABLE_PRIMARY_KEYS
    ensures CheckWaves(es, WaveOrder(es)).None?
  {
    CheckWavesNone(es, WaveOrder(es));
    forall k | k in WaveOrder(es) ensures k.table in TABLE_PRIMARY_KEYS && UniqueKeys(WaveOf(es, k)) {
      WaveKeysMembers(es, k);
      var w := WaveOf(es, k);
      FilterDistinct(es, (e: Event) => e.Wave() == k);
      forall i, j | 0 <= i < j < |w| ensures w[i].Key() != w[j].Key() {
        assert w[i] in w && w[j] in w && w[i] != w[j];
        if w[i].Key() == w[j].Key() {
          OneEventPerKey(cat, pid, w[i], w[j]);
        }
      }
    }
  }

  /** A resubmission from a ready ledger is accepted and acts on exactly the remaining waves. */
  lemma ReadyDecide(cat: Catalogue, l: Ledger, pid: string, ws: seq<seq<Event>>)
    requires WellFormed(cat) && LedgerInv(cat, l) && Ready(cat, l, pid, ws) && SameFingerprints(l, cat[pid])
    requires pid != "" && forall e :: InSome(ws, e) ==> e.change.table in TABLE_PRIMARY_KEYS
    ensures Decide(l, pid, cat[pid]).Ok?
    ensures forall e :: e in Decide(l, pid, cat[pid]).value.Actionable() <==> InSome(ws, e)
    ensures SameWaves(Waves(Decide(l, pid, cat[pid]).value.Actionable()), ws)
  {
    var es := cat[pid];
    ReadyGate(cat, l, pid, ws);
    forall e | e in es ensures Classify(l, pid, e).Ok? {
      ReadyClass(cat, l, pid, ws, e);
    }
    ClassifyAllOk(l, pid, es);
    var acts := ClassifyAll(l, pid, es).value.Actionable();
    forall e ensures e in acts <==> InSome(ws, e) {
      ActionableIs(l, pid, es, e);
      if e in es {
        ReadyClass(cat, l, pid, ws, e);
      }
    }
    BatchDistinct(es);
    ActionableDistinct(l, pid, es);
    ReadyWavesChecked(cat, pid, acts);
    WavesFacts(acts);
    WavesUnique(Waves(acts), ws);
  }
}
