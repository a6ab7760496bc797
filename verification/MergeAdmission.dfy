/** When a processing set is accepted (src/merge/pipeline.py:115-242), exactly. */
module MergeAdmission {
  import opened Cdc
  import opened MergeSpec
  import opened MergeInvariant
  import opened MergeDecide
  import opened Ordering
  import opened MergeHistory

  ghost predicate ForeignPending(l: Ledger, pid: string) {
    exists id :: IsPending(l, id) && l[id].processingId != pid
  }

  /** A recorded id has another content. */
  predicate Altered(l: Ledger, e: Event) { e.Id() in l && l[e.Id()].fingerprint != e.fingerprint }

  /** An unrecorded event repeats the sequence number up to which its entity has been applied. */
  ghost predicate RepeatsMaximum(l: Ledger, e: Event) {
    && e.Id() !in l
    && (exists a :: AppliedTo(l, e.Entity(), a) && l[a].sequence == e.Sequence())
    && forall a :: AppliedTo(l, e.Entity(), a) ==> l[a].sequence <= e.Sequence()
  }

  /** The run has something left to do for the event. */
  ghost predicate Outstanding(l: Ledger, e: Event) {
    IsPending(l, e.Id())
    || (e.Id() !in l && forall a :: AppliedTo(l, e.Entity(), a) ==> l[a].sequence < e.Sequence())
  }

  /** The records of a set are those of its own events, so the gate is about foreign ones only. */
  lemma GateIff(cat: Catalogue, l: Ledger, pid: string)
    requires Provenance(cat, l) && pid in cat
    ensures Gate(l, pid, cat[pid]).None? <==> !ForeignPending(l, pid)
  {
    hide Change.PkValue;
    if !ForeignPending(l, pid) {
      forall id | IsPending(l, id)
        ensures id in Ids(cat[pid]) && EventById(cat[pid], id).fingerprint == l[id].fingerprint
      {
        assert Genuine(cat, l, id);
      }
    }
  }

  lemma ClassifyOkIff(l: Ledger, pid: string, e: Event)
    requires !ForeignPending(l, pid)
    ensures Classify(l, pid, e).Ok? <==> !Altered(l, e) && !RepeatsMaximum(l, e)
    ensures Classify(l, pid, e).Ok? ==> (Acts(Classify(l, pid, e)) <==> Outstanding(l, e))
  {
    ClassifyMeans(l, pid, e);
  }

  /** Acceptance, exactly: no other set is PENDING, no recorded event has changed, no new event repeats its entity's
      applied maximum, and every event still to be done addresses a known table. */
  lemma AcceptedIff(cat: Catalogue, l: Ledger, pid: string)
    requires WellFormed(cat) && LedgerInv(cat, l) && pid in cat
    ensures Decide(l, pid, cat[pid]).Ok?
            <==> && pid != "" && !ForeignPending(l, pid)
                 && (forall e :: e in cat[pid] ==> !Altered(l, e) && !RepeatsMaximum(l, e))
                 && forall e :: e in cat[pid] && Outstanding(l, e) ==> e.change.table in TABLE_PRIMARY_KEYS
  {
    var es := cat[pid];
    GateIff(cat, l, pid);
    ClassifyAllOk(l, pid, es);
    if pid != "" && !ForeignPending(l, pid) {
      forall e | e in es
        ensures Classify(l, pid, e).Ok? <==> !Altered(l, e) && !RepeatsMaximum(l, e)
        ensures Classify(l, pid, e).Ok? ==> (Acts(Classify(l, pid, e)) <==> Outstanding(l, e))
      {
        ClassifyOkIff(l, pid, e);
      }
      if ClassifyAll(l, pid, es).Ok? {
        CheckedIff(cat, l, pid);
      }
    }
    hide Classify, ClassifyAll, CheckWaves, Altered, RepeatsMaximum, Outstanding, ForeignPending, LedgerInv, WellFormed;
  }

  /** Of a well-formed batch only unknown tables fail the check of the waves. */
  lemma CheckedIff(cat: Catalogue, l: Ledger, pid: string)
    requires WellFormed(cat) && pid in cat && ClassifyAll(l, pid, cat[pid]).Ok?
    ensures var acts := ClassifyAll(l, pid, cat[pid]).value.Actionable();
      CheckWaves(acts, WaveOrder(acts)).None?
      <==> forall e :: e in cat[pid] && Acts(Classify(l, pid, e)) ==> e.change.table in TABLE_PRIMARY_KEYS
  {
    hide Classify, Change.PkValue;
    var es := cat[pid];
    var acts := ClassifyAll(l, pid, es).value.Actionable();
    forall e ensures e in acts <==> e in es && Acts(Classify(l, pid, e)) {
      ActionableIs(l, pid, es, e);
    }
    BatchDistinct(es);
    ActionableDistinct(l, pid, es);
    CheckWavesNone(acts, WaveOrder(acts));
    if forall e :: e in acts ==> e.change.table in TABLE_PRIMARY_KEYS {
      ReadyWavesChecked(cat, pid, acts);
    } else {
      var e :| e in acts && e.change.table !in TABLE_PRIMARY_KEYS;
      WaveKeysMembers(acts, e.Wave());
    }
  }

  /** Across all sets, equal ids mean equal content, and equal places in an entity's sequence mean equal ids. */
  ghost predicate Identified(cat: Catalogue) {
    && (forall e, f :: e in All(cat) && f in All(cat) && e.Id() == f.Id() ==> e.fingerprint == f.fingerprint)
    && (forall e, f :: e in All(cat) && f in All(cat) && SameSlot(e, f) ==> e.Id() == f.Id())
  }

  /** Then no conflict of events ever arises. */
  lemma NoConflict(cat: Catalogue, l: Ledger, pid: string, e: Event)
    requires Identified(cat) && Provenance(cat, l) && pid in cat && e in cat[pid]
    ensures !Altered(l, e) && !RepeatsMaximum(l, e)
  {
    InAll(cat, pid, e);
    if e.Id() in l {
      assert Genuine(cat, l, e.Id());
      InAll(cat, l[e.Id()].processingId, EventOf(cat, l, e.Id()));
    } else if a :| AppliedTo(l, e.Entity(), a) && l[a].sequence == e.Sequence() {
      assert Genuine(cat, l, a);
      var f := EventOf(cat, l, a);
      InAll(cat, l[a].processingId, f);
      assert SameSlot(e, f);
    }
  }

  /** In every reachable state, mid-crash or not, a set of identified events on known tables is turned away exactly when
      another set is PENDING. */
  lemma TurnedAwayIff(cat: Catalogue, snap: Target, policy: DeletePolicy, history: seq<Attempt>, pid: string)
    requires WellFormed(cat) && Identified(cat) && Submits(cat, history) && pid in cat && pid != ""
    requires forall e :: e in cat[pid] ==> e.change.table in TABLE_PRIMARY_KEYS
    ensures var l := After(cat, Initial(snap), policy, history).ledger;
      Decide(l, pid, cat[pid]).Err? <==> ForeignPending(l, pid)
  {
    var l := After(cat, Initial(snap), policy, history).ledger;
    ReachableLedgerInv(cat, snap, policy, history);
    AcceptedIff(cat, l, pid);
    assert Provenance(cat, l);
    hide WellFormed, LedgerInv, After, Altered, RepeatsMaximum, Decide;
    hide ForeignPending, Outstanding, Identified, Genuine;
    forall e | e in cat[pid] ensures !Altered(l, e) && !RepeatsMaximum(l, e) {
      NoConflict(cat, l, pid, e);
    }
  }

  /** No deadlock: in every reachable state the owner of a PENDING record is itself accepted. */
  lemma NoDeadlock(cat: Catalogue, snap: Target, policy: DeletePolicy, history: seq<Attempt>, id: string)
    requires WellFormed(cat) && Identified(cat) && Submits(cat, history) && "" !in cat
    requires forall e :: e in All(cat) ==> e.change.table in TABLE_PRIMARY_KEYS
    requires IsPending(After(cat, Initial(snap), policy, history).ledger, id)
    ensures var l := After(cat, Initial(snap), policy, history).ledger;
      l[id].processingId in cat && Decide(l, l[id].processingId, cat[l[id].processingId]).Ok?
  {
    var l := After(cat, Initial(snap), policy, history).ledger;
    ReachableLedgerInv(cat, snap, policy, history);
    assert Genuine(cat, l, id);
    var pid := l[id].processingId;
    assert !ForeignPending(l, pid);
    forall e | e in cat[pid] ensures e.change.table in TABLE_PRIMARY_KEYS {
      InAll(cat, pid, e);
    }
    hide Decide, WellFormed, LedgerInv, After;
    TurnedAwayIff(cat, snap, policy, history, pid);
  }

  // ---- Which error, for any ledger and any list ----

  /** The list lacks a PENDING event. */
  ghost predicate LacksPending(l: Ledger, es: seq<Event>) {
    exists id :: IsPending(l, id) && forall e :: e in es ==> e.Id() != id
  }

  /** The list's last event with a PENDING id has another content. */
  ghost predicate ChangesPending(l: Ledger, es: seq<Event>) {
    exists i :: 0 <= i < |es| && IsPending(l, es[i].Id()) && l[es[i].Id()].fingerprint != es[i].fingerprint
                && forall j :: i < j < |es| ==> es[j].Id() != es[i].Id()
  }

  ghost predicate Conflicts(l: Ledger, e: Event) { Altered(l, e) || RepeatsMaximum(l, e) }

  /** The first event of the list that conflicts with the ledger. */
  ghost predicate FirstConflict(l: Ledger, es: seq<Event>, i: nat) {
    i < |es| && Conflicts(l, es[i]) && forall j :: 0 <= j < i ==> !Conflicts(l, es[j])
  }

  /** Two of the events share table, sequence number and key. */
  ghost predicate Ambiguous(acts: seq<Event>) {
    exists i, j :: 0 <= i < j < |acts| && acts[i].Wave() == acts[j].Wave() && acts[i].Key() == acts[j].Key()
  }

  lemma {:induction false} LastWithId(es: seq<Event>, id: string) returns (i: nat)
    requires id in Ids(es)
    ensures i < |es| && es[i] == EventById(es, id) && forall j :: i < j < |es| ==> es[j].Id() != id
  {
    var init, last := es[..|es| - 1], es[|es| - 1];
    assert es == init + [last];
    if last.Id() == id {
      i := |es| - 1;
    } else {
      i := LastWithId(init, id);
    }
  }

  lemma GateErr(l: Ledger, pid: string, es: seq<Event>)
    ensures Gate(l, pid, es) ==
            if ForeignPending(l, pid) || LacksPending(l, es) then Some(PendingRecovery)
            else if ChangesPending(l, es) then Some(EventConflict)
            else None
  {
    hide Change.PkValue;
    forall id ensures id in Ids(es) <==> exists e :: e in es && e.Id() == id {}
    forall id | IsPending(l, id) && id in Ids(es)
      ensures EventById(es, id).fingerprint != l[id].fingerprint ==> ChangesPending(l, es)
    {
      var i := LastWithId(es, id);
    }
    if i :| 0 <= i < |es| && IsPending(l, es[i].Id()) && l[es[i].Id()].fingerprint != es[i].fingerprint
            && forall j :: i < j < |es| ==> es[j].Id() != es[i].Id() {
      assert es[i] in es;
      var k := LastWithId(es, es[i].Id());
      assert k == i;
    }
  }

  lemma ClassifyErr(l: Ledger, pid: string, e: Event)
    requires !ForeignPending(l, pid)
    ensures Classify(l, pid, e).Err? <==> Conflicts(l, e)
    ensures Classify(l, pid, e) == Err(EventConflict) <==> Altered(l, e)
    ensures Classify(l, pid, e) == Err(SequenceConflict) <==> RepeatsMaximum(l, e)
  {
    ClassifyOkIff(l, pid, e);
  }

  /** The first conflict of the list is the error. */
  lemma {:induction false} ClassifyAllErr(l: Ledger, pid: string, es: seq<Event>, i: nat)
    requires !ForeignPending(l, pid) && FirstConflict(l, es, i)
    ensures ClassifyAll(l, pid, es) == Err(if Altered(l, es[i]) then EventConflict else SequenceConflict)
  {
    var init, last := es[..|es| - 1], es[|es| - 1];
    if i < |init| {
      assert es[i] == init[i] && forall j :: 0 <= j < i ==> es[j] == init[j];
      ClassifyAllErr(l, pid, init, i);
    } else {
      ClassifyAllOk(l, pid, init);
      forall e | e in init ensures Classify(l, pid, e).Ok? {
        var j :| 0 <= j < |init| && init[j] == e;
        assert es[j] == e;
        ClassifyErr(l, pid, e);
      }
      ClassifyErr(l, pid, last);
    }
  }

  lemma {:induction false} FirstConflictExists(l: Ledger, es: seq<Event>, n: nat) returns (i: nat)
    requires n < |es| && Conflicts(l, es[n])
    ensures FirstConflict(l, es, i)
    decreases n
  {
    hide Conflicts;
    if j :| 0 <= j < n && Conflicts(l, es[j]) {
      i := FirstConflictExists(l, es, j);
    } else {
      i := n;
    }
  }

  lemma ClassifyAllErrIff(l: Ledger, pid: string, es: seq<Event>)
    requires !ForeignPending(l, pid)
    ensures ClassifyAll(l, pid, es).Err? <==> exists e :: e in es && Conflicts(l, e)
  {
    ClassifyAllOk(l, pid, es);
    forall e ensures Classify(l, pid, e).Err? <==> Conflicts(l, e) {
      ClassifyErr(l, pid, e);
    }
    hide ClassifyAll, Classify, Conflicts;
  }

  lemma {:induction false} CheckWavesErr(es: seq<Event>, keys: seq<WaveKey>)
    ensures CheckWaves(es, keys) == Some(UnknownTable) ==> exists k :: k in keys && k.table !in TABLE_PRIMARY_KEYS
    ensures CheckWaves(es, keys) == Some(Ambiguity) ==> exists k :: k in keys && !UniqueKeys(WaveOf(es, k))
    ensures CheckWaves(es, keys).Some? ==> CheckWaves(es, keys).value == UnknownTable
                                           || CheckWaves(es, keys).value == Ambiguity
  {
    if keys != [] {
      var init, last := keys[..|keys| - 1], keys[|keys| - 1];
      assert keys == init + [last];
      CheckWavesErr(es, init);
      hide UniqueKeys, WaveOf;
    }
  }

  lemma AmbiguousIff(acts: seq<Event>)
    ensures Ambiguous(acts) <==> exists k :: k in WaveOrder(acts) && !UniqueKeys(WaveOf(acts, k))
  {
    hide Change.PkValue;
    if i, j :| 0 <= i < j < |acts| && acts[i].Wave() == acts[j].Wave() && acts[i].Key() == acts[j].Key() {
      var k := acts[i].Wave();
      WaveKeysMembers(acts, k);
      assert acts[i] in acts;
      var p, q := FilterPlaces(acts, (e: Event) => e.Wave() == k, i, j);
      assert WaveOf(acts, k)[p].Key() == WaveOf(acts, k)[q].Key();
    }
    if k :| k in WaveOrder(acts) && !UniqueKeys(WaveOf(acts, k)) {
      var w := WaveOf(acts, k);
      var p, q :| 0 <= p < q < |w| && w[p].Key() == w[q].Key();
      var i, j := FilterOrigins(acts, (e: Event) => e.Wave() == k, p, q);
      assert w[p] in w && w[q] in w;
      assert acts[i].Wave() == acts[j].Wave() && acts[i].Key() == acts[j].Key();
    }
  }

  /** The verdict on any list against any ledger: the first check that fails, in the order of the source, and nothing
      else, decides the error. */
  lemma DecideIs(l: Ledger, pid: string, es: seq<Event>)
    ensures Decide(l, pid, es) == Err(EmptyProcessingId) <==> pid == ""
    ensures Decide(l, pid, es) == Err(PendingRecovery) <==> pid != "" && (ForeignPending(l, pid) || LacksPending(l, es))
    ensures pid != "" && !ForeignPending(l, pid) && !LacksPending(l, es) && ChangesPending(l, es) ==>
      Decide(l, pid, es) == Err(EventConflict)
    ensures Gates(l, pid, es) ==>
      forall i :: 0 <= i < |es| && FirstConflict(l, es, i) ==>
        Decide(l, pid, es) == Err(if Altered(l, es[i]) then EventConflict else SequenceConflict)
    ensures Gates(l, pid, es) && (forall e :: e in es ==> !Conflicts(l, e)) ==>
      ClassifyAll(l, pid, es).Ok? && WavesDecide(l, pid, es, ClassifyAll(l, pid, es).value)
  {
    GateErr(l, pid, es);
    if Gates(l, pid, es) {
      NotPendingRecovery(l, pid, es);
      ClassifyAllErrIff(l, pid, es);
      forall i | 0 <= i < |es| && FirstConflict(l, es, i)
        ensures ClassifyAll(l, pid, es) == Err(if Altered(l, es[i]) then EventConflict else SequenceConflict)
      {
        ClassifyAllErr(l, pid, es, i);
      }
      if forall e :: e in es ==> !Conflicts(l, e) {
        WavesAreChecked(l, pid, es, ClassifyAll(l, pid, es).value);
      }
    }
    hide Gate, ClassifyAll, CheckWaves, ForeignPending, LacksPending, ChangesPending, Conflicts, WavesDecide;
  }

  /** The checks on the processing id and on PENDING records pass. */
  ghost predicate Gates(l: Ledger, pid: string, es: seq<Event>) {
    pid != "" && !ForeignPending(l, pid) && !LacksPending(l, es) && !ChangesPending(l, es)
  }

  /** Accepted exactly when the events to act on address known tables without ambiguity; the error says which. */
  ghost predicate WavesDecide(l: Ledger, pid: string, es: seq<Event>, t: Triage) {
    var acts, d := t.unseen + t.recovery, Decide(l, pid, es);
    && (d == Ok(t) <==> !UnknownTableIn(acts) && !Ambiguous(acts))
    && (d == Ok(t) || d == Err(UnknownTable) || d == Err(Ambiguity))
    && (d == Err(UnknownTable) ==> UnknownTableIn(acts)) && (d == Err(Ambiguity) ==> Ambiguous(acts))
  }

  predicate UnknownTableIn(acts: seq<Event>) { exists e :: e in acts && e.change.table !in TABLE_PRIMARY_KEYS }

  lemma UnknownIff(acts: seq<Event>)
    ensures UnknownTableIn(acts) <==> exists k :: k in WaveOrder(acts) && k.table !in TABLE_PRIMARY_KEYS
  {
    forall k ensures k in WaveOrder(acts) <==> exists e :: e in acts && e.Wave() == k {
      WaveKeysMembers(acts, k);
    }
    hide WaveOrder;
    if e :| e in acts && e.change.table !in TABLE_PRIMARY_KEYS {
      assert e.Wave() in WaveOrder(acts);
    }
  }

  lemma WavesVerdict(acts: seq<Event>)
    ensures var c := CheckWaves(acts, WaveOrder(acts));
      && (c == None <==> !UnknownTableIn(acts) && !Ambiguous(acts))
      && (c == None || c == Some(UnknownTable) || c == Some(Ambiguity))
      && (c == Some(UnknownTable) ==> UnknownTableIn(acts)) && (c == Some(Ambiguity) ==> Ambiguous(acts))
  {
    CheckWavesErr(acts, WaveOrder(acts));
    CheckWavesNone(acts, WaveOrder(acts));
    AmbiguousIff(acts);
    UnknownIff(acts);
    hide CheckWaves, Ambiguous, UnknownTableIn, UniqueKeys, WaveOf, WaveOrder;
  }

  lemma WavesAreChecked(l: Ledger, pid: string, es: seq<Event>, t: Triage)
    requires Gates(l, pid, es) && ClassifyAll(l, pid, es) == Ok(t)
    ensures WavesDecide(l, pid, es, t)
  {
    GateErr(l, pid, es);
    WavesVerdict(t.unseen + t.recovery);
    hide Gate, ClassifyAll, CheckWaves, Ambiguous, UnknownTableIn, WaveOrder, ForeignPending, LacksPending;
    hide ChangesPending;
  }

  /** The remaining errors are about events. */
  lemma NotPendingRecovery(l: Ledger, pid: string, es: seq<Event>)
    requires Gates(l, pid, es)
    ensures Decide(l, pid, es) != Err(PendingRecovery) && Decide(l, pid, es) != Err(EmptyProcessingId)
  {
    GateErr(l, pid, es);
    ClassifyAllErrIff(l, pid, es);
    if e :| e in es && Conflicts(l, e) {
      var n :| 0 <= n < |es| && es[n] == e;
      var i := FirstConflictExists(l, es, n);
      ClassifyAllErr(l, pid, es, i);
    } else {
      WavesVerdict(ClassifyAll(l, pid, es).value.Actionable());
    }
    hide Gate, ClassifyAll, CheckWaves, Ambiguous, UnknownTableIn, WaveOrder, ForeignPending, LacksPending;
    hide ChangesPending, Conflicts;
  }
}
