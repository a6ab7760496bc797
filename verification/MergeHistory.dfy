/** Safety over every history: any series of runs, each dying after any number of commits or completing. */
module MergeHistory {
  import opened Cdc
  import opened MergeSpec
  import opened MergeInvariant
  import opened MergeWave
  import opened MergeRun
  import opened MergeDecide
  import opened MergeTheorems

  /** Submit processing set `pid`; the process survives `survives` commits. */
  datatype Attempt = Attempt(pid: string, survives: nat)

  ghost predicate Submits(cat: Catalogue, history: seq<Attempt>) {
    forall a :: a in history ==> a.pid in cat
  }

  ghost function After(cat: Catalogue, s: Store, policy: DeletePolicy, history: seq<Attempt>): Store
    requires Submits(cat, history)
  {
    if history == [] then s
    else
      var last := history[|history| - 1];
      Attempted(After(cat, s, policy, history[..|history| - 1]), last.pid, cat[last.pid], policy, last.survives)
  }

  lemma {:induction false} AfterConcat(cat: Catalogue, s: Store, policy: DeletePolicy, h: seq<Attempt>, g: seq<Attempt>)
    requires Submits(cat, h) && Submits(cat, g)
    ensures Submits(cat, h + g) && After(cat, s, policy, h + g) == After(cat, After(cat, s, policy, h), policy, g)
  {
    if g == [] {
      assert h + g == h;
    } else {
      AfterConcat(cat, s, policy, h, g[..|g| - 1]);
      assert (h + g)[..|h + g| - 1] == h + g[..|g| - 1];
    }
  }

  /** The empty ledger over the bootstrap snapshot. */
  function Initial(snap: Target): Store { Store(map[], snap) }

  // ---- The ledger only moves forward ----

  lemma AdvancesTrans(l: Ledger, m: Ledger, n: Ledger)
    requires Advances(l, m) && Advances(m, n)
    ensures Advances(l, n)
  {}

  /** Any commits at all keep every record, and change at most its status from PENDING to APPLIED. */
  lemma {:induction false} CommitsAdvance(s: Store, cs: seq<Commit>)
    ensures Advances(s.ledger, ApplyAll(s, cs).ledger)
  {
    if cs != [] {
      var init := ApplyAll(s, cs[..|cs| - 1]);
      CommitsAdvance(s, cs[..|cs| - 1]);
      AdvancesTrans(s.ledger, init.ledger, ApplyAll(s, cs).ledger);
    }
  }

  /** Records are never lost or rewritten: over any history they change only from PENDING to APPLIED. */
  lemma {:induction false} LedgerOnlyAdvances(cat: Catalogue, s: Store, policy: DeletePolicy, history: seq<Attempt>)
    requires Submits(cat, history)
    ensures Advances(s.ledger, After(cat, s, policy, history).ledger)
  {
    if history != [] {
      var init, last := history[..|history| - 1], history[|history| - 1];
      var x := After(cat, s, policy, init);
      LedgerOnlyAdvances(cat, s, policy, init);
      CommitsAdvance(x, Prefix(Commits(x.ledger, last.pid, cat[last.pid], policy), last.survives));
      AdvancesTrans(s.ledger, x.ledger, After(cat, s, policy, history).ledger);
    }
  }

  // ---- The invariant over histories ----

  /** Every run keeps the ledger invariant, whatever the delete policy and wherever it dies. */
  lemma AttemptLedgerInv(cat: Catalogue, s: Store, pid: string, policy: DeletePolicy, n: nat)
    requires WellFormed(cat) && LedgerInv(cat, s.ledger) && pid in cat
    ensures LedgerInv(cat, Attempted(s, pid, cat[pid], policy, n).ledger)
  {
    if Decide(s.ledger, pid, cat[pid]).Ok? {
      var rest := AttemptReach(cat, s, pid, policy, n);
    }
  }

  lemma AttemptInv(cat: Catalogue, snap: Target, s: Store, pid: string, n: nat)
    requires WellFormed(cat) && Inv(cat, snap, s) && pid in cat
    ensures Inv(cat, snap, Attempted(s, pid, cat[pid], HARD, n))
  {
    if Decide(s.ledger, pid, cat[pid]).Ok? {
      var t := Decide(s.ledger, pid, cat[pid]).value;
      DecideReady(cat, s.ledger, pid, t);
      var k := PrefixIs(Plan(Waves(t.Actionable()), pid, HARD), n);
      PlanInv(cat, snap, s, pid, Waves(t.Actionable()), k);
    }
  }

  /** Ledger invariant in every reachable state: PENDING records share one processing set and one wave and lie above
      their entity's applied maximum, applied sequences are distinct per entity, every record is genuine. */
  lemma {:induction false} ReachableLedgerInv(cat: Catalogue, snap: Target, policy: DeletePolicy, history: seq<Attempt>)
    requires WellFormed(cat) && Submits(cat, history)
    ensures LedgerInv(cat, After(cat, Initial(snap), policy, history).ledger)
  {
    if history != [] {
      var init, last := history[..|history| - 1], history[|history| - 1];
      ReachableLedgerInv(cat, snap, policy, init);
      AttemptLedgerInv(cat, After(cat, Initial(snap), policy, init), last.pid, policy, last.survives);
    }
  }

  lemma InitialInv(cat: Catalogue, snap: Target)
    ensures Inv(cat, snap, Initial(snap))
  {
    assert Provenance(cat, Initial(snap).ledger);
  }

  lemma {:induction false} ReachableInv(cat: Catalogue, snap: Target, history: seq<Attempt>)
    requires WellFormed(cat) && Submits(cat, history)
    ensures Inv(cat, snap, After(cat, Initial(snap), HARD, history))
  {
    hide Inv, WellFormed, Attempted;
    InitialInv(cat, snap);
    if history != [] {
      var init, last := history[..|history| - 1], history[|history| - 1];
      ReachableInv(cat, snap, init);
      AttemptInv(cat, snap, After(cat, Initial(snap), HARD, init), last.pid, last.survives);
    }
  }

  /** Crash-safe refinement: after any history, with no record PENDING, the target shows at every key exactly the
      effect of the highest-sequence APPLIED event there, or the snapshot row if there is none. */
  lemma CrashSafeRefinement(cat: Catalogue, snap: Target, history: seq<Attempt>, k: RowKey)
    requires WellFormed(cat) && Submits(cat, history)
    requires NoPending(After(cat, Initial(snap), HARD, history).ledger)
    ensures var x := After(cat, Initial(snap), HARD, history);
      Provenance(cat, x.ledger) && Shown(cat, x.ledger, snap, k, Lookup(x.target, k))
  {
    ReachableInv(cat, snap, history);
  }

  lemma DeletedStaysDeleted(cat: Catalogue, snap: Target, x: Store, id: string)
    requires KeyedByEntity(cat) && Provenance(cat, x.ledger) && TargetInv(cat, snap, x)
    requires PendingAboveApplied(x.ledger) && AppliedDistinct(x.ledger)
    requires IsApplied(x.ledger, id) && x.ledger[id].operation == DELETE
    ensures var k := EventOf(cat, x.ledger, id).Key();
      k in x.target ==> x.target[k].sequence > x.ledger[id].sequence
  {
    hide Change.PkValue, Change.Key, WaveLe, OnePendingWave, EarlierSettled;
    var l, e := x.ledger, EventOf(cat, x.ledger, id);
    var k := e.Key();
    if k in x.target {
      assert AppliedAt(cat, l, k, id);
      if InFlight(cat, l, k, Lookup(x.target, k)) {
        var p :| PendingAt(cat, l, k, p) && Lookup(x.target, k) == EffectOf(cat, l, p);
        SameKeySameEntity(cat, l, p, id);
      } else {
        var a :| Latest(cat, l, k, a) && Lookup(x.target, k) == EffectOf(cat, l, a);
        SameKeySameEntity(cat, l, a, id);
        assert a != id;
      }
    }
  }

  /** No resurrection: once a DELETE is applied, in every reachable state, mid-crash or not, a row at its key can only
      come from a strictly higher sequence number. */
  lemma NoResurrection(cat: Catalogue, snap: Target, history: seq<Attempt>, id: string)
    requires WellFormed(cat) && Submits(cat, history)
    requires IsApplied(After(cat, Initial(snap), HARD, history).ledger, id)
    requires After(cat, Initial(snap), HARD, history).ledger[id].operation == DELETE
    ensures var x := After(cat, Initial(snap), HARD, history);
      && Provenance(cat, x.ledger)
      && var k := EventOf(cat, x.ledger, id).Key();
         k in x.target ==> x.target[k].sequence > x.ledger[id].sequence
  {
    ReachableInv(cat, snap, history);
    DeletedStaysDeleted(cat, snap, After(cat, Initial(snap), HARD, history), id);
  }

  lemma SameKeySameEntity(cat: Catalogue, l: Ledger, a: string, b: string)
    requires KeyedByEntity(cat) && Provenance(cat, l) && a in l && b in l
    requires EventOf(cat, l, a).Key() == EventOf(cat, l, b).Key()
    ensures l[a].entity == l[b].entity
    ensures IsApplied(l, b) ==> AppliedTo(l, l[a].entity, b)
  {
    assert Genuine(cat, l, a) && Genuine(cat, l, b);
    InAll(cat, l[a].processingId, EventOf(cat, l, a));
    InAll(cat, l[b].processingId, EventOf(cat, l, b));
    assert Agree(EventOf(cat, l, a), EventOf(cat, l, b));
  }

  /** A row's metadata are those of the ledger record of the event it names. */
  ghost predicate Vouched(l: Ledger, row: Row) {
    && row.eventId in l
    && var r := l[row.eventId];
       && row.sequence == r.sequence && row.fingerprint == r.fingerprint && row.commitTs == r.commitTs
       && row.processingId == r.processingId && row.operation == r.operation.Text() && !row.deleted
  }

  lemma ExplainedIsVouched(cat: Catalogue, l: Ledger, id: string, v: Option<Row>)
    requires Provenance(cat, l) && id in l && v == EffectOf(cat, l, id) && v.Some?
    ensures Vouched(l, v.value)
  {
    hide DeltaImage, Change.PkValue;
    assert Genuine(cat, l, id);
  }

  lemma ShownIsVouched(cat: Catalogue, l: Ledger, snap: Target, k: RowKey, v: Option<Row>)
    requires Provenance(cat, l) && v.Some? && (Shown(cat, l, snap, k, v) || InFlight(cat, l, k, v))
    ensures v == Lookup(snap, k) || Vouched(l, v.value)
  {
    hide RowOf, Change.PkValue, Vouched;
    if InFlight(cat, l, k, v) {
      var id :| PendingAt(cat, l, k, id) && v == EffectOf(cat, l, id);
      ExplainedIsVouched(cat, l, id, v);
    } else if id :| Latest(cat, l, k, id) && v == EffectOf(cat, l, id) {
      ExplainedIsVouched(cat, l, id, v);
    }
  }

  lemma InvVouches(cat: Catalogue, snap: Target, x: Store, k: RowKey)
    requires Inv(cat, snap, x) && k in x.target
    ensures (k in snap && x.target[k] == snap[k]) || Vouched(x.ledger, x.target[k])
  {
    assert Shown(cat, x.ledger, snap, k, Lookup(x.target, k)) || InFlight(cat, x.ledger, k, Lookup(x.target, k));
    ShownIsVouched(cat, x.ledger, snap, k, Lookup(x.target, k));
    hide Inv, Shown, InFlight, Vouched;
  }

  /** Every row of a reachable HARD target, mid-crash or not, is a snapshot row or agrees with the ledger record of the
      event it names, in sequence, fingerprint, commit timestamp, operation and processing id. */
  lemma RowsMatchLedger(cat: Catalogue, snap: Target, history: seq<Attempt>, k: RowKey)
    requires WellFormed(cat) && Submits(cat, history) && k in After(cat, Initial(snap), HARD, history).target
    ensures var x := After(cat, Initial(snap), HARD, history);
      (k in snap && x.target[k] == snap[k]) || Vouched(x.ledger, x.target[k])
  {
    ReachableInv(cat, snap, history);
    InvVouches(cat, snap, After(cat, Initial(snap), HARD, history), k);
  }

  // ---- Replay ----

  /** Nothing of processing set `pid` is left to act on. */
  ghost predicate Finished(cat: Catalogue, l: Ledger, pid: string) {
    && pid in cat
    && forall e :: e in cat[pid] ==> Settled(l, e) && !(IsPending(l, e.Id()) && l[e.Id()].processingId == pid)
  }

  lemma NoWaves()
    ensures Waves([]) == []
  {
    assert WaveOrder([]) == [];
  }

  lemma FinishedMakesNoCommit(cat: Catalogue, l: Ledger, pid: string, policy: DeletePolicy)
    requires WellFormed(cat) && LedgerInv(cat, l) && Finished(cat, l, pid)
    ensures Commits(l, pid, cat[pid], policy) == []
  {
    if Decide(l, pid, cat[pid]).Ok? {
      var t := Decide(l, pid, cat[pid]).value;
      if t.Actionable() != [] {
        var e := t.Actionable()[0];
        DecideEvent(cat, l, pid, t, e);
        assert false;
      }
      NoWaves();
    }
  }

  /** What another processing set's run may do to a finished event: nothing that matters. */
  lemma OthersLeaveFinished(cat: Catalogue, l: Ledger, m: Ledger, pid: string, other: string, e: Event)
    requires Finished(cat, l, pid) && e in cat[pid] && other != pid
    requires Advances(l, m) && AddsOnly(l, m, other)
    ensures Settled(m, e) && !(IsPending(m, e.Id()) && m[e.Id()].processingId == pid)
  {
    SettledMonotone(l, m, e);
  }

  lemma FinishedStays(cat: Catalogue, s: Store, pid: string, policy: DeletePolicy, a: Attempt)
    requires WellFormed(cat) && LedgerInv(cat, s.ledger) && Finished(cat, s.ledger, pid) && a.pid in cat
    ensures Finished(cat, Attempted(s, a.pid, cat[a.pid], policy, a.survives).ledger, pid)
  {
    var x := Attempted(s, a.pid, cat[a.pid], policy, a.survives);
    if a.pid == pid {
      FinishedMakesNoCommit(cat, s.ledger, pid, policy);
    } else if Decide(s.ledger, a.pid, cat[a.pid]).Ok? {
      var rest := AttemptReach(cat, s, a.pid, policy, a.survives);
      forall e | e in cat[pid]
        ensures Settled(x.ledger, e) && !(IsPending(x.ledger, e.Id()) && x.ledger[e.Id()].processingId == pid)
      {
        OthersLeaveFinished(cat, s.ledger, x.ledger, pid, a.pid, e);
      }
    }
  }

  lemma {:induction false} FinishedForever(cat: Catalogue, s: Store, pid: string, policy: DeletePolicy,
                                           history: seq<Attempt>)
    requires WellFormed(cat) && LedgerInv(cat, s.ledger) && Finished(cat, s.ledger, pid) && Submits(cat, history)
    ensures LedgerInv(cat, After(cat, s, policy, history).ledger)
    ensures Finished(cat, After(cat, s, policy, history).ledger, pid)
  {
    if history != [] {
      var init, last := history[..|history| - 1], history[|history| - 1];
      FinishedForever(cat, s, pid, policy, init);
      var x := After(cat, s, policy, init);
      AttemptLedgerInv(cat, x, last.pid, policy, last.survives);
      FinishedStays(cat, x, pid, policy, last);
    }
  }

  /** A run that survives all its commits finishes its processing set. */
  lemma CompleteFinishes(cat: Catalogue, s: Store, pid: string, policy: DeletePolicy, n: nat)
    requires WellFormed(cat) && LedgerInv(cat, s.ledger) && pid in cat && Decide(s.ledger, pid, cat[pid]).Ok?
    requires n >= |Commits(s.ledger, pid, cat[pid], policy)|
    ensures var x := Attempted(s, pid, cat[pid], policy, n);
      LedgerInv(cat, x.ledger) && Finished(cat, x.ledger, pid)
  {
    CompleteSettles(cat, s, pid, policy, n);
    AttemptLedgerInv(cat, s, pid, policy, n);
  }

  /** Replay: once a processing set has completed, resubmitting it after any later history commits nothing at all. */
  lemma ReplayIsNoOp(cat: Catalogue, s: Store, pid: string, policy: DeletePolicy, n: nat, history: seq<Attempt>)
    requires WellFormed(cat) && LedgerInv(cat, s.ledger) && pid in cat && Decide(s.ledger, pid, cat[pid]).Ok?
    requires n >= |Commits(s.ledger, pid, cat[pid], policy)| && Submits(cat, history)
    ensures var x := After(cat, Attempted(s, pid, cat[pid], policy, n), policy, history);
      Commits(x.ledger, pid, cat[pid], policy) == []
  {
    var y := Attempted(s, pid, cat[pid], policy, n);
    CompleteFinishes(cat, s, pid, policy, n);
    FinishedForever(cat, y, pid, policy, history);
    FinishedMakesNoCommit(cat, After(cat, y, policy, history).ledger, pid, policy);
  }

  /** While a set has PENDING records, every other processing set is turned away untouched. */
  lemma PendingBlocksOthers(cat: Catalogue, s: Store, pid: string, policy: DeletePolicy, n: nat, id: string)
    requires LedgerInv(cat, s.ledger) && pid in cat && pid != ""
    requires IsPending(s.ledger, id) && s.ledger[id].processingId != pid
    ensures Decide(s.ledger, pid, cat[pid]) == Err(PendingRecovery)
    ensures Attempted(s, pid, cat[pid], policy, n) == s
  {}
}
