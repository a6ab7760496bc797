/** The guarantees of the two-phase MERGE over whole histories of runs, crashes and retries. */
module MergeTheorems {
  import opened Cdc
  import opened Ordering
  import opened MergeSpec
  import opened MergeInvariant
  import opened MergeWave
  import opened MergeRun
  import opened MergeDecide

  // ---- Crash transparency ----

  ghost function Acting(l: Ledger, pid: string, es: seq<Event>): set<Event> {
    match Decide(l, pid, es)
    case Err(_) => {}
    case Ok(t) => set e | e in t.Actionable()
  }

  lemma PrefixIs<T>(xs: seq<T>, n: nat) returns (k: nat)
    ensures k <= |xs| && Prefix(xs, n) == xs[..k]
    ensures k == (if n <= |xs| then n else |xs|)
  {
    k := if n <= |xs| then n else |xs|;
    FullPrefix(xs);
  }

  lemma BatchWavesSingle(cat: Catalogue, l: Ledger, pid: string, ws: seq<seq<Event>>)
    requires WellFormed(cat) && Ready(cat, l, pid, ws)
    ensures forall i :: 0 <= i < |ws| ==> OneEventEach(ws[i]) && OneEventEachId(ws[i])
  {
    forall i, e, f | 0 <= i < |ws| && e in ws[i] && f in ws[i]
      ensures e.Key() == f.Key() ==> e == f
      ensures e.Id() == f.Id() ==> e == f
    {
      assert InSome(ws, e) && InSome(ws, f);
      if e.Key() == f.Key() {
        OneEventPerKey(cat, pid, e, f);
      }
      if e.Id() == f.Id() {
        SameId(cat[pid], e, f);
      }
    }
  }

  lemma StillSameFingerprints(cat: Catalogue, l: Ledger, m: Ledger, pid: string)
    requires WellFormed(cat) && pid in cat && SameFingerprints(l, cat[pid])
    requires LedgerInv(cat, m) && Advances(l, m) && AddsOnly(l, m, pid)
    ensures SameFingerprints(m, cat[pid])
  {
    hide Change.PkValue;
    forall e | e in cat[pid] && e.Id() in m ensures m[e.Id()].fingerprint == e.fingerprint {
      if e.Id() !in l {
        assert Genuine(cat, m, e.Id());
        EventByIdUnique(cat[pid], e);
      }
    }
  }

  lemma KnownTables(l: Ledger, pid: string, es: seq<Event>, e: Event)
    requires Decide(l, pid, es).Ok? && e in Decide(l, pid, es).value.Actionable()
    ensures e.change.table in TABLE_PRIMARY_KEYS
  {
    var acts := Decide(l, pid, es).value.Actionable();
    CheckWavesNone(acts, WaveOrder(acts));
    WaveKeysMembers(acts, e.Wave());
  }

  /** Where an interrupted run stands. */
  lemma AttemptReach(cat: Catalogue, s: Store, pid: string, policy: DeletePolicy, n: nat)
    returns (rest: seq<seq<Event>>)
    requires WellFormed(cat) && LedgerInv(cat, s.ledger) && pid in cat && Decide(s.ledger, pid, cat[pid]).Ok?
    ensures var x := Attempted(s, pid, cat[pid], policy, n);
      var ws := Waves(Decide(s.ledger, pid, cat[pid]).value.Actionable());
      && Resumable(cat, s, x, pid, ws, rest, policy)
      && Suffix(ws, rest)
      && (n >= |Plan(ws, pid, policy)| ==> rest == [])
      && (ws != [] && n >= |WaveCommits(ws[0], pid, policy)| ==> |rest| < |ws|)
  {
    var t := Decide(s.ledger, pid, cat[pid]).value;
    var ws: seq<seq<Event>> := Waves(t.Actionable());
    DecideReady(cat, s.ledger, pid, t);
    var k := PrefixIs(Plan(ws, pid, policy), n);
    if ws != [] {
      PlanStep(s, ws, pid, policy, 0);
    }
    rest := PlanReach(cat, s, pid, ws, policy, k);
  }

  lemma SuffixInSome(ws: seq<seq<Event>>, rest: seq<seq<Event>>, e: Event)
    requires Suffix(ws, rest) && InSome(rest, e)
    ensures InSome(ws, e)
  {
    var i :| 0 <= i < |rest| && e in rest[i];
    assert ws[|ws| - |rest| + i] == rest[i];
  }

  /** What a resubmission acts on, given where the interrupted run stands. */
  lemma ResumeDecides(cat: Catalogue, s: Store, x: Store, pid: string, policy: DeletePolicy, rest: seq<seq<Event>>)
    requires WellFormed(cat) && LedgerInv(cat, s.ledger) && pid in cat && Decide(s.ledger, pid, cat[pid]).Ok?
    requires Resumable(cat, s, x, pid, Waves(Decide(s.ledger, pid, cat[pid]).value.Actionable()), rest, policy)
    requires Suffix(Waves(Decide(s.ledger, pid, cat[pid]).value.Actionable()), rest)
    ensures Decide(x.ledger, pid, cat[pid]).Ok?
    ensures SameWaves(Waves(Decide(x.ledger, pid, cat[pid]).value.Actionable()), rest)
    ensures forall e :: e in Decide(x.ledger, pid, cat[pid]).value.Actionable() <==> InSome(rest, e)
  {
    var acts := Decide(s.ledger, pid, cat[pid]).value.Actionable();
    DecideSameFingerprints(s.ledger, pid, cat[pid]);
    StillSameFingerprints(cat, s.ledger, x.ledger, pid);
    WavesFacts(acts);
    forall e | InSome(rest, e) ensures e.change.table in TABLE_PRIMARY_KEYS {
      SuffixInSome(Waves(acts), rest, e);
      KnownTables(s.ledger, pid, cat[pid], e);
    }
    ReadyDecide(cat, x.ledger, pid, rest);
  }

  /** The remaining waves hold exactly the events that are not yet applied. */
  lemma RestIsUnapplied(cat: Catalogue, l: Ledger, pid: string, es: seq<Event>, rest: seq<seq<Event>>, e: Event)
    requires Ready(cat, l, pid, rest) && Progress(l, Waves(es), rest) && Suffix(Waves(es), rest)
    ensures InSome(rest, e) <==> e in es && !IsApplied(l, e.Id())
  {
    WavesFacts(es);
    if InSome(rest, e) {
      SuffixInSome(Waves(es), rest, e);
    }
  }

  lemma ResumeEnds(cat: Catalogue, s: Store, x: Store, pid: string, policy: DeletePolicy, ws: seq<seq<Event>>,
                   rest: seq<seq<Event>>, vs: seq<seq<Event>>)
    requires WellFormed(cat) && Resumable(cat, s, x, pid, ws, rest, policy) && SameWaves(vs, rest)
    ensures ApplyAll(x, Plan(vs, pid, policy)) == ApplyAll(s, Plan(ws, pid, policy))
  {
    BatchWavesSingle(cat, x.ledger, pid, rest);
    SameWavesSameEnd(x, vs, rest, pid, policy);
  }

  /** Crash transparency, what is decided: after a crash at any commit, resubmitting the processing set is accepted
      and acts on exactly the events not yet APPLIED. */
  lemma CrashLeavesUnfinished(cat: Catalogue, s: Store, pid: string, policy: DeletePolicy, n: nat)
    requires WellFormed(cat) && LedgerInv(cat, s.ledger) && pid in cat && Decide(s.ledger, pid, cat[pid]).Ok?
    ensures var x := Attempted(s, pid, cat[pid], policy, n);
      && Decide(x.ledger, pid, cat[pid]).Ok?
      && forall e :: e in Acting(x.ledger, pid, cat[pid]) <==>
           e in Acting(s.ledger, pid, cat[pid]) && !IsApplied(x.ledger, e.Id())
  {
    var x := Attempted(s, pid, cat[pid], policy, n);
    var acts := Decide(s.ledger, pid, cat[pid]).value.Actionable();
    var rest := AttemptReach(cat, s, pid, policy, n);
    ResumeDecides(cat, s, x, pid, policy, rest);
    forall e ensures InSome(rest, e) <==> e in acts && !IsApplied(x.ledger, e.Id()) {
      RestIsUnapplied(cat, x.ledger, pid, acts, rest, e);
    }
  }

  /** Crash transparency, where it ends: after a crash at any commit, resubmitting the processing set reaches the
      ledger and target of the uninterrupted run. */
  lemma CrashTransparency(cat: Catalogue, s: Store, pid: string, policy: DeletePolicy, n: nat)
    requires WellFormed(cat) && LedgerInv(cat, s.ledger) && pid in cat && Decide(s.ledger, pid, cat[pid]).Ok?
    ensures Completed(Attempted(s, pid, cat[pid], policy, n), pid, cat[pid], policy)
            == Completed(s, pid, cat[pid], policy)
  {
    var x := Attempted(s, pid, cat[pid], policy, n);
    var acts := Decide(s.ledger, pid, cat[pid]).value.Actionable();
    var rest := AttemptReach(cat, s, pid, policy, n);
    ResumeDecides(cat, s, x, pid, policy, rest);
    ResumeEnds(cat, s, x, pid, policy, Waves(acts), rest, Waves(Decide(x.ledger, pid, cat[pid]).value.Actionable()));
  }

  lemma ShorterRestDropsFirst(ws: seq<seq<Event>>, rest: seq<seq<Event>>)
    requires WaveShape(ws) && Suffix(ws, rest) && |rest| < |ws|
    ensures InSome(ws, ws[0][0]) && !InSome(rest, ws[0][0])
  {
    var e := ws[0][0];
    assert e in ws[0];
    forall i | 0 <= i < |rest| ensures e !in rest[i] {
      assert rest[i] == ws[|ws| - |rest| + i];
    }
  }

  /** Progress: a run that gets through its first wave leaves strictly less to act on. */
  lemma EachWaveIsProgress(cat: Catalogue, s: Store, pid: string, policy: DeletePolicy, n: nat)
    requires WellFormed(cat) && LedgerInv(cat, s.ledger) && pid in cat && Decide(s.ledger, pid, cat[pid]).Ok?
    requires Waves(Decide(s.ledger, pid, cat[pid]).value.Actionable()) != []
    requires n >= |WaveCommits(Waves(Decide(s.ledger, pid, cat[pid]).value.Actionable())[0], pid, policy)|
    ensures Acting(Attempted(s, pid, cat[pid], policy, n).ledger, pid, cat[pid]) < Acting(s.ledger, pid, cat[pid])
  {
    var x := Attempted(s, pid, cat[pid], policy, n);
    var acts := Decide(s.ledger, pid, cat[pid]).value.Actionable();
    var rest := AttemptReach(cat, s, pid, policy, n);
    ResumeDecides(cat, s, x, pid, policy, rest);
    WavesFacts(acts);
    ShorterRestDropsFirst(Waves(acts), rest);
    var e := Waves(acts)[0][0];
    assert e in Acting(s.ledger, pid, cat[pid]) && e !in Acting(x.ledger, pid, cat[pid]);
    forall f | f in Acting(x.ledger, pid, cat[pid]) ensures f in Acting(s.ledger, pid, cat[pid]) {
      SuffixInSome(Waves(acts), rest, f);
    }
  }

  /** A run that survives all its commits leaves nothing PENDING and everything settled. */
  lemma CompleteSettles(cat: Catalogue, s: Store, pid: string, policy: DeletePolicy, n: nat)
    requires WellFormed(cat) && LedgerInv(cat, s.ledger) && pid in cat && Decide(s.ledger, pid, cat[pid]).Ok?
    requires n >= |Commits(s.ledger, pid, cat[pid], policy)|
    ensures var x := Attempted(s, pid, cat[pid], policy, n);
      NoPending(x.ledger) && forall e :: e in cat[pid] ==> Settled(x.ledger, e)
  {
    var rest := AttemptReach(cat, s, pid, policy, n);
    var x := Attempted(s, pid, cat[pid], policy, n);
    assert rest == [] && Ready(cat, x.ledger, pid, rest);
  }
}
