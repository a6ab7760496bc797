/** A run of the MERGE pipeline as a sequence of waves: what each crash point leaves behind, what a resubmission
    decides from there, and that both lead to the same end. */
module MergeRun {
  import opened Cdc
  import opened Ordering
  import opened MergeSpec
  import opened MergeInvariant
  import opened MergeWave

  // ---- The states inside one wave ----

  function WithPending(s: Store, w: seq<Event>, pid: string): Store {
    s.(ledger := Recorded(s.ledger, w, pid))
  }

  function WithUpserts(s: Store, w: seq<Event>, pid: string): Store {
    WithPending(s, w, pid).(target := Upserted(s.target, UpsertsIn(w), pid))
  }

  function WithTarget(s: Store, w: seq<Event>, pid: string, policy: DeletePolicy): Store {
    WithPending(s, w, pid).(target := Mutated(s.target, w, pid, policy))
  }

  function WaveDone(s: Store, w: seq<Event>, pid: string, policy: DeletePolicy): Store {
    Store(Marked(Recorded(s.ledger, w, pid), Ids(w)), Mutated(s.target, w, pid, policy))
  }

  lemma NoTargetCommit(t: Target, pid: string, policy: DeletePolicy)
    ensures Upserted(t, [], pid) == t && Deleted(t, [], pid, policy) == t
  {}

  lemma TwoCommits(s: Store, a: Commit, b: Commit)
    ensures ApplyAll(s, [a]) == Apply(s, a) && ApplyAll(s, [a, b]) == Apply(Apply(s, a), b)
  {
    assert [a][..0] == [] && [a, b][..1] == [a];
  }

  lemma TargetCommitsReach(s: Store, w: seq<Event>, pid: string, policy: DeletePolicy, n: nat)
    requires n <= |TargetCommits(w, pid, policy)|
    ensures var x := ApplyAll(WithPending(s, w, pid), TargetCommits(w, pid, policy)[..n]);
      || x == WithPending(s, w, pid)
      || x == WithUpserts(s, w, pid)
      || x == WithTarget(s, w, pid, policy)
    ensures n == |TargetCommits(w, pid, policy)| ==>
      ApplyAll(WithPending(s, w, pid), TargetCommits(w, pid, policy)[..n]) == WithTarget(s, w, pid, policy)
  {
    hide Change.PkValue, Upserted, Deleted, Marked;
    var cs, p := TargetCommits(w, pid, policy), WithPending(s, w, pid);
    NoTargetCommit(s.target, pid, policy);
    NoTargetCommit(Upserted(s.target, UpsertsIn(w), pid), pid, policy);
    if n == 1 {
      assert cs[..1] == [cs[0]];
      TwoCommits(p, cs[0], cs[0]);
    } else if n == 2 {
      assert cs[..2] == [cs[0], cs[1]];
      TwoCommits(p, cs[0], cs[1]);
    }
  }

  lemma WaveComplete(s: Store, w: seq<Event>, pid: string, policy: DeletePolicy)
    ensures ApplyAll(s, WaveCommits(w, pid, policy)) == WaveDone(s, w, pid, policy)
  {
    var first, middle, last := [RecordPending(w, pid)], TargetCommits(w, pid, policy), [MarkApplied(Ids(w))];
    ApplyAllConcat(s, first + middle, last);
    ApplyAllConcat(s, first, middle);
    FullPrefix(middle);
    TwoCommits(s, first[0], first[0]);
    TargetCommitsReach(s, w, pid, policy, |middle|);
    TwoCommits(WithTarget(s, w, pid, policy), last[0], last[0]);
  }

  /** A wave interrupted after `n` commits is in one of five states. */
  lemma WaveReach(s: Store, w: seq<Event>, pid: string, policy: DeletePolicy, n: nat)
    requires n <= |WaveCommits(w, pid, policy)|
    ensures var x := ApplyAll(s, WaveCommits(w, pid, policy)[..n]);
      || x == s
      || x == WithPending(s, w, pid)
      || x == WithUpserts(s, w, pid)
      || x == WithTarget(s, w, pid, policy)
      || x == WaveDone(s, w, pid, policy)
    ensures n == |WaveCommits(w, pid, policy)| ==>
      ApplyAll(s, WaveCommits(w, pid, policy)[..n]) == WaveDone(s, w, pid, policy)
  {
    var first, middle, last := [RecordPending(w, pid)], TargetCommits(w, pid, policy), [MarkApplied(Ids(w))];
    if n == |WaveCommits(w, pid, policy)| {
      FullPrefix(WaveCommits(w, pid, policy));
      WaveComplete(s, w, pid, policy);
    } else if n >= 1 {
      ConcatPrefix(first + middle, last, n);
      ConcatPrefix(first, middle, n);
      TwoCommits(s, first[0], first[0]);
      ApplyAllConcat(s, first, middle[..n - 1]);
      TargetCommitsReach(s, w, pid, policy, n - 1);
    }
  }

  /** Under HARD deletes every state inside a ready wave satisfies the invariant. */
  lemma WaveInv(cat: Catalogue, snap: Target, s: Store, pid: string, w: seq<Event>)
    requires WellFormed(cat) && Inv(cat, snap, s) && ReadyWave(cat, s.ledger, pid, w)
    ensures Inv(cat, snap, WithPending(s, w, pid)) && Inv(cat, snap, WithUpserts(s, w, pid))
    ensures Inv(cat, snap, WithTarget(s, w, pid, HARD)) && Inv(cat, snap, WaveDone(s, w, pid, HARD))
  {
    RecordedTargetInv(cat, snap, s, pid, w);
    UpsertedInv(cat, snap, WithPending(s, w, pid), pid, w);
    DeletedInv(cat, snap, WithUpserts(s, w, pid), pid, w);
    WaveOneEventEach(cat, s.ledger, pid, w);
    var x := WithTarget(s, w, pid, HARD);
    forall e | e in w && e.change.Recognised() ensures Lookup(x.target, e.Key()) == Effect(e, pid) {
      MutatedAt(s.target, w, pid, e.Key());
    }
    MarkedInv(cat, snap, x, pid, w);
  }

  // ---- Idempotence ----

  lemma UpsertsDeletesDisjoint(w: seq<Event>)
    requires OneEventEach(w)
    ensures Keys(UpsertsIn(w)) !! Keys(DeletesIn(w))
  {
    forall u, d | u in UpsertsIn(w) && d in DeletesIn(w) ensures u.Key() != d.Key() {
      assert u in w && d in w && u != d;
    }
  }

  /** What a wave leaves at a key. */
  function Left(v: Option<Row>, w: seq<Event>, pid: string, policy: DeletePolicy, k: RowKey): Option<Row> {
    if k in Keys(UpsertsIn(w)) then Some(RowOf(EventByKey(UpsertsIn(w), k), pid))
    else if k !in Keys(DeletesIn(w)) then v
    else if policy == HARD || v.None? then None
    else Some(Tombstone(v.value, EventByKey(DeletesIn(w), k), pid))
  }

  lemma MutatedLookup(t: Target, w: seq<Event>, pid: string, policy: DeletePolicy, k: RowKey)
    requires OneEventEach(w)
    ensures Lookup(Mutated(t, w, pid, policy), k) == Left(Lookup(t, k), w, pid, policy, k)
    ensures Lookup(Upserted(t, UpsertsIn(w), pid), k)
            == if k in Keys(UpsertsIn(w)) then Left(Lookup(t, k), w, pid, policy, k) else Lookup(t, k)
  {
    UpsertsDeletesDisjoint(w);
  }

  /** Redoing a wave's target commits, from wherever they were interrupted, ends in the same target. */
  lemma MutatedAbsorbs(t: Target, w: seq<Event>, pid: string, policy: DeletePolicy)
    requires OneEventEach(w)
    ensures Mutated(Upserted(t, UpsertsIn(w), pid), w, pid, policy) == Mutated(t, w, pid, policy)
    ensures Mutated(Mutated(t, w, pid, policy), w, pid, policy) == Mutated(t, w, pid, policy)
  {
    var u, m := Upserted(t, UpsertsIn(w), pid), Mutated(t, w, pid, policy);
    forall k
      ensures Lookup(Mutated(u, w, pid, policy), k) == Lookup(m, k)
      ensures Lookup(Mutated(m, w, pid, policy), k) == Lookup(m, k)
    {
      MutatedLookup(t, w, pid, policy, k);
      MutatedLookup(u, w, pid, policy, k);
      MutatedLookup(m, w, pid, policy, k);
    }
    SameLookups(Mutated(u, w, pid, policy), m);
    SameLookups(Mutated(m, w, pid, policy), m);
  }

  lemma RecordedTwice(l: Ledger, w: seq<Event>, pid: string)
    ensures Recorded(Recorded(l, w, pid), w, pid) == Recorded(l, w, pid)
  {}

  /** Resuming a wave from any of its states finishes it as if nothing had happened. */
  lemma WaveAbsorbs(s: Store, x: Store, w: seq<Event>, pid: string, policy: DeletePolicy)
    requires OneEventEach(w)
    requires || x == s
             || x == WithPending(s, w, pid)
             || x == WithUpserts(s, w, pid)
             || x == WithTarget(s, w, pid, policy)
    ensures WaveDone(x, w, pid, policy) == WaveDone(s, w, pid, policy)
  {
    RecordedTwice(s.ledger, w, pid);
    MutatedAbsorbs(s.target, w, pid, policy);
  }

  // ---- Readiness moves along the plan ----

  lemma ReadyFirst(cat: Catalogue, l: Ledger, pid: string, ws: seq<seq<Event>>)
    requires Ready(cat, l, pid, ws) && ws != []
    ensures ReadyWave(cat, l, pid, ws[0])
  {
    WaveLeTotalPreorder();
    forall e | e in ws[0] ensures InSome(ws, e) {}
    forall e | e in cat[pid] && WaveLe(e.Wave(), ws[0][0].Wave()) ensures Settled(l, e) || e in ws[0] {
      if !Settled(l, e) {
        var i :| 0 <= i < |ws| && e in ws[i];
      }
    }
  }

  lemma ReadyAfterPending(cat: Catalogue, l: Ledger, pid: string, ws: seq<seq<Event>>)
    requires WellFormed(cat) && LedgerInv(cat, l) && Ready(cat, l, pid, ws) && ws != []
    ensures Ready(cat, Recorded(l, ws[0], pid), pid, ws)
  {
    var m := Recorded(l, ws[0], pid);
    ReadyFirst(cat, l, pid, ws);
    RecordedFacts(cat, l, pid, ws[0]);
    forall e | InSome(ws, e) && e.Id() in m
      ensures IsPending(m, e.Id()) && m[e.Id()].processingId == pid && e in ws[0]
    {
      if e.Id() !in l {
        var f :| f in ws[0] && f.Id() == e.Id();
        assert InSome(ws, f);
        SameId(cat[pid], e, f);
      }
    }
    forall e, a | InSome(ws, e) && AppliedTo(m, e.Entity(), a) ensures m[a].sequence < e.Sequence() {
      assert AppliedTo(l, e.Entity(), a);
    }
    forall e | e in cat[pid] ensures Settled(m, e) || InSome(ws, e) {
      if Settled(l, e) {
        SettledMonotone(l, m, e);
      }
    }
  }

  lemma LaterIsAbove(cat: Catalogue, pid: string, ws: seq<seq<Event>>, e: Event, f: Event, i: int)
    requires WellFormed(cat) && pid in cat && WaveShape(ws)
    requires 1 <= i < |ws| && e in ws[i] && f in ws[0] && e in cat[pid] && f in cat[pid]
    requires e.Entity() == f.Entity()
    ensures f.Sequence() < e.Sequence()
  {
    InAll(cat, pid, e);
    InAll(cat, pid, f);
    assert Agree(e, f);
  }

  lemma RestIsUnseen(cat: Catalogue, l: Ledger, pid: string, ws: seq<seq<Event>>, e: Event, i: int)
    requires WellFormed(cat) && Ready(cat, l, pid, ws) && 1 <= i < |ws| && e in ws[i]
    ensures InSome(ws, e) && e in cat[pid] && e.Id() !in l && e.Id() !in Ids(ws[0])
  {
    assert InSome(ws, e);
    assert e !in ws[0];
    if f :| f in ws[0] && f.Id() == e.Id() {
      assert InSome(ws, f);
      SameId(cat[pid], e, f);
    }
  }

  lemma ReadyRestFresh(cat: Catalogue, l: Ledger, pid: string, ws: seq<seq<Event>>, e: Event)
    requires WellFormed(cat) && LedgerInv(cat, l) && Ready(cat, l, pid, ws) && ws != []
    requires InSome(ws[1..], e)
    ensures e in cat[pid] && e.Id() !in Marked(Recorded(l, ws[0], pid), Ids(ws[0]))
    ensures forall a :: AppliedTo(Marked(Recorded(l, ws[0], pid), Ids(ws[0])), e.Entity(), a) ==>
      Marked(Recorded(l, ws[0], pid), Ids(ws[0]))[a].sequence < e.Sequence()
  {
    var k :| 0 <= k < |ws[1..]| && e in ws[1..][k];
    var i := k + 1;
    assert e in ws[i];
    var m := Marked(Recorded(l, ws[0], pid), Ids(ws[0]));
    RestIsUnseen(cat, l, pid, ws, e, i);
    ReadyFirst(cat, l, pid, ws);
    RecordedFacts(cat, l, pid, ws[0]);
    forall a | AppliedTo(m, e.Entity(), a) ensures m[a].sequence < e.Sequence() {
      if a in Ids(ws[0]) {
        var f :| f in ws[0] && f.Id() == a;
        assert InSome(ws, f);
        LaterIsAbove(cat, pid, ws, e, f, i);
      } else {
        assert AppliedTo(l, e.Entity(), a);
      }
    }
  }

  lemma ReadyRestSettled(cat: Catalogue, l: Ledger, m: Ledger, pid: string, ws: seq<seq<Event>>, e: Event)
    requires Ready(cat, l, pid, ws) && ws != [] && Advances(l, m) && Ids(ws[0]) <= m.Keys
    requires e in cat[pid]
    ensures Settled(m, e) || InSome(ws[1..], e)
  {
    if Settled(l, e) {
      SettledMonotone(l, m, e);
    } else {
      var i :| 0 <= i < |ws| && e in ws[i];
      if i > 0 {
        assert e in ws[1..][i - 1];
      } else {
        assert e.Id() in Ids(ws[0]);
      }
    }
  }

  lemma WaveShapeRest(ws: seq<seq<Event>>)
    requires WaveShape(ws) && ws != []
    ensures WaveShape(ws[1..])
  {
    var rest := ws[1..];
    assert forall i :: 0 <= i < |rest| ==> rest[i] == ws[i + 1];
  }

  /** With nothing PENDING, readiness is about unseen events only. */
  lemma ReadyFresh(cat: Catalogue, m: Ledger, pid: string, rest: seq<seq<Event>>)
    requires pid in cat && WaveShape(rest) && NoPending(m)
    requires forall e :: InSome(rest, e) ==> e in cat[pid] && e.Id() !in m
    requires forall e, a :: InSome(rest, e) && AppliedTo(m, e.Entity(), a) ==> m[a].sequence < e.Sequence()
    requires forall e :: e in cat[pid] ==> Settled(m, e) || InSome(rest, e)
    ensures Ready(cat, m, pid, rest)
  {}

  lemma MarkedAdvances(cat: Catalogue, l: Ledger, pid: string, w: seq<Event>)
    requires WellFormed(cat) && LedgerInv(cat, l) && ReadyWave(cat, l, pid, w)
    ensures var m := Marked(Recorded(l, w, pid), Ids(w));
      LedgerInv(cat, m) && Advances(l, m) && NoPending(m) && Ids(w) <= m.Keys
  {
    var r := Recorded(l, w, pid);
    RecordedLedgerInv(cat, l, pid, w);
    MarkedLedgerInv(cat, r, pid, w);
    RecordedFacts(cat, l, pid, w);
    MarkedFacts(cat, r, pid, w);
  }

  lemma ReadyRest(cat: Catalogue, l: Ledger, pid: string, ws: seq<seq<Event>>)
    requires WellFormed(cat) && LedgerInv(cat, l) && Ready(cat, l, pid, ws) && ws != []
    ensures var m := Marked(Recorded(l, ws[0], pid), Ids(ws[0]));
      Ready(cat, m, pid, ws[1..]) && LedgerInv(cat, m) && Advances(l, m)
  {
    var m := Marked(Recorded(l, ws[0], pid), Ids(ws[0]));
    var rest := ws[1..];
    ReadyFirst(cat, l, pid, ws);
    MarkedAdvances(cat, l, pid, ws[0]);
    WaveShapeRest(ws);
    forall e | InSome(rest, e)
      ensures e in cat[pid] && e.Id() !in m && forall a :: AppliedTo(m, e.Entity(), a) ==> m[a].sequence < e.Sequence()
    {
      ReadyRestFresh(cat, l, pid, ws, e);
    }
    forall e | e in cat[pid] ensures Settled(m, e) || InSome(rest, e) {
      ReadyRestSettled(cat, l, m, pid, ws, e);
    }
    ReadyFresh(cat, m, pid, rest);
  }

  // ---- Every crash point of a plan ----

  /** Records added between two ledgers belong to `pid`. */
  ghost predicate AddsOnly(l: Ledger, m: Ledger, pid: string) {
    forall id :: id in m && id !in l ==> m[id].processingId == pid
  }

  /** Every event of `ws` is either still in `rest` or already applied. */
  ghost predicate Progress(l: Ledger, ws: seq<seq<Event>>, rest: seq<seq<Event>>) {
    forall e :: InSome(ws, e) ==> InSome(rest, e) || IsApplied(l, e.Id())
  }

  /** In state `x`, a run that started in `s` still has exactly the waves `rest` to do. */
  ghost predicate Resumable(cat: Catalogue, s: Store, x: Store, pid: string, ws: seq<seq<Event>>, rest: seq<seq<Event>>,
                            policy: DeletePolicy) {
    && LedgerInv(cat, x.ledger)
    && Ready(cat, x.ledger, pid, rest)
    && Advances(s.ledger, x.ledger) && AddsOnly(s.ledger, x.ledger, pid)
    && Progress(x.ledger, ws, rest)
    && ApplyAll(x, Plan(rest, pid, policy)) == ApplyAll(s, Plan(ws, pid, policy))
  }

  lemma WaveAddsOnly(l: Ledger, w: seq<Event>, pid: string)
    ensures AddsOnly(l, Recorded(l, w, pid), pid) && AddsOnly(l, Marked(Recorded(l, w, pid), Ids(w)), pid)
    ensures forall e :: e in w ==> IsApplied(Marked(Recorded(l, w, pid), Ids(w)), e.Id())
  {}

  lemma WaveProgress(l: Ledger, ws: seq<seq<Event>>)
    requires ws != [] && forall e :: e in ws[0] ==> IsApplied(l, e.Id())
    ensures Progress(l, ws, ws[1..])
  {
    forall e | InSome(ws, e) ensures InSome(ws[1..], e) || IsApplied(l, e.Id()) {
      var i :| 0 <= i < |ws| && e in ws[i];
      if i > 0 {
        assert e in ws[1..][i - 1];
      }
    }
  }

  lemma FirstWaveReach(cat: Catalogue, s: Store, pid: string, ws: seq<seq<Event>>, policy: DeletePolicy, n: nat)
    returns (rest: seq<seq<Event>>)
    requires WellFormed(cat) && LedgerInv(cat, s.ledger) && Ready(cat, s.ledger, pid, ws) && ws != []
    requires n < |WaveCommits(ws[0], pid, policy)|
    ensures Resumable(cat, s, ApplyAll(s, WaveCommits(ws[0], pid, policy)[..n]), pid, ws, rest, policy)
    ensures rest == ws || rest == ws[1..]
  {
    var w := ws[0];
    var x := ApplyAll(s, WaveCommits(w, pid, policy)[..n]);
    var later := Plan(ws[1..], pid, policy);
    WaveReach(s, w, pid, policy, n);
    WaveAddsOnly(s.ledger, w, pid);
    ReadyFirst(cat, s.ledger, pid, ws);
    WaveOneEventEach(cat, s.ledger, pid, w);
    WaveComplete(s, w, pid, policy);
    ApplyAllConcat(s, WaveCommits(w, pid, policy), later);
    if x == WaveDone(s, w, pid, policy) {
      ReadyRest(cat, s.ledger, pid, ws);
      WaveProgress(x.ledger, ws);
      rest := ws[1..];
    } else {
      RecordedFacts(cat, s.ledger, pid, w);
      RecordedLedgerInv(cat, s.ledger, pid, w);
      ReadyAfterPending(cat, s.ledger, pid, ws);
      WaveAbsorbs(s, x, w, pid, policy);
      WaveComplete(x, w, pid, policy);
      ApplyAllConcat(x, WaveCommits(w, pid, policy), later);
      rest := ws;
    }
  }

  /** A plan is its first wave and then the plan of the others, at every prefix. */
  lemma PlanStep(s: Store, ws: seq<seq<Event>>, pid: string, policy: DeletePolicy, n: nat)
    requires ws != [] && n <= |Plan(ws, pid, policy)|
    ensures |Plan(ws, pid, policy)| == |WaveCommits(ws[0], pid, policy)| + |Plan(ws[1..], pid, policy)|
    ensures n <= |WaveCommits(ws[0], pid, policy)| ==>
      ApplyAll(s, Plan(ws, pid, policy)[..n]) == ApplyAll(s, WaveCommits(ws[0], pid, policy)[..n])
    ensures n >= |WaveCommits(ws[0], pid, policy)| ==>
      ApplyAll(s, Plan(ws, pid, policy)[..n])
      == ApplyAll(WaveDone(s, ws[0], pid, policy), Plan(ws[1..], pid, policy)[..n - |WaveCommits(ws[0], pid, policy)|])
    ensures ApplyAll(s, Plan(ws, pid, policy)) == ApplyAll(WaveDone(s, ws[0], pid, policy), Plan(ws[1..], pid, policy))
  {
    var c, rest := WaveCommits(ws[0], pid, policy), Plan(ws[1..], pid, policy);
    assert Plan(ws, pid, policy) == c + rest;
    WaveComplete(s, ws[0], pid, policy);
    ConcatPrefix(c, rest, n);
    ApplyAllConcat(s, c, rest);
    if n >= |c| {
      ApplyAllConcat(s, c, rest[..n - |c|]);
    }
  }

  /** A plan, cut inside its wave `i`. */
  lemma PlanCut(ws: seq<seq<Event>>, pid: string, policy: DeletePolicy, i: nat, n: nat)
    requires i < |ws| && n <= |WaveCommits(ws[i], pid, policy)|
    ensures |Plan(ws[..i], pid, policy)| + n <= |Plan(ws, pid, policy)|
    ensures Plan(ws, pid, policy)[..|Plan(ws[..i], pid, policy)| + n]
            == Plan(ws[..i], pid, policy) + WaveCommits(ws[i], pid, policy)[..n]
    ensures Plan(ws[..i + 1], pid, policy) == Plan(ws[..i], pid, policy) + WaveCommits(ws[i], pid, policy)
  {
    var before, wave, after := ws[..i], [ws[i]], ws[i + 1..];
    assert ws[..i + 1] == before + wave && ws == (before + wave) + after;
    FlatMapConcat(before, wave, (w: seq<Event>) => WaveCommits(w, pid, policy));
    FlatMapConcat(before + wave, after, (w: seq<Event>) => WaveCommits(w, pid, policy));
    var c := WaveCommits(ws[i], pid, policy);
    assert wave[1..] == [] && Plan(wave, pid, policy) == c;
    ConcatPrefix(Plan(before, pid, policy) + c, Plan(after, pid, policy), |Plan(before, pid, policy)| + n);
    ConcatPrefix(Plan(before, pid, policy), c, |Plan(before, pid, policy)| + n);
  }

  /** Progress made in two stages adds up. */
  lemma AdvancesTransitive(l: Ledger, m: Ledger, n: Ledger, pid: string, ws: seq<seq<Event>>, mid: seq<seq<Event>>,
                           rest: seq<seq<Event>>)
    requires Advances(l, m) && AddsOnly(l, m, pid) && Progress(m, ws, mid)
    requires Advances(m, n) && AddsOnly(m, n, pid) && Progress(n, mid, rest)
    ensures Advances(l, n) && AddsOnly(l, n, pid) && Progress(n, ws, rest)
  {}

  ghost predicate Suffix<T>(xs: seq<T>, rest: seq<T>) {
    |rest| <= |xs| && rest == xs[|xs| - |rest|..]
  }

  lemma NothingLeft(cat: Catalogue, s: Store, pid: string, policy: DeletePolicy)
    requires LedgerInv(cat, s.ledger) && Ready(cat, s.ledger, pid, [])
    ensures Plan([], pid, policy) == [] && ApplyAll(s, []) == s
    ensures Resumable(cat, s, s, pid, [], [], policy)
  {
    hide LedgerInv, Ready;
  }

  /** Wherever a run is interrupted, what is left of it is a suffix of its waves. */
  lemma {:induction false} PlanReach(cat: Catalogue, s: Store, pid: string, ws: seq<seq<Event>>, policy: DeletePolicy,
                                     n: nat) returns (rest: seq<seq<Event>>)
    requires WellFormed(cat) && LedgerInv(cat, s.ledger) && Ready(cat, s.ledger, pid, ws)
    requires n <= |Plan(ws, pid, policy)|
    ensures Resumable(cat, s, ApplyAll(s, Plan(ws, pid, policy)[..n]), pid, ws, rest, policy)
    ensures Suffix(ws, rest)
    ensures n == |Plan(ws, pid, policy)| ==> rest == []
    ensures ws != [] && n >= |WaveCommits(ws[0], pid, policy)| ==> |rest| < |ws|
    decreases |ws|
  {
    hide Ready, LedgerInv, WellFormed, Recorded, Marked, Mutated, ApplyAll, Change.PkValue;
    if ws == [] {
      rest := [];
      NothingLeft(cat, s, pid, policy);
    } else {
      var size := |WaveCommits(ws[0], pid, policy)|;
      PlanStep(s, ws, pid, policy, n);
      if n < size {
        rest := FirstWaveReach(cat, s, pid, ws, policy, n);
      } else {
        ReadyRest(cat, s.ledger, pid, ws);
        var done := WaveDone(s, ws[0], pid, policy);
        rest := PlanReach(cat, done, pid, ws[1..], policy, n - size);
        WaveAddsOnly(s.ledger, ws[0], pid);
        WaveProgress(done.ledger, ws);
        AdvancesTransitive(s.ledger, done.ledger, ApplyAll(s, Plan(ws, pid, policy)[..n]).ledger, pid, ws, ws[1..],
                           rest);
      }
    }
  }

  /** Under HARD deletes the invariant holds at every crash point. */
  lemma {:induction false} PlanInv(cat: Catalogue, snap: Target, s: Store, pid: string, ws: seq<seq<Event>>, n: nat)
    requires WellFormed(cat) && Inv(cat, snap, s) && Ready(cat, s.ledger, pid, ws)
    requires n <= |Plan(ws, pid, HARD)|
    ensures Inv(cat, snap, ApplyAll(s, Plan(ws, pid, HARD)[..n]))
    decreases |ws|
  {
    if ws != [] {
      var size := |WaveCommits(ws[0], pid, HARD)|;
      PlanStep(s, ws, pid, HARD, n);
      ReadyFirst(cat, s.ledger, pid, ws);
      WaveInv(cat, snap, s, pid, ws[0]);
      if n <= size {
        WaveReach(s, ws[0], pid, HARD, n);
      } else {
        ReadyRest(cat, s.ledger, pid, ws);
        PlanInv(cat, snap, WaveDone(s, ws[0], pid, HARD), pid, ws[1..], n - size);
      }
    }
  }
}
