/** SOFT deletes are HARD deletes behind a filter (src/merge/merge_engine.py:74-157, target_store.py:136-156). */
module MergePolicies {
  import opened Cdc
  import opened MergeSpec
  import opened MergeInvariant
  import opened MergeHistory
  import opened MergeMonotone

  /** `read_current_table` without deleted rows. */
  function Visible(t: Target): Target { map k | k in t && !t[k].deleted :: t[k] }

  ghost predicate NoneDeleted(t: Target) { forall k :: k in t ==> !t[k].deleted }

  ghost predicate Bisimilar(hard: Store, soft: Store) {
    hard.ledger == soft.ledger && Visible(soft.target) == hard.target && NoneDeleted(hard.target)
  }

  /** The same commit under the SOFT policy. */
  function Soften(c: Commit): Commit {
    match c
    case MergeDeletes(es, pid, _) => MergeDeletes(es, pid, SOFT)
    case _ => c
  }

  ghost predicate HardCommit(c: Commit) { c.MergeDeletes? ==> c.policy == HARD }

  ghost predicate Softened(cs: seq<Commit>, ds: seq<Commit>) {
    |cs| == |ds| && forall i :: 0 <= i < |cs| ==> HardCommit(cs[i]) && ds[i] == Soften(cs[i])
  }

  lemma UpsertBisimilar(hard: Target, soft: Target, es: seq<Event>, pid: string)
    requires Visible(soft) == hard
    ensures Visible(Upserted(soft, es, pid)) == Upserted(hard, es, pid)
  {}

  lemma DeleteBisimilar(hard: Target, soft: Target, es: seq<Event>, pid: string)
    requires Visible(soft) == hard
    ensures Visible(Deleted(soft, es, pid, SOFT)) == Deleted(hard, es, pid, HARD)
  {}

  lemma CommitBisimilar(hard: Store, soft: Store, c: Commit)
    requires Bisimilar(hard, soft) && HardCommit(c)
    ensures Bisimilar(Apply(hard, c), Apply(soft, Soften(c)))
  {
    match c
    case MergeUpserts(es, pid) => UpsertBisimilar(hard.target, soft.target, es, pid);
    case MergeDeletes(es, pid, _) => DeleteBisimilar(hard.target, soft.target, es, pid);
    case RecordPending(_, _) =>
    case MarkApplied(_) =>
  }

  lemma {:induction false} CommitsBisimilar(hard: Store, soft: Store, cs: seq<Commit>, ds: seq<Commit>)
    requires Bisimilar(hard, soft) && Softened(cs, ds)
    ensures Bisimilar(ApplyAll(hard, cs), ApplyAll(soft, ds))
  {
    if cs != [] {
      var n := |cs| - 1;
      CommitsBisimilar(hard, soft, cs[..n], ds[..n]);
      CommitBisimilar(ApplyAll(hard, cs[..n]), ApplyAll(soft, ds[..n]), cs[n]);
    }
  }

  lemma SoftenedConcat(a: seq<Commit>, b: seq<Commit>, c: seq<Commit>, d: seq<Commit>)
    requires Softened(a, b) && Softened(c, d)
    ensures Softened(a + c, b + d)
  {}

  lemma WaveSoftened(w: seq<Event>, pid: string)
    ensures Softened(WaveCommits(w, pid, HARD), WaveCommits(w, pid, SOFT))
  {
    assert Softened([RecordPending(w, pid)], [RecordPending(w, pid)]);
    assert Softened(TargetCommits(w, pid, HARD), TargetCommits(w, pid, SOFT));
    assert Softened([MarkApplied(Ids(w))], [MarkApplied(Ids(w))]);
  }

  lemma {:induction false} PlanSoftened(ws: seq<seq<Event>>, pid: string)
    ensures Softened(Plan(ws, pid, HARD), Plan(ws, pid, SOFT))
  {
    if ws != [] {
      WaveSoftened(ws[0], pid);
      PlanSoftened(ws[1..], pid);
      SoftenedConcat(WaveCommits(ws[0], pid, HARD), WaveCommits(ws[0], pid, SOFT),
                     Plan(ws[1..], pid, HARD), Plan(ws[1..], pid, SOFT));
    }
  }

  /** One run, dying anywhere: SOFT and HARD stay in step, rejected runs included. No hypothesis on the events. */
  lemma AttemptBisimilar(hard: Store, soft: Store, pid: string, es: seq<Event>, n: nat)
    requires Bisimilar(hard, soft)
    ensures Bisimilar(Attempted(hard, pid, es, HARD, n), Attempted(soft, pid, es, SOFT, n))
  {
    var cs, ds := Commits(hard.ledger, pid, es, HARD), Commits(soft.ledger, pid, es, SOFT);
    if Decide(hard.ledger, pid, es).Ok? {
      PlanSoftened(Waves(Decide(hard.ledger, pid, es).value.Actionable()), pid);
    }
    assert Softened(cs, ds);
    assert Softened(Prefix(cs, n), Prefix(ds, n));
    CommitsBisimilar(hard, soft, Prefix(cs, n), Prefix(ds, n));
  }

  /** HARD/SOFT bisimulation: after any history the SOFT table without its deleted rows is the HARD table row for row,
      metadata included, and the ledgers are equal. No hypothesis on the events. */
  lemma {:induction false} PoliciesBisimilar(cat: Catalogue, snap: Target, history: seq<Attempt>)
    requires NoneDeleted(snap) && Submits(cat, history)
    ensures Bisimilar(After(cat, Initial(snap), HARD, history), After(cat, Initial(snap), SOFT, history))
  {
    if history == [] {
      assert Visible(snap) == snap;
    } else {
      var init, last := history[..|history| - 1], history[|history| - 1];
      PoliciesBisimilar(cat, snap, init);
      AttemptBisimilar(After(cat, Initial(snap), HARD, init), After(cat, Initial(snap), SOFT, init),
                       last.pid, cat[last.pid], last.survives);
    }
  }

  /** The refinement, carried over to SOFT deletes: the visible row is the latest applied effect. */
  lemma SoftRefinement(cat: Catalogue, snap: Target, history: seq<Attempt>, k: RowKey)
    requires WellFormed(cat) && NoneDeleted(snap) && Submits(cat, history)
    requires NoPending(After(cat, Initial(snap), SOFT, history).ledger)
    ensures var x := After(cat, Initial(snap), SOFT, history);
      Provenance(cat, x.ledger) && Shown(cat, x.ledger, snap, k, Lookup(Visible(x.target), k))
  {
    PoliciesBisimilar(cat, snap, history);
    CrashSafeRefinement(cat, snap, history, k);
  }

  lemma VisibleIsHard(cat: Catalogue, snap: Target, history: seq<Attempt>)
    requires NoneDeleted(snap) && Submits(cat, history)
    ensures After(cat, Initial(snap), SOFT, history).ledger == After(cat, Initial(snap), HARD, history).ledger
    ensures Visible(After(cat, Initial(snap), SOFT, history).target) == After(cat, Initial(snap), HARD, history).target
  {
    PoliciesBisimilar(cat, snap, history);
  }

  /** No resurrection, for the visible rows of a SOFT target. */
  lemma SoftNoResurrection(cat: Catalogue, snap: Target, history: seq<Attempt>, id: string)
    requires WellFormed(cat) && NoneDeleted(snap) && Submits(cat, history)
    requires IsApplied(After(cat, Initial(snap), SOFT, history).ledger, id)
    requires After(cat, Initial(snap), SOFT, history).ledger[id].operation == DELETE
    ensures var x := After(cat, Initial(snap), SOFT, history);
      && Provenance(cat, x.ledger)
      && var k := EventOf(cat, x.ledger, id).Key();
         k in Visible(x.target) ==> Visible(x.target)[k].sequence > x.ledger[id].sequence
  {
    VisibleIsHard(cat, snap, history);
    NoResurrection(cat, snap, history, id);
  }

  /** The visible rows of a SOFT target agree with the ledger. */
  lemma SoftRowsMatchLedger(cat: Catalogue, snap: Target, history: seq<Attempt>, k: RowKey)
    requires WellFormed(cat) && NoneDeleted(snap) && Submits(cat, history)
    requires k in Visible(After(cat, Initial(snap), SOFT, history).target)
    ensures var x := After(cat, Initial(snap), SOFT, history);
      (k in snap && Visible(x.target)[k] == snap[k]) || Vouched(x.ledger, Visible(x.target)[k])
  {
    VisibleIsHard(cat, snap, history);
    RowsMatchLedger(cat, snap, history, k);
  }

  /** The visible rows of a SOFT target never move backwards. */
  lemma SoftRowsNeverMoveBackwards(cat: Catalogue, snap: Target, history: seq<Attempt>, more: seq<Attempt>, k: RowKey)
    requires WellFormed(cat) && NoneDeleted(snap)
    requires Submits(cat, history) && Submits(cat, more) && Submits(cat, history + more)
    requires SnapshotBelow(cat, snap, k)
    requires k in Visible(After(cat, Initial(snap), SOFT, history).target)
    requires k in Visible(After(cat, Initial(snap), SOFT, history + more).target)
    ensures Visible(After(cat, Initial(snap), SOFT, history).target)[k].sequence
            <= Visible(After(cat, Initial(snap), SOFT, history + more).target)[k].sequence
  {
    VisibleIsHard(cat, snap, history);
    VisibleIsHard(cat, snap, history + more);
    RowsNeverMoveBackwards(cat, snap, history, more, k);
  }
}
