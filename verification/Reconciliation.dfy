/** The Delta tables agree with the mutation engine (src/merge/reconciliation.py, docs/04 section 9). */
module Reconciliation {
  import opened Cdc
  import opened MergeSpec
  import opened MergeInvariant
  import opened MergeTheorems
  import opened MergeHistory
  import opened MergePolicies
  import opened Oracle

  function Images(t: Target): map<RowKey, Image> { map k | k in t :: t[k].image }

  /** Attempt `i` of the history is accepted and survives all its commits. */
  ghost predicate CompletesAt(cat: Catalogue, s: Store, policy: DeletePolicy, history: seq<Attempt>, i: nat)
    requires Submits(cat, history) && i < |history|
  {
    var x := After(cat, s, policy, history[..i]);
    && Decide(x.ledger, history[i].pid, cat[history[i].pid]).Ok?
    && history[i].survives >= |Commits(x.ledger, history[i].pid, cat[history[i].pid], policy)|
  }

  /** Every processing set that was started has completed at some point. */
  ghost predicate AllCompleted(cat: Catalogue, s: Store, policy: DeletePolicy, history: seq<Attempt>)
    requires Submits(cat, history)
  {
    forall a :: a in history ==>
      exists i :: 0 <= i < |history| && history[i].pid == a.pid && CompletesAt(cat, s, policy, history, i)
  }

  /** A history is its first `i` attempts, then attempt `i`, then the others. */
  lemma HistorySplit(cat: Catalogue, s: Store, policy: DeletePolicy, history: seq<Attempt>, i: nat)
    requires Submits(cat, history) && i < |history|
    ensures var a := history[i];
      var y := Attempted(After(cat, s, policy, history[..i]), a.pid, cat[a.pid], policy, a.survives);
      After(cat, s, policy, history) == After(cat, y, policy, history[i + 1..])
  {
    var upTo := history[..i + 1];
    assert upTo[..i] == history[..i] && upTo + history[i + 1..] == history;
    AfterConcat(cat, s, policy, upTo, history[i + 1..]);
  }

  /** A set that completed once is finished at the end. */
  lemma CompletedIsFinished(cat: Catalogue, snap: Target, policy: DeletePolicy, history: seq<Attempt>, i: nat)
    requires WellFormed(cat) && Submits(cat, history) && i < |history|
    requires CompletesAt(cat, Initial(snap), policy, history, i)
    ensures Finished(cat, After(cat, Initial(snap), policy, history).ledger, history[i].pid)
  {
    var a := history[i];
    var x := After(cat, Initial(snap), policy, history[..i]);
    ReachableLedgerInv(cat, snap, policy, history[..i]);
    CompleteFinishes(cat, x, a.pid, policy, a.survives);
    FinishedForever(cat, Attempted(x, a.pid, cat[a.pid], policy, a.survives), a.pid, policy, history[i + 1..]);
    HistorySplit(cat, Initial(snap), policy, history, i);
  }

  /** One run adds records of its own set only. */
  lemma AttemptAddsOnly(cat: Catalogue, s: Store, pid: string, policy: DeletePolicy, n: nat, id: string)
    requires WellFormed(cat) && LedgerInv(cat, s.ledger) && pid in cat
    requires id in Attempted(s, pid, cat[pid], policy, n).ledger
    ensures var m := Attempted(s, pid, cat[pid], policy, n).ledger;
      if id in s.ledger then m[id].processingId == s.ledger[id].processingId else m[id].processingId == pid
  {
    CommitsAdvance(s, Prefix(Commits(s.ledger, pid, cat[pid], policy), n));
    if Decide(s.ledger, pid, cat[pid]).Ok? {
      var rest := AttemptReach(cat, s, pid, policy, n);
    }
    hide Decide, Commits, WellFormed, LedgerInv;
  }

  /** Every record belongs to a set that was started. */
  lemma {:induction false} RecordsAreStarted(cat: Catalogue, snap: Target, policy: DeletePolicy,
                                             history: seq<Attempt>, id: string)
    requires WellFormed(cat) && Submits(cat, history) && id in After(cat, Initial(snap), policy, history).ledger
    ensures exists a :: a in history && a.pid == After(cat, Initial(snap), policy, history).ledger[id].processingId
  {
    if history != [] {
      var init, last := history[..|history| - 1], history[|history| - 1];
      var x := After(cat, Initial(snap), policy, init);
      assert last in history;
      ReachableLedgerInv(cat, snap, policy, init);
      AttemptAddsOnly(cat, x, last.pid, policy, last.survives, id);
      hide Attempted, WellFormed, LedgerInv;
      if id in x.ledger {
        RecordsAreStarted(cat, snap, policy, init, id);
      }
    }
  }

  /** When every started set has completed, nothing is PENDING and every started set is finished. */
  lemma AllCompletedSettles(cat: Catalogue, snap: Target, policy: DeletePolicy, history: seq<Attempt>)
    requires WellFormed(cat) && Submits(cat, history) && AllCompleted(cat, Initial(snap), policy, history)
    ensures var l := After(cat, Initial(snap), policy, history).ledger;
      NoPending(l) && forall a :: a in history ==> Finished(cat, l, a.pid)
  {
    var l := After(cat, Initial(snap), policy, history).ledger;
    ReachableLedgerInv(cat, snap, policy, history);
    forall a | a in history ensures Finished(cat, l, a.pid) {
      var i :| 0 <= i < |history| && history[i].pid == a.pid && CompletesAt(cat, Initial(snap), policy, history, i);
      CompletedIsFinished(cat, snap, policy, history, i);
    }
    forall id ensures !IsPending(l, id) {
      if id in l {
        RecordsAreStarted(cat, snap, policy, history, id);
        var e := EventOf(cat, l, id);
      }
    }
  }

  /** `feed` lists, in any order and any number of times, exactly the changes of the sets that were started. */
  ghost predicate FeedOf(cat: Catalogue, history: seq<Attempt>, feed: seq<Change>)
    requires Submits(cat, history)
  {
    forall c :: c in feed <==> exists a, e :: a in history && e in cat[a.pid] && e.change == c
  }

  /** The payload fits the schema and carries the schema's columns of the business key, and an UPDATE's carries
      `updated_at`; failing that, the business key carries `updated_at` with the event's own timestamp. */
  predicate Complete(c: Change)
    requires c.payload.Some?
  {
    var key, columns := c.businessKey.Keys * SchemaColumns(c.table), c.payload.value.Keys;
    && columns <= SchemaColumns(c.table)
    && if c.operation != UPDATE || "updated_at" in columns then key <= columns
       else key - {"updated_at"} <= columns && "updated_at" in key && c.businessKey["updated_at"] == c.eventTs
  }

  /** For a valid upsert, Delta and engine write the same image exactly when it is complete. */
  lemma ImagesAgreeIff(c: Change)
    requires Valid(c) && c.Upserts()
    ensures DeltaImage(c) == OracleImage(c) <==> Complete(c)
  {
    SchemaHasKey(c.table);
    hide SchemaColumns;
    var image := c.payload.value;
    var key := c.businessKey.Keys * SchemaColumns(c.table);
    assert DeltaImage(c).Keys == key + image.Keys * SchemaColumns(c.table);
    if Complete(c) {
      assert DeltaImage(c) == OracleImage(c);
    } else if DeltaImage(c).Keys == OracleImage(c).Keys {
      assert image.Keys <= OracleImage(c).Keys && key <= OracleImage(c).Keys;
      assert OracleImage(c).Keys == image.Keys + {"updated_at"};
      assert "updated_at" in DeltaImage(c) && "updated_at" in key;
      assert DeltaImage(c)["updated_at"] == c.businessKey["updated_at"] && OracleImage(c)["updated_at"] == c.eventTs;
    }
  }

  /** Every entry of `image` is in `other`. */
  ghost predicate Covers(other: Image, image: Image) {
    forall col :: col in image ==> col in other && other[col] == image[col]
  }

  /** The payload fits the schema, and an UPDATE's carries `updated_at`; failing that, the business key carries it
      with the event's own timestamp. */
  predicate Fits(c: Change)
    requires c.payload.Some?
  {
    && c.payload.value.Keys <= SchemaColumns(c.table)
    && (c.operation == UPDATE && "updated_at" !in c.payload.value ==>
          "updated_at" in c.businessKey && c.businessKey["updated_at"] == c.eventTs)
  }

  /** The report compares every column of the engine's image, and no other: for a valid upsert it finds no difference
      exactly when the event fits. */
  lemma ImagesMatchIff(c: Change)
    requires Valid(c) && c.Upserts()
    ensures Covers(DeltaImage(c), OracleImage(c)) <==> Fits(c)
  {
    SchemaHasKey(c.table);
    hide SchemaColumns;
    var image := c.payload.value;
    if Covers(DeltaImage(c), OracleImage(c)) {
      forall col | col in image.Keys ensures col in SchemaColumns(c.table) {
        assert col in OracleImage(c);
      }
      if c.operation == UPDATE && "updated_at" !in image {
        assert "updated_at" in OracleImage(c) && OracleImage(c)["updated_at"] == c.eventTs;
      }
    }
  }

  ghost predicate AllValid(feed: seq<Change>) { forall c :: c in feed ==> Valid(c) }

  /** The state of knowledge at the end of a fully completed history. */
  ghost predicate SettledFeed(cat: Catalogue, history: seq<Attempt>, l: Ledger, feed: seq<Change>)
  {
    && WellFormed(cat) && Submits(cat, history) && LedgerInv(cat, l) && NoPending(l)
    && (forall a :: a in history ==> Finished(cat, l, a.pid))
    && (forall id :: id in l ==> exists a :: a in history && a.pid == l[id].processingId)
    && FeedOf(cat, history, feed) && Consistent(feed) && AllValid(feed)
  }

  lemma AppliedIsFed(cat: Catalogue, history: seq<Attempt>, l: Ledger, feed: seq<Change>, id: string)
    requires SettledFeed(cat, history, l, feed) && id in l
    ensures EventOf(cat, l, id).change in feed && AppliedAt(cat, l, EventOf(cat, l, id).Key(), id)
  {
    var e := EventOf(cat, l, id);
    var a :| a in history && a.pid == l[id].processingId;
    assert e in cat[a.pid];
    assert e.change in feed;
    assert !IsPending(l, id);
  }

  /** A recorded event was recorded from an equal change. */
  lemma RecordedIsItself(cat: Catalogue, history: seq<Attempt>, l: Ledger, feed: seq<Change>, e: Event)
    requires SettledFeed(cat, history, l, feed) && e.change in feed && e.Id() in l
    ensures AppliedAt(cat, l, e.Key(), e.Id()) && e.Sequence() == l[e.Id()].sequence
  {
    AppliedIsFed(cat, history, l, feed, e.Id());
    var f := EventOf(cat, l, e.Id());
    assert f.change.eventId == e.change.eventId && f.change == e.change;
  }

  lemma SupersededIsCovered(cat: Catalogue, history: seq<Attempt>, l: Ledger, feed: seq<Change>, a: Attempt,
                            e: Event, id: string)
    requires SettledFeed(cat, history, l, feed) && a in history && e in cat[a.pid] && AppliedTo(l, e.Entity(), id)
    ensures AppliedAt(cat, l, e.Key(), id)
  {
    hide Change.PkValue, DeltaImage, Settled, PendingAboveApplied, AppliedDistinct;
    AppliedIsFed(cat, history, l, feed, id);
    var f := EventOf(cat, l, id);
    assert Genuine(cat, l, id);
    InAll(cat, a.pid, e);
    InAll(cat, l[id].processingId, f);
    assert Agree(e, f);
  }

  lemma SettledIsCovered(cat: Catalogue, history: seq<Attempt>, l: Ledger, feed: seq<Change>, a: Attempt, e: Event)
    returns (id: string)
    requires SettledFeed(cat, history, l, feed) && a in history && e in cat[a.pid] && e.change in feed
    ensures AppliedAt(cat, l, e.Key(), id) && e.Sequence() <= l[id].sequence
  {
    if e.Id() in l {
      id := e.Id();
      RecordedIsItself(cat, history, l, feed, e);
    } else {
      assert Finished(cat, l, a.pid) && Settled(l, e);
      id :| AppliedTo(l, e.Entity(), id) && e.Sequence() < l[id].sequence;
      SupersededIsCovered(cat, history, l, feed, a, e, id);
    }
  }

  /** Every change fed to the engine is covered by an applied event at its key of at least its sequence number. */
  lemma FedIsCovered(cat: Catalogue, history: seq<Attempt>, l: Ledger, feed: seq<Change>, c: Change)
    returns (id: string)
    requires SettledFeed(cat, history, l, feed) && c in feed
    ensures AppliedAt(cat, l, c.Key(), id) && c.sequence <= l[id].sequence
  {
    var a, e :| a in history && e in cat[a.pid] && e.change == c;
    id := SettledIsCovered(cat, history, l, feed, a, e);
  }

  lemma LatestIsArgMax(cat: Catalogue, history: seq<Attempt>, l: Ledger, feed: seq<Change>, k: RowKey, id: string)
    requires SettledFeed(cat, history, l, feed) && Latest(cat, l, k, id)
    ensures ArgMax(feed, k, EventOf(cat, l, id).change)
  {
    AppliedIsFed(cat, history, l, feed, id);
    var f := EventOf(cat, l, id);
    forall d | At(feed, k, d) ensures d.sequence <= f.Sequence() {
      var other := FedIsCovered(cat, history, l, feed, d);
    }
  }

  /** Both stores show the effect of one and the same event, or what the snapshot holds. */
  ghost predicate SameSource(snap: Target, feed: seq<Change>, k: RowKey, delta: Option<Image>, oracle: Option<Image>) {
    || ((forall c :: !ArgMax(feed, k, c)) && delta == oracle == Lookup(Images(snap), k))
    || exists c :: ArgMax(feed, k, c) && oracle == OracleEffect(c)
                   && delta == if c.Upserts() then Some(DeltaImage(c)) else None
  }

  lemma SourceAt(cat: Catalogue, snap: Target, history: seq<Attempt>, l: Ledger, feed: seq<Change>, k: RowKey,
                 t: Target)
    requires SettledFeed(cat, history, l, feed) && Shown(cat, l, snap, k, Lookup(t, k))
    ensures SameSource(snap, feed, k, Lookup(Images(t), k), Lookup(OracleRun(Loaded(Images(snap)), feed).tables, k))
  {
    hide Change.PkValue, Genuine, WellFormed, OnePendingWave, DeltaImage;
    OracleArgMax(Images(snap), feed, k);
    if id :| Latest(cat, l, k, id) && Lookup(t, k) == EffectOf(cat, l, id) {
      LatestIsArgMax(cat, history, l, feed, k, id);
      assert ArgMax(feed, k, EventOf(cat, l, id).change);
    } else {
      forall c ensures !At(feed, k, c) {
        if At(feed, k, c) {
          var id := FedIsCovered(cat, history, l, feed, c);
        }
      }
    }
  }

  lemma OneArgMax(feed: seq<Change>, k: RowKey, c: Change, d: Change)
    requires Consistent(feed) && ArgMax(feed, k, c) && ArgMax(feed, k, d)
    ensures c == d
  {
    assert c.sequence == d.sequence;
  }

  /** The last upserts of the feed, key by key, are all complete. */
  ghost predicate LastComplete(feed: seq<Change>) {
    forall k, c :: ArgMax(feed, k, c) && c.Upserts() ==> c.payload.Some? && Complete(c)
  }

  /** The last upserts of the feed, key by key, all fit. */
  ghost predicate LastFits(feed: seq<Change>) {
    forall k, c :: ArgMax(feed, k, c) && c.Upserts() ==> c.payload.Some? && Fits(c)
  }

  /** The report of the reconciliation finds nothing: the same rows, and every column the engine keeps agrees. */
  ghost predicate Reconciles(delta: map<RowKey, Image>, oracle: map<RowKey, Image>) {
    delta.Keys == oracle.Keys && forall k :: k in oracle ==> Covers(delta[k], oracle[k])
  }

  ghost predicate SameSources(snap: Target, feed: seq<Change>, delta: map<RowKey, Image>, oracle: map<RowKey, Image>) {
    forall k :: SameSource(snap, feed, k, Lookup(delta, k), Lookup(oracle, k))
  }

  lemma SourceOf(snap: Target, feed: seq<Change>, delta: map<RowKey, Image>, oracle: map<RowKey, Image>, k: RowKey,
                 c: Change)
    requires Consistent(feed) && SameSources(snap, feed, delta, oracle) && ArgMax(feed, k, c)
    ensures Lookup(oracle, k) == OracleEffect(c)
    ensures Lookup(delta, k) == if c.Upserts() then Some(DeltaImage(c)) else None
  {
    hide DeltaImage, OracleImage, Change.PkValue;
    assert SameSource(snap, feed, k, Lookup(delta, k), Lookup(oracle, k));
    var d :| ArgMax(feed, k, d) && Lookup(oracle, k) == OracleEffect(d)
             && Lookup(delta, k) == if d.Upserts() then Some(DeltaImage(d)) else None;
    OneArgMax(feed, k, c, d);
  }

  lemma EqualIff(snap: Target, feed: seq<Change>, delta: map<RowKey, Image>, oracle: map<RowKey, Image>)
    requires Consistent(feed) && AllValid(feed) && SameSources(snap, feed, delta, oracle)
    ensures delta == oracle <==> LastComplete(feed)
  {
    forall k, c | ArgMax(feed, k, c) && c.Upserts()
      ensures c.payload.Some? && Lookup(delta, k) == Some(DeltaImage(c)) && Lookup(oracle, k) == Some(OracleImage(c))
      ensures DeltaImage(c) == OracleImage(c) <==> Complete(c)
    {
      SourceOf(snap, feed, delta, oracle, k, c);
      ImagesAgreeIff(c);
    }
    hide DeltaImage, OracleImage, Complete, Valid, Change.PkValue;
    if LastComplete(feed) {
      forall k ensures Lookup(delta, k) == Lookup(oracle, k) {
        assert SameSource(snap, feed, k, Lookup(delta, k), Lookup(oracle, k));
      }
      SameLookups(delta, oracle);
    }
  }

  lemma ReconcilesIff(snap: Target, feed: seq<Change>, delta: map<RowKey, Image>, oracle: map<RowKey, Image>)
    requires Consistent(feed) && AllValid(feed) && SameSources(snap, feed, delta, oracle)
    ensures Reconciles(delta, oracle) <==> LastFits(feed)
  {
    forall k, c | ArgMax(feed, k, c) && c.Upserts()
      ensures c.payload.Some? && Lookup(delta, k) == Some(DeltaImage(c)) && Lookup(oracle, k) == Some(OracleImage(c))
      ensures Covers(DeltaImage(c), OracleImage(c)) <==> Fits(c)
    {
      SourceOf(snap, feed, delta, oracle, k, c);
      ImagesMatchIff(c);
    }
    forall image: Image ensures Covers(image, image) {}
    hide DeltaImage, OracleImage, Fits, Covers, Valid, Change.PkValue;
    forall k
      ensures k in delta <==> k in oracle
      ensures k in oracle && LastFits(feed) ==> Covers(delta[k], oracle[k])
    {
      assert SameSource(snap, feed, k, Lookup(delta, k), Lookup(oracle, k));
    }
  }

  /** Oracle equality: once every processing set that was started has completed, the target rows are the tables the
      mutation engine reaches from the same snapshot by folding the same events, in any order, exactly when the last
      upsert of every key is complete; and the reconciliation report is clean exactly when they all fit. */
  lemma OracleEquality(cat: Catalogue, snap: Target, history: seq<Attempt>, feed: seq<Change>)
    requires WellFormed(cat) && Submits(cat, history) && AllCompleted(cat, Initial(snap), HARD, history)
    requires FeedOf(cat, history, feed) && Consistent(feed) && AllValid(feed)
    ensures var delta := Images(After(cat, Initial(snap), HARD, history).target);
      var oracle := OracleRun(Loaded(Images(snap)), feed).tables;
      && (delta == oracle <==> LastComplete(feed))
      && (Reconciles(delta, oracle) <==> LastFits(feed))
  {
    var x := After(cat, Initial(snap), HARD, history);
    ReachableLedgerInv(cat, snap, HARD, history);
    AllCompletedSettles(cat, snap, HARD, history);
    forall id | id in x.ledger ensures exists a :: a in history && a.pid == x.ledger[id].processingId {
      RecordsAreStarted(cat, snap, HARD, history, id);
    }
    var delta, oracle := Images(x.target), OracleRun(Loaded(Images(snap)), feed).tables;
    assert SettledFeed(cat, history, x.ledger, feed);
    hide SettledFeed, WellFormed, AllCompleted, FeedOf;
    forall k ensures SameSource(snap, feed, k, Lookup(delta, k), Lookup(oracle, k)) {
      CrashSafeRefinement(cat, snap, history, k);
      SourceAt(cat, snap, history, x.ledger, feed, k, x.target);
    }
    EqualIff(snap, feed, delta, oracle);
    ReconcilesIff(snap, feed, delta, oracle);
  }

  /** Completion does not depend on the delete policy. */
  lemma CompletionBisimilar(cat: Catalogue, snap: Target, history: seq<Attempt>, i: nat)
    requires NoneDeleted(snap) && Submits(cat, history) && i < |history|
    requires CompletesAt(cat, Initial(snap), SOFT, history, i)
    ensures CompletesAt(cat, Initial(snap), HARD, history, i)
  {
    PoliciesBisimilar(cat, snap, history[..i]);
    var l := After(cat, Initial(snap), HARD, history[..i]).ledger;
    PlanSoftened(Waves(Decide(l, history[i].pid, cat[history[i].pid]).value.Actionable()), history[i].pid);
  }

  /** Oracle equality under SOFT deletes: the visible rows agree with the engine. */
  lemma SoftOracleEquality(cat: Catalogue, snap: Target, history: seq<Attempt>, feed: seq<Change>)
    requires WellFormed(cat) && NoneDeleted(snap) && Submits(cat, history)
    requires AllCompleted(cat, Initial(snap), SOFT, history)
    requires FeedOf(cat, history, feed) && Consistent(feed) && AllValid(feed)
    ensures var delta := Images(Visible(After(cat, Initial(snap), SOFT, history).target));
      var oracle := OracleRun(Loaded(Images(snap)), feed).tables;
      && (delta == oracle <==> LastComplete(feed))
      && (Reconciles(delta, oracle) <==> LastFits(feed))
  {
    forall a | a in history
      ensures exists i ::
        0 <= i < |history| && history[i].pid == a.pid && CompletesAt(cat, Initial(snap), HARD, history, i)
    {
      var i :| 0 <= i < |history| && history[i].pid == a.pid && CompletesAt(cat, Initial(snap), SOFT, history, i);
      CompletionBisimilar(cat, snap, history, i);
    }
    PoliciesBisimilar(cat, snap, history);
    OracleEquality(cat, snap, history, feed);
  }
}
