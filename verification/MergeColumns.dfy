/** What the commits of the MERGE write, column by column (src/merge/event_adapter.py:79-121, merge_engine.py:66-157),
    and what soft deletes keep over any series of commits. */
module MergeColumns {
  import opened Cdc
  import opened MergeSpec
  import opened MergeWave
  import opened MergePolicies
  import opened MergeInvariant
  import opened MergeHistory

  // ---- Columns ----

  /** The metadata columns name the event and the processing set. */
  predicate Stamped(row: Row, e: Event, pid: string) {
    && row.sequence == e.change.sequence && row.eventId == e.change.eventId && row.fingerprint == e.fingerprint
    && row.commitTs == e.change.commitTs && row.processingId == pid
    && row.operation == match e.change.operation
                        case INSERT => "INSERT"
                        case UPDATE => "UPDATE"
                        case DELETE => "DELETE"
                        case Unrecognised(raw) => raw
  }

  /** A schema column comes from the payload, or from the before image if there is no payload; failing that, from the
      business key. No other column is written. */
  ghost predicate FromEvent(image: Image, c: Change) {
    forall col ::
      if col !in SchemaColumns(c.table) then col !in image
      else if c.payload.Some? && col in c.payload.value then col in image && image[col] == c.payload.value[col]
      else if c.payload.None? && c.before.Some? && col in c.before.value then
        col in image && image[col] == c.before.value[col]
      else if col in c.businessKey then col in image && image[col] == c.businessKey[col]
      else col !in image
  }

  /** The row of an upsert. */
  ghost predicate UpsertedFrom(row: Row, e: Event, pid: string) {
    FromEvent(row.image, e.change) && Stamped(row, e, pid) && !row.deleted && row.deletedAt == None
  }

  /** The row of a soft delete: the business columns stand. */
  predicate TombstoneOf(row: Row, before: Row, e: Event, pid: string) {
    row.image == before.image && Stamped(row, e, pid) && row.deleted && row.deletedAt == Some(e.change.commitTs)
  }

  lemma RowFromEvent(e: Event, pid: string)
    ensures UpsertedFrom(RowOf(e, pid), e, pid)
  {
    hide SchemaColumns;
  }

  /** An upsert commit writes each event's row and leaves every other key alone. */
  lemma UpsertColumns(s: Store, es: seq<Event>, pid: string)
    requires OneEventEach(es)
    ensures var t := Apply(s, MergeUpserts(es, pid));
      && t.ledger == s.ledger
      && (forall k :: k in t.target <==> k in s.target || exists e :: e in es && e.Key() == k)
      && (forall e :: e in es ==> UpsertedFrom(t.target[e.Key()], e, pid))
      && forall k :: k in s.target && (forall e :: e in es ==> e.Key() != k) ==> t.target[k] == s.target[k]
  {
    hide Change.PkValue, RowOf, UpsertedFrom;
    forall e | e in es ensures UpsertedFrom(RowOf(e, pid), e, pid) && EventByKey(es, e.Key()) == e {
      RowFromEvent(e, pid);
    }
  }

  /** A soft delete commit changes no key; each deleted row keeps its image and takes the event's metadata, every other
      row stands. */
  lemma SoftDeleteColumns(s: Store, es: seq<Event>, pid: string)
    requires OneEventEach(es)
    ensures var t := Apply(s, MergeDeletes(es, pid, SOFT));
      && t.ledger == s.ledger && t.target.Keys == s.target.Keys
      && (forall e :: e in es && e.Key() in s.target ==>
            TombstoneOf(t.target[e.Key()], s.target[e.Key()], e, pid))
      && forall k :: k in s.target && (forall e :: e in es ==> e.Key() != k) ==> t.target[k] == s.target[k]
  {
    hide Change.PkValue;
  }

  /** A hard delete commit removes exactly the keys of its events. */
  lemma HardDeleteColumns(s: Store, es: seq<Event>, pid: string)
    ensures var t := Apply(s, MergeDeletes(es, pid, HARD));
      && t.ledger == s.ledger
      && (forall k :: k in t.target <==> k in s.target && forall e :: e in es ==> e.Key() != k)
      && forall k :: k in t.target ==> t.target[k] == s.target[k]
  {
    hide Change.PkValue;
  }

  // ---- One wave ----

  predicate HasUpsert(wave: seq<Event>) {
    exists e :: e in wave && (e.change.operation.INSERT? || e.change.operation.UPDATE?)
  }

  predicate HasDelete(wave: seq<Event>) { exists e :: e in wave && e.change.operation.DELETE? }

  ghost predicate UpsertsShow(after: Target, wave: seq<Event>, pid: string) {
    forall e :: e in wave && (e.change.operation.INSERT? || e.change.operation.UPDATE?) ==>
      e.Key() in after && UpsertedFrom(after[e.Key()], e, pid)
  }

  /** HARD deletes remove the row; SOFT deletes leave it, as a tombstone, where there was one. */
  ghost predicate DeletesShow(before: Target, after: Target, wave: seq<Event>, pid: string, policy: DeletePolicy) {
    forall e :: e in wave && e.change.operation.DELETE? ==>
      && (e.Key() in after <==> policy == SOFT && e.Key() in before)
      && (e.Key() in after ==> TombstoneOf(after[e.Key()], before[e.Key()], e, pid))
  }

  ghost predicate RestStands(before: Target, after: Target, wave: seq<Event>, upserts: bool, deletes: bool) {
    forall k :: Untouched(wave, k, upserts, deletes) ==> Lookup(after, k) == Lookup(before, k)
  }

  /** The rows before and after a wave of which the upserts, or the deletes, or both have been merged. */
  ghost predicate WaveWritten(before: Target, after: Target, wave: seq<Event>, pid: string, policy: DeletePolicy,
                              upserts: bool, deletes: bool) {
    && (upserts ==> UpsertsShow(after, wave, pid))
    && (deletes ==> DeletesShow(before, after, wave, pid, policy))
    && RestStands(before, after, wave, upserts, deletes)
  }

  /** No merged event of the wave addresses the key. */
  ghost predicate Untouched(wave: seq<Event>, k: RowKey, upserts: bool, deletes: bool) {
    forall e :: e in wave && e.Key() == k ==>
      && (upserts ==> !e.change.operation.INSERT? && !e.change.operation.UPDATE?)
      && (deletes ==> !e.change.operation.DELETE?)
  }

  lemma NothingWritten(t: Target, wave: seq<Event>, pid: string, policy: DeletePolicy)
    ensures WaveWritten(t, t, wave, pid, policy, false, false)
  {}

  lemma UpsertsWritten(t: Target, wave: seq<Event>, upserts: seq<Event>, pid: string, policy: DeletePolicy)
    requires OneEventEach(wave)
    requires forall e :: e in upserts <==> e in wave && (e.change.operation.INSERT? || e.change.operation.UPDATE?)
    ensures WaveWritten(t, Upserted(t, upserts, pid), wave, pid, policy, true, false)
  {
    var x := Upserted(t, upserts, pid);
    UpsertColumns(Store(map[], t), upserts, pid);
    hide Change.PkValue, UpsertedFrom, Upserted, OneEventEach;
    assert UpsertsShow(x, wave, pid);
    hide UpsertsShow;
    forall k | Untouched(wave, k, true, false) ensures Lookup(x, k) == Lookup(t, k) {
      forall e | e in upserts ensures e.Key() != k {}
    }
  }

  lemma DeletesWritten(t: Target, wave: seq<Event>, deletes: seq<Event>, pid: string, policy: DeletePolicy)
    requires OneEventEach(wave) && forall e :: e in deletes <==> e in wave && e.change.operation.DELETE?
    ensures WaveWritten(t, Deleted(t, deletes, pid, policy), wave, pid, policy, false, true)
  {
    var x := Deleted(t, deletes, pid, policy);
    match policy {
      case HARD => HardDeleteColumns(Store(map[], t), deletes, pid);
      case SOFT => SoftDeleteColumns(Store(map[], t), deletes, pid);
    }
    hide Change.PkValue, TombstoneOf, Deleted, OneEventEach;
    assert DeletesShow(t, x, wave, pid, policy);
    hide DeletesShow;
    forall k | Untouched(wave, k, false, true) ensures Lookup(x, k) == Lookup(t, k) {
      forall e | e in deletes ensures e.Key() != k {}
    }
  }

  /** A part that has no event counts as written either way. */
  lemma SameParts(a: Target, b: Target, wave: seq<Event>, pid: string, policy: DeletePolicy, u: bool, d: bool,
                  u': bool, d': bool)
    requires WaveWritten(a, b, wave, pid, policy, u, d)
    requires (u == u' || !HasUpsert(wave)) && (d == d' || !HasDelete(wave))
    ensures WaveWritten(a, b, wave, pid, policy, u', d')
  {
    hide Change.PkValue, UpsertedFrom, TombstoneOf;
    forall k | Untouched(wave, k, u', d') ensures Untouched(wave, k, u, d) {}
  }

  lemma UpsertsLast(b: Target, c: Target, wave: seq<Event>, pid: string, d: bool)
    requires OneEventEach(wave) && UpsertsShow(b, wave, pid) && RestStands(b, c, wave, false, d)
    ensures UpsertsShow(c, wave, pid)
  {
    hide Change.PkValue, UpsertedFrom;
    forall e | e in wave && (e.change.operation.INSERT? || e.change.operation.UPDATE?)
      ensures Lookup(c, e.Key()) == Lookup(b, e.Key())
    {
      assert Untouched(wave, e.Key(), false, d);
    }
  }

  lemma DeletesFollow(a: Target, b: Target, c: Target, wave: seq<Event>, pid: string, policy: DeletePolicy, u: bool)
    requires OneEventEach(wave) && RestStands(a, b, wave, u, false) && DeletesShow(b, c, wave, pid, policy)
    ensures DeletesShow(a, c, wave, pid, policy)
  {
    hide Change.PkValue, TombstoneOf;
    forall e | e in wave && e.change.operation.DELETE? ensures Lookup(b, e.Key()) == Lookup(a, e.Key()) {
      assert Untouched(wave, e.Key(), u, false);
    }
  }

  /** Upserts first, then deletes, at other keys. */
  lemma WrittenInTurn(a: Target, b: Target, c: Target, wave: seq<Event>, pid: string, policy: DeletePolicy, u: bool,
                      d: bool)
    requires OneEventEach(wave) && WaveWritten(a, b, wave, pid, policy, u, false)
    requires WaveWritten(b, c, wave, pid, policy, false, d)
    ensures WaveWritten(a, c, wave, pid, policy, u, d)
  {
    if u {
      UpsertsLast(b, c, wave, pid, d);
    }
    if d {
      DeletesFollow(a, b, c, wave, pid, policy, u);
    }
    hide Change.PkValue, UpsertsShow, DeletesShow, OneEventEach;
    forall k | Untouched(wave, k, u, d) ensures Lookup(c, k) == Lookup(a, k) {
      assert Untouched(wave, k, u, false) && Untouched(wave, k, false, d);
    }
  }

  // ---- What a deleted row remembers ----

  /** After `n` commits the key shows the image, and after every later one it holds it in a deleted row. */
  ghost predicate LastShownAt(s: Store, cs: seq<Commit>, k: RowKey, image: Image, n: nat)
    requires n <= |cs|
  {
    ShowsImage(ApplyAll(s, cs[..n]), k, image)
    && forall m :: n < m <= |cs| ==> HidesImage(ApplyAll(s, cs[..m]), k, image)
  }

  predicate ShowsImage(s: Store, k: RowKey, image: Image) {
    k in s.target && !s.target[k].deleted && s.target[k].image == image
  }

  predicate HidesImage(s: Store, k: RowKey, image: Image) {
    k in s.target && s.target[k].deleted && s.target[k].image == image
  }

  /** A commit that leaves a deleted row has kept the image of the row before it. */
  lemma DeletedKeepsImage(s: Store, c: Commit, k: RowKey)
    requires k in Apply(s, c).target && Apply(s, c).target[k].deleted
    ensures k in s.target && s.target[k].image == Apply(s, c).target[k].image
  {}

  lemma ShownBefore(s: Store, init: seq<Commit>, last: Commit, k: RowKey, image: Image, n: nat)
    requires n <= |init| && LastShownAt(s, init, k, image, n) && HidesImage(ApplyAll(s, init + [last]), k, image)
    ensures LastShownAt(s, init + [last], k, image, n)
  {
    var cs := init + [last];
    hide ApplyAll, ShowsImage, HidesImage;
    assert cs[..n] == init[..n] && cs[..|cs|] == cs;
    forall m | n < m <= |cs| ensures HidesImage(ApplyAll(s, cs[..m]), k, image) {
      assert m <= |init| ==> cs[..m] == init[..m];
    }
  }

  /** Over any commits at all, a deleted row holds the image of the last row that its key showed. */
  lemma {:induction false} CommitsRemember(s: Store, cs: seq<Commit>, k: RowKey)
    requires NoneDeleted(s.target)
    requires k in ApplyAll(s, cs).target && ApplyAll(s, cs).target[k].deleted
    ensures exists n :: 0 <= n <= |cs| && LastShownAt(s, cs, k, ApplyAll(s, cs).target[k].image, n)
  {
    var init, last := cs[..|cs| - 1], cs[|cs| - 1];
    var before, image := ApplyAll(s, init), ApplyAll(s, cs).target[k].image;
    DeletedKeepsImage(before, last, k);
    hide Apply;
    assert cs == init + [last] && cs[..|init|] == init && cs[..|cs|] == cs;
    if before.target[k].deleted {
      CommitsRemember(s, init, k);
      var n :| 0 <= n <= |init| && LastShownAt(s, init, k, image, n);
      ShownBefore(s, init, last, k, image, n);
    } else {
      assert LastShownAt(s, cs, k, image, |init|);
    }
  }

  /** Every commit made over a history. */
  ghost function CommitsOf(cat: Catalogue, s: Store, policy: DeletePolicy, history: seq<Attempt>): seq<Commit>
    requires Submits(cat, history)
  {
    if history == [] then []
    else
      var init, last := history[..|history| - 1], history[|history| - 1];
      CommitsOf(cat, s, policy, init)
      + Prefix(Commits(After(cat, s, policy, init).ledger, last.pid, cat[last.pid], policy), last.survives)
  }

  lemma {:induction false} AfterIsCommits(cat: Catalogue, s: Store, policy: DeletePolicy, history: seq<Attempt>)
    requires Submits(cat, history)
    ensures After(cat, s, policy, history) == ApplyAll(s, CommitsOf(cat, s, policy, history))
  {
    if history != [] {
      var init, last := history[..|history| - 1], history[|history| - 1];
      AfterIsCommits(cat, s, policy, init);
      ApplyAllConcat(s, CommitsOf(cat, s, policy, init),
        Prefix(Commits(After(cat, s, policy, init).ledger, last.pid, cat[last.pid], policy), last.survives));
    }
  }

  /** In every reachable state, mid-crash or not, a deleted row holds the business columns of the last row that was
      shown at its key, and has been hidden ever since. No hypothesis on the events. */
  lemma DeletedRowsRemember(cat: Catalogue, snap: Target, policy: DeletePolicy, history: seq<Attempt>, k: RowKey)
    requires NoneDeleted(snap) && Submits(cat, history)
    requires k in After(cat, Initial(snap), policy, history).target
    requires After(cat, Initial(snap), policy, history).target[k].deleted
    ensures var cs := CommitsOf(cat, Initial(snap), policy, history);
      && After(cat, Initial(snap), policy, history) == ApplyAll(Initial(snap), cs)
      && exists n ::
           0 <= n <= |cs|
           && LastShownAt(Initial(snap), cs, k, After(cat, Initial(snap), policy, history).target[k].image, n)
  {
    AfterIsCommits(cat, Initial(snap), policy, history);
    CommitsRemember(Initial(snap), CommitsOf(cat, Initial(snap), policy, history), k);
  }
}
