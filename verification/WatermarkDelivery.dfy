/** When a row that has been delivered stays delivered (src/watermark/landing.py:42-72, control_store.py:203-242).

    Landing files are replaced by batch id, and a stale worker may adopt a window that another worker goes on to
    commit. A delivered row that the source has meanwhile moved out of the window can then be lost. These results say
    exactly when. */
module WatermarkDelivery {
  import opened Cdc
  import opened Ordering
  import opened Watermark
  import opened WatermarkSafety
  import opened WatermarkCompleteness
  import opened WatermarkRecovery

  /** The row lies in a SUCCESS file other than that of batch `b`. */
  ghost predicate HeldElsewhere(s: State, b: string, r: SourceRow) {
    exists i :: 0 <= i < |s.audits| && s.audits[i].status == SUCCESS && s.audits[i].window.Some?
                && s.audits[i].window.value.batch != b
                && s.audits[i].window.value.batch in s.landing && r in s.landing[s.audits[i].window.value.batch]
  }

  /** The step replaces the only SUCCESS file that may hold the row by one that lacks it. */
  ghost predicate Overwrites(s: State, step: Step, r: SourceRow) {
    && step.Advance? && step.worker < |s.workers| && step.worker < |s.audits|
    && s.workers[step.worker].Extracted?
    && s.workers[step.worker].rows != [] && r !in s.workers[step.worker].rows
    && !HeldElsewhere(s, s.workers[step.worker].window.batch, r)
  }

  predicate Lands(s: State, step: Step) {
    step.Advance? && step.worker < |s.workers| && step.worker < |s.audits| && s.workers[step.worker].Extracted?
    && s.workers[step.worker].rows != []
  }

  /** No step un-commits a run or changes its window. */
  lemma SuccessKept(s: State, step: Step, batchOf: BatchId)
    requires CasInv(s)
    ensures var t := Next(s, step, batchOf);
      && |t.audits| >= |s.audits|
      && forall i :: 0 <= i < |s.audits| && s.audits[i].status == SUCCESS ==> t.audits[i] == s.audits[i]
  {
    if Commits(s, step) {
      assert WorkerOk(s, step.worker);
    } else {
      QuietStep(s, step, batchOf);
    }
  }

  lemma LandingOnlyByLands(s: State, step: Step, batchOf: BatchId)
    requires !Lands(s, step)
    ensures Next(s, step, batchOf).landing == s.landing
  {
    hide Capture, Extract, Recoverable;
  }

  lemma KeptElsewhere(s: State, t: State, r: SourceRow)
    requires Delivered(s, r) && t.landing == s.landing && |t.audits| >= |s.audits|
    requires forall i :: 0 <= i < |s.audits| && s.audits[i].status == SUCCESS ==> t.audits[i] == s.audits[i]
    ensures Delivered(t, r)
  {
    var i :| 0 <= i < |s.audits| && s.audits[i].status == SUCCESS && s.audits[i].window.Some?
             && s.audits[i].window.value.batch in s.landing && r in s.landing[s.audits[i].window.value.batch];
    assert t.audits[i] == s.audits[i];
  }

  /** What landing does to a delivered row. */
  lemma LandingDelivery(s: State, t: State, b: string, rows: seq<SourceRow>, r: SourceRow)
    requires Delivered(s, r) && t.audits == s.audits && t.landing == s.landing[b := rows]
    ensures Delivered(t, r) <==> r in rows || HeldElsewhere(s, b, r)
  {
    var i :| 0 <= i < |s.audits| && s.audits[i].status == SUCCESS && s.audits[i].window.Some?
             && s.audits[i].window.value.batch in s.landing && r in s.landing[s.audits[i].window.value.batch];
    if HeldElsewhere(s, b, r) {
      var j :| 0 <= j < |s.audits| && s.audits[j].status == SUCCESS && s.audits[j].window.Some?
               && s.audits[j].window.value.batch != b
               && s.audits[j].window.value.batch in s.landing && r in s.landing[s.audits[j].window.value.batch];
      assert r in t.landing[t.audits[j].window.value.batch];
    } else {
      assert s.audits[i].window.value.batch == b;
      if r in rows {
        assert r in t.landing[t.audits[i].window.value.batch];
      }
      if Delivered(t, r) {
        var k :| 0 <= k < |t.audits| && t.audits[k].status == SUCCESS && t.audits[k].window.Some?
                 && t.audits[k].window.value.batch in t.landing && r in t.landing[t.audits[k].window.value.batch];
        assert t.audits[k].window.value.batch == b;
      }
    }
  }

  /** Exactly one kind of step loses a delivered row: a landing, on the batch id of the row's only SUCCESS file, of rows
      that lack it. */
  lemma StepLosesIff(s: State, step: Step, batchOf: BatchId, r: SourceRow)
    requires CasInv(s) && Delivered(s, r)
    ensures !Delivered(Next(s, step, batchOf), r) <==> Overwrites(s, step, r)
  {
    var t := Next(s, step, batchOf);
    if Lands(s, step) {
      var w := s.workers[step.worker];
      LandingDelivery(s, t, w.window.batch, w.rows, r);
    } else {
      SuccessKept(s, step, batchOf);
      LandingOnlyByLands(s, step, batchOf);
      KeptElsewhere(s, t, r);
    }
  }

  // ---- A worker that can still commit overwrites nothing ----

  ghost predicate SuccessBatch(s: State, b: string) {
    exists i :: 0 <= i < |s.audits| && s.audits[i].status == SUCCESS && s.audits[i].window.Some?
                && s.audits[i].window.value.batch == b
  }

  /** Committed windows end at or below the stored watermark. */
  lemma SuccessBelowWatermark(s: State, j: nat)
    requires CasInv(s) && j < |s.audits| && s.audits[j].status == SUCCESS
    ensures s.audits[j].window.Some? && Le(WindowOf(s, j).high, s.watermark)
  {
    assert AuditOk(s, j);
    var v := WindowOf(s, j).version;
    assert SuccessAt(s, j, v);
    CursorOrder();
    if v != s.version - 1 {
      assert Committed(s, v + 1);
      var i :| SuccessAt(s, i, v + 1);
      assert AuditOk(s, i);
    }
  }

  lemma CommittedBatchDiffers(s: State, w: Window, j: nat, batchOf: BatchId)
    requires CasInv(s) && Injective(batchOf) && Lt(w.low, w.high) && w.low == s.watermark
    requires w.batch == batchOf(w.low, w.high)
    requires j < |s.audits| && s.audits[j].status == SUCCESS && s.audits[j].window.Some? && AuditData(s, j, batchOf)
    ensures WindowOf(s, j).batch != w.batch
  {
    SuccessBelowWatermark(s, j);
    CursorOrder();
    hide CasInv, WatermarkCompleteness.Named;
    var u := WindowOf(s, j);
    assert u.batch == batchOf(u.low, u.high) && !Eq(u.high, w.high);
  }

  lemma CurrentBatchIsFresh(s: State, i: nat, batchOf: BatchId)
    requires CasInv(s) && DataInv(s, batchOf) && Injective(batchOf)
    requires i < |s.workers| && s.workers[i].Extracted? && s.workers[i].window.version == s.version
    ensures !SuccessBatch(s, s.workers[i].window.batch)
  {
    var w := s.workers[i].window;
    assert WorkerOk(s, i) && WorkerData(s, i, batchOf);
    forall j | 0 <= j < |s.audits| && s.audits[j].status == SUCCESS && s.audits[j].window.Some?
      ensures s.audits[j].window.value.batch != w.batch
    {
      assert AuditData(s, j, batchOf);
      CommittedBatchDiffers(s, w, j, batchOf);
    }
    hide CasInv, DataInv, Injective;
  }

  /** Only a stale worker can lose a row: one whose version has already been committed by another. */
  lemma OnlyStaleWorkersLose(s: State, step: Step, batchOf: BatchId, r: SourceRow)
    requires CasInv(s) && DataInv(s, batchOf) && Injective(batchOf)
    requires Delivered(s, r) && !Delivered(Next(s, step, batchOf), r)
    ensures Lands(s, step) && s.workers[step.worker].window.version < s.version
    ensures SuccessBatch(s, s.workers[step.worker].window.batch)
  {
    StepLosesIff(s, step, batchOf, r);
    var i := step.worker;
    var j :| 0 <= j < |s.audits| && s.audits[j].status == SUCCESS && s.audits[j].window.Some?
             && s.audits[j].window.value.batch in s.landing && r in s.landing[s.audits[j].window.value.batch];
    assert s.audits[j].window.value.batch == s.workers[i].window.batch;
    assert WorkerOk(s, i);
    if s.workers[i].window.version == s.version {
      CurrentBatchIsFresh(s, i, batchOf);
    }
  }

  /** In every interleaving, the landing of a worker whose version is the stored one keeps every delivered row. */
  lemma CurrentLandingKeeps(source: seq<SourceRow>, steps: seq<Step>, i: nat, batchOf: BatchId, r: SourceRow)
    requires Injective(batchOf) && FreshSteps(Origin(source), steps, batchOf)
    requires var s := Steps(Origin(source), steps, batchOf);
      i < |s.workers| && s.workers[i].Extracted? && s.workers[i].window.version == s.version && Delivered(s, r)
    ensures Delivered(Next(Steps(Origin(source), steps, batchOf), Advance(i), batchOf), r)
  {
    var s := Steps(Origin(source), steps, batchOf);
    CasSafety(source, steps, batchOf);
    ReachableData(source, steps, batchOf);
    if !Delivered(Next(s, Advance(i), batchOf), r) {
      OnlyStaleWorkersLose(s, Advance(i), batchOf, r);
    }
  }

  /** A stale landing on the batch id of a SUCCESS run keeps all delivered rows exactly when its rows contain every
      row of the file it replaces that no other SUCCESS file holds. */
  lemma StaleLandingKeepsIff(s: State, i: nat, batchOf: BatchId)
    requires CasInv(s) && Lands(s, Advance(i)) && SuccessBatch(s, s.workers[i].window.batch)
    requires s.workers[i].window.batch in s.landing
    ensures var b, rows, t := s.workers[i].window.batch, s.workers[i].rows, Next(s, Advance(i), batchOf);
      (forall r :: Delivered(s, r) ==> Delivered(t, r))
      <==> forall r :: r in s.landing[b] ==> r in rows || HeldElsewhere(s, b, r)
  {
    var b, rows, t := s.workers[i].window.batch, s.workers[i].rows, Next(s, Advance(i), batchOf);
    var j :| 0 <= j < |s.audits| && s.audits[j].status == SUCCESS && s.audits[j].window.Some?
             && s.audits[j].window.value.batch == b;
    forall r | r in s.landing[b] ensures Delivered(s, r) {
      assert r in s.landing[s.audits[j].window.value.batch];
    }
    forall r | Delivered(s, r)
      ensures Delivered(t, r) <==> r in rows || HeldElsewhere(s, b, r)
      ensures r in s.landing[b] || HeldElsewhere(s, b, r)
    {
      StepLosesIff(s, Advance(i), batchOf, r);
      var k :| 0 <= k < |s.audits| && s.audits[k].status == SUCCESS && s.audits[k].window.Some?
               && s.audits[k].window.value.batch in s.landing && r in s.landing[s.audits[k].window.value.batch];
    }
  }

  // ---- Sequential operation ----

  lemma SequentialStepKeeps(s: State, step: Step, batchOf: BatchId, r: SourceRow)
    requires UpToDate(s) && DataInv(s, batchOf) && Injective(batchOf) && Sequential(s, step) && Delivered(s, r)
    ensures Delivered(Next(s, step, batchOf), r)
  {
    assert Lands(s, step) ==> WorkerOk(s, step.worker);
    if !Delivered(Next(s, step, batchOf), r) {
      OnlyStaleWorkersLose(s, step, batchOf, r);
    }
  }

  /** With one worker at a time, what has been delivered stays delivered forever. */
  lemma {:induction false} SequentialKeepsDelivered(source: seq<SourceRow>, steps: seq<Step>, more: seq<Step>,
                                                    batchOf: BatchId, r: SourceRow)
    requires Injective(batchOf) && FreshSteps(Origin(source), steps + more, batchOf)
    requires SequentialSteps(Origin(source), steps + more, batchOf)
    requires Delivered(Steps(Origin(source), steps, batchOf), r)
    ensures Delivered(Steps(Origin(source), steps + more, batchOf), r)
    decreases |more|
  {
    if more == [] {
      assert steps + more == steps;
    } else {
      var init := more[..|more| - 1];
      assert (steps + more)[..|steps + more| - 1] == steps + init;
      SequentialKeepsDelivered(source, steps, init, batchOf, r);
      SequentialUpToDate(source, steps + init, batchOf);
      ReachableData(source, steps + init, batchOf);
      SequentialStepKeeps(Steps(Origin(source), steps + init, batchOf), more[|more| - 1], batchOf, r);
    }
  }

  // ---- A row that is lost ----

  function Times(step: Step, n: nat): seq<Step> { seq(n, i => step) }

  lemma {:induction false} StepsConcat(s: State, a: seq<Step>, b: seq<Step>, batchOf: BatchId)
    ensures Steps(s, a + b, batchOf) == Steps(Steps(s, a, batchOf), b, batchOf)
    ensures FreshSteps(s, a, batchOf) && FreshSteps(Steps(s, a, batchOf), b, batchOf) ==> FreshSteps(s, a + b, batchOf)
    decreases |b|
  {
    hide Next, FreshStep;
    if b == [] {
      assert a + b == a;
    } else {
      StepsConcat(s, a, b[..|b| - 1], batchOf);
      assert (a + b)[..|a + b| - 1] == a + b[..|b| - 1];
    }
  }

  lemma {:induction false} QuietSteps(s: State, steps: seq<Step>, batchOf: BatchId)
    requires forall k :: 0 <= k < |steps| ==> !steps[k].Edit?
    ensures FreshSteps(s, steps, batchOf)
  {
    hide Next, FreshChange;
    if steps != [] {
      QuietSteps(s, steps[..|steps| - 1], batchOf);
    }
  }

  lemma {:induction false} TimesIsUndisturbed(s: State, i: nat, n: nat, batchOf: BatchId)
    ensures Steps(s, Times(Advance(i), n), batchOf) == Undisturbed(s, i, n, batchOf)
    decreases n
  {
    hide Next;
    if n > 0 {
      var t := Next(s, Advance(i), batchOf);
      TimesIsUndisturbed(t, i, n - 1, batchOf);
      assert [Advance(i)][..0] == [];
      assert Steps(s, [Advance(i)], batchOf) == t;
      StepsConcat(s, [Advance(i)], Times(Advance(i), n - 1), batchOf);
      assert [Advance(i)] + Times(Advance(i), n - 1) == Times(Advance(i), n);
    }
  }

  /** One phase: possibly a source change, then `n` steps of one worker. */
  lemma PhaseSteps(s: State, first: Step, i: nat, n: nat, batchOf: BatchId)
    ensures Steps(s, [first] + Times(Advance(i), n), batchOf) == Undisturbed(Next(s, first, batchOf), i, n, batchOf)
    ensures FreshStep(s, first) ==> FreshSteps(s, [first] + Times(Advance(i), n), batchOf)
  {
    hide Next, FreshChange;
    assert [first][..0] == [];
    assert Steps(s, [first], batchOf) == Next(s, first, batchOf);
    assert FreshStep(s, first) ==> FreshSteps(s, [first], batchOf);
    StepsConcat(s, [first], Times(Advance(i), n), batchOf);
    TimesIsUndisturbed(Next(s, first, batchOf), i, n, batchOf);
    QuietSteps(Next(s, first, batchOf), Times(Advance(i), n), batchOf);
  }

  const OPENED := Audit(None, RUNNING, 0)

  /** An attempt that captures its own window, up to its landing. */
  lemma FreshWorkerLands(s: State, i: nat, w: Window, rows: seq<SourceRow>, batchOf: BatchId)
    requires i < |s.workers| && i < |s.audits| && s.workers[i] == Worker.Fresh(w.version, w.low)
    requires s.audits[i] == OPENED
    requires w == Window(w.version, w.low, Capture(s.source), batchOf(w.low, Capture(s.source)))
    requires w.high != INITIAL && Lt(w.low, w.high) && rows == Extract(s.source, w.low, w.high) && rows != []
    ensures Undisturbed(s, i, 4, batchOf)
            == s.(audits := s.audits[i := Audit(Some(w), RUNNING, 0)], workers := s.workers[i := Landed(w, rows)],
                  landing := s.landing[w.batch := rows])
  {
    var recorded := s.audits[i := Audit(Some(w), RUNNING, 0)];
    var s1 := Next(s, Advance(i), batchOf);
    assert s1 == s.(workers := s.workers[i := Resolved(w)]);
    var s2 := Next(s1, Advance(i), batchOf);
    assert s2 == s.(workers := s1.workers[i := Worker.Recorded(w)], audits := recorded);
    var s3 := Next(s2, Advance(i), batchOf);
    assert s3 == s2.(workers := s2.workers[i := Extracted(w, rows)]);
    var s4 := Next(s3, Advance(i), batchOf);
    assert s4 == s2.(workers := s3.workers[i := Landed(w, rows)], landing := s.landing[w.batch := rows]);
    hide Next, Capture, Extract, Lt;
    assert s4.workers == s.workers[i := Landed(w, rows)];
    FourSteps(s, i, batchOf);
  }

  /** A first attempt up to its landing, when nothing is recoverable. */
  lemma FreshRunLands(s: State, w: Window, rows: seq<SourceRow>, batchOf: BatchId)
    requires |s.audits| == |s.workers| && LatestUnfinished(s.audits) == None
    requires w == Window(s.version, s.watermark, Capture(s.source), batchOf(s.watermark, Capture(s.source)))
    requires w.high != INITIAL && Lt(w.low, w.high) && rows == Extract(s.source, w.low, w.high) && rows != []
    ensures Undisturbed(Next(s, Begin, batchOf), |s.workers|, 7, batchOf)
            == State(s.version, s.watermark, s.audits + [Audit(Some(w), RUNNING, 0)], s.workers + [Landed(w, rows)],
                     s.landing[w.batch := rows], s.source)
  {
    var i := |s.workers|;
    var t := s.(audits := s.audits + [OPENED], workers := s.workers + [Worker.Fresh(s.version, s.watermark)]);
    FreshRunReads(s, batchOf);
    hide Next, Capture, Extract, Lt, LatestUnfinished;
    FreshWorkerLands(t, i, w, rows, batchOf);
    UndisturbedAdds(Next(s, Begin, batchOf), i, 3, 4, batchOf);
    assert t.audits[i := Audit(Some(w), RUNNING, 0)] == s.audits + [Audit(Some(w), RUNNING, 0)];
    assert t.workers[i := Landed(w, rows)] == s.workers + [Landed(w, rows)];
  }

  lemma FourSteps(s: State, i: nat, batchOf: BatchId)
    ensures Undisturbed(s, i, 4, batchOf)
            == Next(Next(Next(Next(s, Advance(i), batchOf), Advance(i), batchOf), Advance(i), batchOf), Advance(i),
                    batchOf)
  {
    hide Next;
    var t := Next(Next(s, Advance(i), batchOf), Advance(i), batchOf);
    assert Undisturbed(t, i, 2, batchOf) == Next(Next(t, Advance(i), batchOf), Advance(i), batchOf) by {
      assert Undisturbed(Next(t, Advance(i), batchOf), i, 1, batchOf)
        == Next(Next(t, Advance(i), batchOf), Advance(i), batchOf);
    }
    assert Undisturbed(Next(s, Advance(i), batchOf), i, 3, batchOf) == Undisturbed(t, i, 2, batchOf);
  }

  lemma FreshRunReads(s: State, batchOf: BatchId)
    requires |s.audits| == |s.workers| && LatestUnfinished(s.audits) == None
    ensures Undisturbed(Next(s, Begin, batchOf), |s.workers|, 3, batchOf)
            == s.(audits := s.audits + [OPENED], workers := s.workers + [Worker.Fresh(s.version, s.watermark)])
  {
    var i, v, m := |s.workers|, s.version, s.watermark;
    var a := s.audits + [OPENED];
    assert a[..|a| - 1] == s.audits;
    var s1 := Next(s, Begin, batchOf);
    assert s1 == s.(audits := a, workers := s.workers + [Started]);
    var s2 := Next(s1, Advance(i), batchOf);
    assert s2 == s.(audits := a, workers := s.workers + [Read(v, m)]);
    var s3 := Next(s2, Advance(i), batchOf);
    assert s3 == s.(audits := a, workers := s.workers + [Checking(v, m, v, m)]);
    var s4 := Next(s3, Advance(i), batchOf);
    assert s4 == s.(audits := a, workers := s.workers + [Worker.Fresh(v, m)]);
    hide Next;
    assert Undisturbed(s3, i, 1, batchOf) == s4 && Undisturbed(s2, i, 2, batchOf) == s4;
  }

  /** The last two steps of an attempt that has landed. */
  lemma LandedCommits(s: State, i: nat, w: Window, rows: seq<SourceRow>, batchOf: BatchId)
    requires i < |s.workers| && i < |s.audits| && s.workers[i] == Landed(w, rows) && w.version == s.version
    requires w.batch in s.landing && s.landing[w.batch] == rows
    ensures Undisturbed(s, i, 2, batchOf)
            == State(s.version + 1, w.high, s.audits[i := s.audits[i].(status := SUCCESS, rows := |rows|)],
                     s.workers[i := Done], s.landing, s.source)
  {
    var s1 := Next(s, Advance(i), batchOf);
    assert s1 == s.(workers := s.workers[i := Verified(w, rows)]);
    var s2 := Next(s1, Advance(i), batchOf);
    assert s1.workers[i := Done] == s.workers[i := Done];
    hide Next;
    assert Undisturbed(s1, i, 1, batchOf) == s2;
  }

  /** Three rows in ascending order of cursor: `r1` will be delivered, and then updated to `moved`. */
  predicate Ascending(r0: SourceRow, r1: SourceRow, moved: SourceRow) {
    && Lt(INITIAL, r0.Position()) && Lt(r0.Position(), r1.Position()) && Lt(r1.Position(), moved.Position())
    && r0.pk != r1.pk == moved.pk
  }

  lemma SmallSelected(a: SourceRow, b: SourceRow, low: Cursor, high: Cursor)
    ensures Selected([a], low, high) == if InWindow(a, low, high) then [a] else []
    ensures Selected([a, b], low, high) == Selected([a], low, high) + if InWindow(b, low, high) then [b] else []
  {
    hide InWindow;
    FilterShort(a, b, (r: SourceRow) => InWindow(r, low, high));
  }

  lemma SortOne(a: SourceRow)
    ensures Sort([a], ExtractLe) == [a]
  {
    hide ExtractLe;
    assert [a][1..] == [];
    assert Sort([a][1..], ExtractLe) == [];
    assert Insert(a, [], ExtractLe) == [a];
  }

  lemma SmallExtract(a: SourceRow, b: SourceRow, low: Cursor, high: Cursor)
    ensures InWindow(a, low, high) ==> Extract([a], low, high) == [a]
    ensures InWindow(a, low, high) && !InWindow(b, low, high) ==> Extract([a, b], low, high) == [a]
    ensures !InWindow(a, low, high) && InWindow(b, low, high) ==> Extract([a, b], low, high) == [b]
  {
    SmallSelected(a, b, low, high);
    SortOne(a);
    SortOne(b);
    hide InWindow, Selected, Sort;
    var none: seq<SourceRow> := [];
    assert [a] + none == [a] && none + [b] == [b];
  }

  lemma SmallCapture(a: SourceRow, b: SourceRow)
    requires Lt(INITIAL, a.Position()) && Lt(a.Position(), b.Position())
    ensures Capture([a]) == a.Position() && Capture([a, b]) == b.Position()
  {
    assert [a][..0] == [] && Capture([]) == INITIAL;
    assert Capture([a]) == a.Position();
    assert [a, b][..1] == [a];
  }

  lemma SmallWindows(r0: SourceRow, r1: SourceRow, moved: SourceRow)
    requires Ascending(r0, r1, moved)
    ensures Capture([r0]) == r0.Position() && Capture([r0, r1]) == r1.Position()
    ensures Extract([r0], INITIAL, r0.Position()) == [r0]
    ensures Extract([r0, r1], r0.Position(), r1.Position()) == [r1]
    ensures Extract([r0, moved], INITIAL, r1.Position()) == [r0]
  {
    CursorOrder();
    SmallCapture(r0, r1);
    SmallExtract(r0, r1, INITIAL, r0.Position());
    SmallExtract(r0, r1, r0.Position(), r1.Position());
    SmallExtract(r0, moved, INITIAL, r1.Position());
  }

  datatype Scene = Scene(r0: SourceRow, r1: SourceRow, moved: SourceRow, batchOf: BatchId) {
    /** The window that is committed first. */
    function First(): Window { Window(1, INITIAL, r0.Position(), batchOf(INITIAL, r0.Position())) }

    /** The window that delivers `r1`. */
    function Second(): Window { Window(2, r0.Position(), r1.Position(), batchOf(r0.Position(), r1.Position())) }

    /** What the stale worker makes of it: its own LOW, the other's HIGH and batch id. */
    function Stale(): Window { Window(1, INITIAL, r1.Position(), Second().batch) }

    function Files(): map<string, seq<SourceRow>> { map[First().batch := [r0]][Second().batch := [r1]] }

    /** One worker has read its LOW and stalls. */
    function Stalled(): State { State(1, INITIAL, [OPENED], [Read(1, INITIAL)], map[], [r0]) }

    /** A second one has committed the first window. */
    function Committed(): State {
      State(2, r0.Position(), [OPENED, Audit(Some(First()), SUCCESS, 1)], [Read(1, INITIAL), Done],
            map[First().batch := [r0]], [r0])
    }

    /** `r1` has appeared and a third one has landed it. */
    function Landed(): State {
      State(2, r0.Position(), [OPENED, Audit(Some(First()), SUCCESS, 1), Audit(Some(Second()), RUNNING, 0)],
            [Read(1, INITIAL), Done, Worker.Landed(Second(), [r1])], Files(), [r0, r1])
    }

    /** The stalled worker has adopted and recorded that window. */
    function Adopted(): State {
      State(2, r0.Position(), [Audit(Some(Stale()), RUNNING, 0), Audit(Some(First()), SUCCESS, 1),
                               Audit(Some(Second()), FAILED, 0)],
            [Worker.Recorded(Stale()), Done, Worker.Landed(Second(), [r1])], Files(), [r0, r1])
    }

    /** The third worker has committed it, and `r1` has been updated. */
    function Delivering(): State {
      State(3, r1.Position(), [Audit(Some(Stale()), RUNNING, 0), Audit(Some(First()), SUCCESS, 1),
                               Audit(Some(Second()), SUCCESS, 1)],
            [Worker.Recorded(Stale()), Done, Done], Files(), [r0, moved])
    }

    /** The stale worker has extracted what is left. */
    function Poised(): State { Delivering().(workers := [Extracted(Stale(), [r0]), Done, Done]) }
  }

  lemma ToCommitted(c: Scene)
    requires Ascending(c.r0, c.r1, c.moved)
    ensures Undisturbed(Next(c.Stalled(), Begin, c.batchOf), 1, 9, c.batchOf) == c.Committed()
  {
    SmallWindows(c.r0, c.r1, c.moved);
    var s, w := c.Stalled(), c.First();
    assert s.audits[..0] == [];
    FreshRunLands(s, w, [c.r0], c.batchOf);
    UndisturbedAdds(Next(s, Begin, c.batchOf), 1, 7, 2, c.batchOf);
    var t := State(1, INITIAL, [OPENED, Audit(Some(w), RUNNING, 0)], [Read(1, INITIAL), Worker.Landed(w, [c.r0])],
                   map[w.batch := [c.r0]], [c.r0]);
    hide Next, Capture, Extract;
    assert Undisturbed(Next(s, Begin, c.batchOf), 1, 7, c.batchOf) == t;
    LandedCommits(t, 1, w, [c.r0], c.batchOf);
  }

  lemma ToLanded(c: Scene)
    requires Ascending(c.r0, c.r1, c.moved)
    ensures Undisturbed(Next(c.Committed().(source := [c.r0, c.r1]), Begin, c.batchOf), 2, 7, c.batchOf) == c.Landed()
  {
    SmallWindows(c.r0, c.r1, c.moved);
    var s := c.Committed().(source := [c.r0, c.r1]);
    assert s.audits[..1] == [OPENED] && s.audits[..1][..0] == [];
    assert LatestUnfinished(s.audits) == None;
    FreshRunLands(s, c.Second(), [c.r1], c.batchOf);
  }

  lemma ToAdopted(c: Scene)
    requires Ascending(c.r0, c.r1, c.moved)
    ensures Undisturbed(c.Landed(), 0, 4, c.batchOf) == c.Adopted()
  {
    var s, b := c.Landed(), c.batchOf;
    CursorOrder();
    var s1 := Next(s, Advance(0), b);
    assert s1 == s.(workers := [Checking(1, INITIAL, 2, c.r0.Position()), Done, Worker.Landed(c.Second(), [c.r1])]);
    assert Recoverable(s.audits, 2, c.r0.Position()) == Some(2);
    var s2 := Next(s1, Advance(0), b);
    assert s2 == s.(workers := [Adopting(c.Stale(), 2), Done, Worker.Landed(c.Second(), [c.r1])]);
    var s3 := Next(s2, Advance(0), b);
    assert s3 == s.(workers := [Resolved(c.Stale()), Done, Worker.Landed(c.Second(), [c.r1])],
                    audits := [OPENED, Audit(Some(c.First()), SUCCESS, 1), Audit(Some(c.Second()), FAILED, 0)]);
    assert Next(s3, Advance(0), b) == c.Adopted();
    hide Next;
    FourSteps(s, 0, b);
  }

  lemma ToDelivering(c: Scene)
    requires Ascending(c.r0, c.r1, c.moved)
    ensures Undisturbed(c.Adopted(), 2, 2, c.batchOf).(source := [c.r0, c.moved]) == c.Delivering()
  {
    LandedCommits(c.Adopted(), 2, c.Second(), [c.r1], c.batchOf);
  }

  lemma ToPoised(c: Scene)
    requires Ascending(c.r0, c.r1, c.moved)
    ensures Next(c.Delivering(), Advance(0), c.batchOf) == c.Poised()
    ensures Next(c.Poised(), Advance(0), c.batchOf).landing == c.Files()[c.Second().batch := [c.r0]]
    ensures Next(c.Poised(), Advance(0), c.batchOf).audits == c.Poised().audits
  {
    CursorOrder();
    SmallWindows(c.r0, c.r1, c.moved);
  }

  /** The stale worker's landing, on the batch id of a SUCCESS run, loses the row that run delivered. */
  lemma LastStepLoses(c: Scene)
    requires Ascending(c.r0, c.r1, c.moved)
    ensures Delivered(c.Poised(), c.r1) && !Delivered(Next(c.Poised(), Advance(0), c.batchOf), c.r1)
  {
    ToPoised(c);
    CursorOrder();
    assert c.Poised().audits[2].status == SUCCESS && c.r1 in c.Files()[c.Second().batch];
    hide Next;
    assert c.r1 != c.r0;
  }

  lemma ToStalled(c: Scene)
    ensures Undisturbed(Next(Origin([c.r0]), Begin, c.batchOf), 0, 1, c.batchOf) == c.Stalled()
  {
    var s1 := Next(Origin([c.r0]), Begin, c.batchOf);
    assert s1 == State(1, INITIAL, [OPENED], [Started], map[], [c.r0]);
    var s2 := Next(s1, Advance(0), c.batchOf);
    assert s2 == c.Stalled();
    hide Next;
    assert Undisturbed(s2, 0, 0, c.batchOf) == s2;
  }

  /** Both source changes bring in a row above every HIGH captured so far. */
  lemma ChangesAreFresh(c: Scene)
    requires Ascending(c.r0, c.r1, c.moved)
    ensures FreshChange(c.Committed(), [c.r0, c.r1])
    ensures FreshChange(c.Delivering().(source := [c.r0, c.r1]), [c.r0, c.moved])
  {
    CursorOrder();
    var s, t := c.Committed(), c.Delivering().(source := [c.r0, c.r1]);
    forall w | InPlay(s, w) ensures w == c.First() {}
    forall w | InPlay(t, w) ensures w == c.First() || w == c.Second() || w == c.Stale() {}
    hide InPlay;
  }

  /** The steps lead from one state to the other, all source changes being fresh. */
  ghost predicate Leads(s: State, steps: seq<Step>, t: State, batchOf: BatchId) {
    FreshSteps(s, steps, batchOf) && Steps(s, steps, batchOf) == t
  }

  lemma LeadsConcat(s: State, a: seq<Step>, t: State, b: seq<Step>, u: State, batchOf: BatchId)
    requires Leads(s, a, t, batchOf) && Leads(t, b, u, batchOf)
    ensures Leads(s, a + b, u, batchOf)
  {
    hide FreshSteps, Steps;
    StepsConcat(s, a, b, batchOf);
  }

  lemma OneMoreStep(s: State, a: seq<Step>, t: State, batchOf: BatchId)
    requires Leads(s, a, t, batchOf)
    ensures Leads(s, a + [Advance(0)], Next(t, Advance(0), batchOf), batchOf)
  {
    hide Next;
    assert (a + [Advance(0)])[..|a|] == a;
  }

  /** The steps of the scene up to its last one, in three parts. */
  function UntilCommitted(): seq<Step> { ([Begin] + Times(Advance(0), 1)) + ([Begin] + Times(Advance(1), 9)) }

  function UntilAdopted(r0: SourceRow, r1: SourceRow): seq<Step> {
    ([Edit([r0, r1])] + Times(Advance(2), 0)) + ([Begin] + Times(Advance(2), 7)) + ([Advance(0)] + Times(Advance(0), 3))
  }

  function UntilPoised(r0: SourceRow, moved: SourceRow): seq<Step> {
    ([Advance(2)] + Times(Advance(2), 1)) + ([Edit([r0, moved])] + Times(Advance(0), 1))
  }

  lemma LeadsToCommitted(c: Scene)
    requires Ascending(c.r0, c.r1, c.moved)
    ensures Leads(Origin([c.r0]), UntilCommitted(), c.Committed(), c.batchOf)
  {
    PhaseSteps(Origin([c.r0]), Begin, 0, 1, c.batchOf);
    ToStalled(c);
    PhaseSteps(c.Stalled(), Begin, 1, 9, c.batchOf);
    ToCommitted(c);
    hide Next, Undisturbed, Times, Steps, FreshSteps, FreshChange;
    LeadsConcat(Origin([c.r0]), [Begin] + Times(Advance(0), 1), c.Stalled(), [Begin] + Times(Advance(1), 9),
                c.Committed(),
                c.batchOf);
  }

  lemma LeadsToAdopted(c: Scene)
    requires Ascending(c.r0, c.r1, c.moved)
    ensures Leads(c.Committed(), UntilAdopted(c.r0, c.r1), c.Adopted(), c.batchOf)
  {
    var s, e := c.Committed(), Edit([c.r0, c.r1]);
    var t := s.(source := [c.r0, c.r1]);
    ChangesAreFresh(c);
    PhaseSteps(s, e, 2, 0, c.batchOf);
    assert Undisturbed(Next(s, e, c.batchOf), 2, 0, c.batchOf) == t;
    PhaseSteps(t, Begin, 2, 7, c.batchOf);
    ToLanded(c);
    PhaseSteps(c.Landed(), Advance(0), 0, 3, c.batchOf);
    ToAdopted(c);
    assert Undisturbed(c.Landed(), 0, 4, c.batchOf)
      == Undisturbed(Next(c.Landed(), Advance(0), c.batchOf), 0, 3, c.batchOf);
    hide Next, Undisturbed, Times, Steps, FreshSteps, FreshChange;
    LeadsConcat(s, [e] + Times(Advance(2), 0), t, [Begin] + Times(Advance(2), 7), c.Landed(), c.batchOf);
    LeadsConcat(s, ([e] + Times(Advance(2), 0)) + ([Begin] + Times(Advance(2), 7)), c.Landed(),
                [Advance(0)] + Times(Advance(0), 3), c.Adopted(), c.batchOf);
  }

  lemma LeadsToPoised(c: Scene)
    requires Ascending(c.r0, c.r1, c.moved)
    ensures Leads(c.Adopted(), UntilPoised(c.r0, c.moved), c.Poised(), c.batchOf)
  {
    var t, e := c.Delivering().(source := [c.r0, c.r1]), Edit([c.r0, c.moved]);
    ChangesAreFresh(c);
    PhaseSteps(c.Adopted(), Advance(2), 2, 1, c.batchOf);
    ToDelivering(c);
    assert Undisturbed(c.Adopted(), 2, 2, c.batchOf)
      == Undisturbed(Next(c.Adopted(), Advance(2), c.batchOf), 2, 1, c.batchOf);
    PhaseSteps(t, e, 0, 1, c.batchOf);
    assert Next(t, e, c.batchOf) == c.Delivering();
    ToPoised(c);
    hide Next, Times, Steps, FreshSteps, FreshChange;
    assert Undisturbed(c.Delivering(), 0, 1, c.batchOf) == c.Poised();
    hide Undisturbed;
    LeadsConcat(c.Adopted(), [Advance(2)] + Times(Advance(2), 1), t, [e] + Times(Advance(0), 1), c.Poised(), c.batchOf);
  }

  /** A delivered row can be lost. From the empty store: a worker reads its LOW and stalls; a second one commits; a
      row appears and a third one lands it; the stalled one adopts the third one's window with its own old LOW; the
      third one commits, and the row is updated. Then the stalled worker extracts what is left and lands it on the
      SUCCESS batch id. */
  lemma StaleOverwriteLosesRow(r0: SourceRow, r1: SourceRow, moved: SourceRow, batchOf: BatchId)
    requires Ascending(r0, r1, moved)
    ensures var steps := UntilCommitted() + UntilAdopted(r0, r1) + UntilPoised(r0, moved);
      && FreshSteps(Origin([r0]), steps + [Advance(0)], batchOf)
      && Delivered(Steps(Origin([r0]), steps, batchOf), r1)
      && !Delivered(Steps(Origin([r0]), steps + [Advance(0)], batchOf), r1)
  {
    var c := Scene.Scene(r0, r1, moved, batchOf);
    var a, b, d := UntilCommitted(), UntilAdopted(r0, r1), UntilPoised(r0, moved);
    LeadsToCommitted(c);
    LeadsToAdopted(c);
    LeadsToPoised(c);
    LastStepLoses(c);
    hide Next, Delivered, UntilCommitted, UntilAdopted, UntilPoised;
    LeadsConcat(Origin([r0]), a, c.Committed(), b, c.Adopted(), batchOf);
    LeadsConcat(Origin([r0]), a + b, c.Adopted(), d, c.Poised(), batchOf);
    OneMoreStep(Origin([r0]), a + b + d, c.Poised(), batchOf);
  }
}
