/** No row is lost: every current source row at or below the committed watermark lies unchanged in the landing file of
    a SUCCESS run, whatever crashes, retries, interleavings and source changes came before
    (src/watermark/pipeline.py:76-224). */
module WatermarkCompleteness {
  import opened Cdc
  import opened Watermark
  import opened WatermarkSafety

  /** Batch ids name windows. */
  ghost predicate Injective(batchOf: BatchId) {
    forall a, b, c, d :: batchOf(a, b) == batchOf(c, d) ==> Eq(a, c) && Eq(b, d)
  }

  /** A window some worker holds or some audit has recorded. */
  ghost predicate InPlay(s: State, w: Window) {
    || (exists i :: 0 <= i < |s.workers| && s.workers[i].Held() == Some(w))
    || (exists i :: 0 <= i < |s.audits| && s.audits[i].window == Some(w))
  }

  /** A source change is fresh when every row it brings in lies above every HIGH captured so far. */
  ghost predicate FreshChange(s: State, source: seq<SourceRow>) {
    forall r, w :: r in source && r !in s.source && InPlay(s, w) ==> Lt(w.high, r.Position())
  }

  ghost predicate FreshStep(s: State, step: Step) { step.Edit? ==> FreshChange(s, step.source) }

  ghost predicate FreshSteps(s: State, steps: seq<Step>, batchOf: BatchId) {
    steps == []
    || (FreshSteps(s, steps[..|steps| - 1], batchOf)
        && FreshStep(Steps(s, steps[..|steps| - 1], batchOf), steps[|steps| - 1]))
  }

  ghost predicate Covers(rows: seq<SourceRow>, source: seq<SourceRow>, low: Cursor, high: Cursor) {
    forall r :: r in source && InWindow(r, low, high) ==> r in rows
  }

  ghost predicate Stamped(rows: seq<SourceRow>) { forall r :: r in rows ==> r.updatedAt.Some? }

  /** A window's batch id names a window with its HIGH that starts no lower; for a window that can still commit, its
      own. */
  ghost predicate Named(s: State, w: Window, batchOf: BatchId) {
    exists base :: w.batch == batchOf(base, w.high) && Le(w.low, base) && (w.version == s.version ==> base == w.low)
  }

  ghost predicate Recorded(s: State, high: Cursor) {
    exists i :: 0 <= i < |s.audits| && s.audits[i].window.Some? && Eq(s.audits[i].window.value.high, high)
  }

  function RowsOf(w: Worker): Option<seq<SourceRow>> {
    if w.Extracted? || w.Landed? || w.Verified? then Some(w.rows) else None
  }

  ghost predicate WorkerData(s: State, i: nat, batchOf: BatchId)
    requires i < |s.workers|
  {
    var w := s.workers[i];
    && (w.Held().Some? ==> Named(s, w.Held().value, batchOf))
    && (RowsOf(w).Some? ==> Covers(w.rows, s.source, w.window.low, w.window.high) && Stamped(w.rows))
    && (w.Verified? ==> w.window.batch in s.landing)
  }

  ghost predicate AuditData(s: State, i: nat, batchOf: BatchId)
    requires i < |s.audits|
  {
    var a := s.audits[i];
    && (a.window.Some? ==> Named(s, a.window.value, batchOf))
    && (a.status == SUCCESS && a.window.Some? ==>
          a.window.value.batch == batchOf(a.window.value.low, a.window.value.high) && a.window.value.batch in s.landing)
  }

  /** A file landed for a window holds every row that is still in it. */
  ghost predicate FileData(s: State, low: Cursor, high: Cursor, batchOf: BatchId) {
    batchOf(low, high) in s.landing ==>
      Recorded(s, high) && Covers(s.landing[batchOf(low, high)], s.source, low, high)
  }

  ghost predicate DataInv(s: State, batchOf: BatchId) {
    && (forall i :: 0 <= i < |s.workers| ==> WorkerData(s, i, batchOf))
    && (forall i :: 0 <= i < |s.audits| ==> AuditData(s, i, batchOf))
    && (forall low, high {:trigger batchOf(low, high)} :: FileData(s, low, high, batchOf))
    && (forall b :: b in s.landing ==> Stamped(s.landing[b]))
  }

  // ---- Source changes ----

  lemma ChangeKeepsCover(rows: seq<SourceRow>, before: seq<SourceRow>, after: seq<SourceRow>, low: Cursor,
                         high: Cursor, top: Cursor)
    requires Covers(rows, before, low, high) && Eq(top, high)
    requires forall r :: r in after && r !in before ==> Lt(top, r.Position())
    ensures Covers(rows, after, low, high)
  {
    CursorOrder();
  }

  lemma ChangeData(s: State, source: seq<SourceRow>, batchOf: BatchId)
    requires CasInv(s) && DataInv(s, batchOf) && FreshChange(s, source)
    ensures DataInv(s.(source := source), batchOf)
  {
    var t := s.(source := source);
    CursorOrder();
    forall i | 0 <= i < |t.workers| ensures WorkerData(t, i, batchOf) {
      assert WorkerData(s, i, batchOf);
      var w := s.workers[i];
      if w.Held().Some? {
        assert Named(t, w.Held().value, batchOf);
        assert InPlay(s, w.Held().value);
      }
      if RowsOf(w).Some? {
        ChangeKeepsCover(w.rows, s.source, source, w.window.low, w.window.high, w.window.high);
      }
    }
    forall i | 0 <= i < |t.audits| ensures AuditData(t, i, batchOf) {
      assert AuditData(s, i, batchOf);
      if s.audits[i].window.Some? {
        assert Named(t, s.audits[i].window.value, batchOf);
      }
    }
    forall low, high ensures FileData(t, low, high, batchOf) {
      ChangeFile(s, source, low, high, batchOf);
    }
  }

  lemma ChangeFile(s: State, source: seq<SourceRow>, low: Cursor, high: Cursor, batchOf: BatchId)
    requires FreshChange(s, source) && FileData(s, low, high, batchOf)
    ensures FileData(s.(source := source), low, high, batchOf)
  {
    if batchOf(low, high) in s.landing {
      var i :| 0 <= i < |s.audits| && s.audits[i].window.Some? && Eq(s.audits[i].window.value.high, high);
      assert InPlay(s, s.audits[i].window.value);
      assert Recorded(s.(source := source), high);
      ChangeKeepsCover(s.landing[batchOf(low, high)], s.source, source, low, high, s.audits[i].window.value.high);
    }
  }

  // ---- Steps that leave source and landing alone ----

  /** Windows and recorded HIGHs survive every step. */
  lemma WindowsStay(s: State, step: Step, batchOf: BatchId)
    requires CasInv(s)
    ensures var t := Next(s, step, batchOf);
      && |t.audits| >= |s.audits|
      && forall i :: 0 <= i < |s.audits| && s.audits[i].window.Some? ==> t.audits[i].window == s.audits[i].window
  {
    if step.Advance? && step.worker < |s.workers| {
      assert WorkerOk(s, step.worker);
    }
  }

  lemma RecordedStays(s: State, t: State, high: Cursor)
    requires |t.audits| >= |s.audits| && Recorded(s, high)
    requires forall i :: 0 <= i < |s.audits| && s.audits[i].window.Some? ==> t.audits[i].window == s.audits[i].window
    ensures Recorded(t, high)
  {
    var i :| 0 <= i < |s.audits| && s.audits[i].window.Some? && Eq(s.audits[i].window.value.high, high);
    assert t.audits[i].window.Some?;
  }

  lemma NamedStays(s: State, t: State, w: Window, batchOf: BatchId)
    requires Named(s, w, batchOf) && (t.version == s.version || w.version < t.version)
    ensures Named(t, w, batchOf)
  {
    var base :| w.batch == batchOf(base, w.high) && Le(w.low, base) && (w.version == s.version ==> base == w.low);
  }

  // ---- One worker's step ----

  lemma AdoptData(s: State, i: nat, batchOf: BatchId)
    requires CasInv(s) && DataInv(s, batchOf) && i < |s.workers| && s.workers[i].Checking?
    ensures WorkerData(Advanced(s, i, batchOf), i, batchOf)
  {
    var c, t := s.workers[i], Advanced(s, i, batchOf);
    assert WorkerOk(s, i);
    match Recoverable(s.audits, c.currentVersion, c.currentLow)
    case None =>
    case Some(j) =>
      var found := s.audits[j].window.value;
      assert AuditOk(s, j) && AuditData(s, j, batchOf);
      var base :| found.batch == batchOf(base, found.high) && Le(found.low, base)
                  && (found.version == s.version ==> base == found.low);
      CursorOrder();
      assert Le(c.low, base);
      assert Named(t, Window(c.version, c.low, found.high, found.batch), batchOf);
  }

  lemma CaptureData(s: State, i: nat, batchOf: BatchId)
    requires CasInv(s) && DataInv(s, batchOf) && i < |s.workers| && s.workers[i].Fresh?
    ensures WorkerData(Advanced(s, i, batchOf), i, batchOf)
  {
    var f, t := s.workers[i], Advanced(s, i, batchOf);
    CursorOrder();
    var high := Capture(s.source);
    assert batchOf(f.low, high) == batchOf(f.low, high) && Le(f.low, f.low);
    assert Named(t, Window(f.version, f.low, high, batchOf(f.low, high)), batchOf);
  }

  lemma WorkerKeepsWindow(s: State, i: nat, batchOf: BatchId)
    requires CasInv(s) && DataInv(s, batchOf) && i < |s.workers| && !s.workers[i].Checking? && !s.workers[i].Fresh?
    ensures WorkerData(Advanced(s, i, batchOf), i, batchOf)
  {
    var t := Advanced(s, i, batchOf);
    assert WorkerData(s, i, batchOf);
    if t.workers[i].Held().Some? {
      NamedStays(s, t, t.workers[i].Held().value, batchOf);
    }
    if s.workers[i].Recorded? {
      var w := s.workers[i].window;
      ExtractMembers(s.source, w.low, w.high);
    }
  }

  lemma OwnData(s: State, i: nat, batchOf: BatchId)
    requires CasInv(s) && DataInv(s, batchOf) && i < |s.workers|
    ensures WorkerData(Advanced(s, i, batchOf), i, batchOf)
  {
    if s.workers[i].Checking? {
      AdoptData(s, i, batchOf);
    } else if s.workers[i].Fresh? {
      CaptureData(s, i, batchOf);
    } else {
      WorkerKeepsWindow(s, i, batchOf);
    }
  }

  lemma SameWorkerData(s: State, t: State, i: nat, batchOf: BatchId)
    requires i < |s.workers| && i < |t.workers| && WorkerData(s, i, batchOf)
    requires t.workers[i] == s.workers[i] && t.source == s.source && forall b :: b in s.landing ==> b in t.landing
    requires s.workers[i].Held().Some? ==> t.version == s.version || s.workers[i].Held().value.version < t.version
    ensures WorkerData(t, i, batchOf)
  {
    if s.workers[i].Held().Some? {
      NamedStays(s, t, s.workers[i].Held().value, batchOf);
    }
    hide Named;
  }

  lemma OthersFrame(s: State, step: Step, batchOf: BatchId, i: nat)
    requires |s.workers| == |s.audits| && !step.Edit? && i < |s.workers| && step != Advance(i) && step != Fail(i)
    ensures var t := Next(s, step, batchOf);
      && i < |t.workers| && t.workers[i] == s.workers[i] && t.source == s.source
      && forall b :: b in s.landing ==> b in t.landing
  {
    hide Capture, Extract, Recoverable;
  }

  lemma OthersData(s: State, step: Step, batchOf: BatchId, i: nat)
    requires CasInv(s) && DataInv(s, batchOf) && !step.Edit? && i < |s.workers| && step != Advance(i)
    ensures WorkerData(Next(s, step, batchOf), i, batchOf)
  {
    assert WorkerData(s, i, batchOf) && WorkerOk(s, i);
    if step != Fail(i) {
      StepVersion(s, step, batchOf);
      OthersFrame(s, step, batchOf, i);
      SameWorkerData(s, Next(s, step, batchOf), i, batchOf);
    }
  }

  lemma StepVersion(s: State, step: Step, batchOf: BatchId)
    requires CasInv(s)
    ensures Next(s, step, batchOf).version == if Commits(s, step) then s.version + 1 else s.version
  {
    if Commits(s, step) {
      CommitStep(s, step, batchOf);
    } else {
      QuietStep(s, step, batchOf);
    }
  }

  lemma AuditFrame(s: State, step: Step, batchOf: BatchId, i: nat)
    requires CasInv(s) && DataInv(s, batchOf) && !step.Edit? && i < |s.audits|
    ensures var t := Next(s, step, batchOf);
      && i < |t.audits| && (forall b :: b in s.landing ==> b in t.landing)
      && (t.audits[i].window == s.audits[i].window || t.audits[i].window == s.workers[i].Held())
      && (t.audits[i].status == SUCCESS && s.audits[i].status != SUCCESS ==>
            s.workers[i].Verified? && s.audits[i].window == Some(s.workers[i].window)
            && s.workers[i].window.version == s.version)
  {
    assert WorkerOk(s, i);
    hide Capture, Extract, Recoverable, Point, DataInv;
  }

  lemma AuditDataStep(s: State, step: Step, batchOf: BatchId, i: nat)
    requires CasInv(s) && DataInv(s, batchOf) && !step.Edit? && i < |Next(s, step, batchOf).audits|
    ensures AuditData(Next(s, step, batchOf), i, batchOf)
  {
    var t := Next(s, step, batchOf);
    if i < |s.audits| {
      assert AuditData(s, i, batchOf) && AuditOk(s, i) && WorkerData(s, i, batchOf) && WorkerOk(s, i);
      StepVersion(s, step, batchOf);
      AuditFrame(s, step, batchOf, i);
      if t.audits[i].window.Some? {
        NamedStays(s, t, t.audits[i].window.value, batchOf);
      }
      hide Next;
    }
  }

  // ---- Landing ----

  lemma NarrowerCover(rows: seq<SourceRow>, source: seq<SourceRow>, w: Window, base: Cursor, low: Cursor, high: Cursor)
    requires Covers(rows, source, w.low, w.high) && Le(w.low, base) && Eq(base, low) && Eq(w.high, high)
    ensures Covers(rows, source, low, high)
  {
    CursorOrder();
    forall r | InWindow(r, low, high) ensures InWindow(r, w.low, w.high) {}
  }

  /** Writing a file keeps every file complete, including a file another worker wrote for the same batch id. */
  lemma LandFile(s: State, i: nat, batchOf: BatchId, low: Cursor, high: Cursor)
    requires CasInv(s) && DataInv(s, batchOf) && Injective(batchOf) && i < |s.workers| && s.workers[i].Extracted?
    ensures FileData(Advanced(s, i, batchOf), low, high, batchOf)
  {
    var t, w := Advanced(s, i, batchOf), s.workers[i].window;
    assert WorkerData(s, i, batchOf) && WorkerOk(s, i) && FileData(s, low, high, batchOf);
    WindowsStay(s, Advance(i), batchOf);
    if batchOf(low, high) == w.batch && s.workers[i].rows != [] {
      var base :| w.batch == batchOf(base, w.high) && Le(w.low, base);
      assert Eq(base, low) && Eq(w.high, high);
      assert t.audits[i].window == Some(w) && Recorded(t, high);
      NarrowerCover(s.workers[i].rows, s.source, w, base, low, high);
      assert t.landing[batchOf(low, high)] == s.workers[i].rows;
    } else if batchOf(low, high) in t.landing {
      RecordedStays(s, t, high);
      assert t.landing[batchOf(low, high)] == s.landing[batchOf(low, high)];
    }
  }

  lemma FileStep(s: State, step: Step, batchOf: BatchId, low: Cursor, high: Cursor)
    requires CasInv(s) && DataInv(s, batchOf) && Injective(batchOf) && !step.Edit?
    ensures FileData(Next(s, step, batchOf), low, high, batchOf)
  {
    var t := Next(s, step, batchOf);
    if step.Advance? && step.worker < |s.workers| && s.workers[step.worker].Extracted? {
      LandFile(s, step.worker, batchOf, low, high);
    } else {
      assert FileData(s, low, high, batchOf);
      assert t.landing == s.landing && t.source == s.source;
      if batchOf(low, high) in t.landing {
        WindowsStay(s, step, batchOf);
        RecordedStays(s, t, high);
      }
    }
  }

  lemma StampedStep(s: State, step: Step, batchOf: BatchId)
    requires CasInv(s) && DataInv(s, batchOf) && !step.Edit?
    ensures forall b :: b in Next(s, step, batchOf).landing ==> Stamped(Next(s, step, batchOf).landing[b])
  {
    if step.Advance? && step.worker < |s.workers| {
      assert WorkerData(s, step.worker, batchOf);
    }
  }

  lemma StepData(s: State, step: Step, batchOf: BatchId)
    requires CasInv(s) && DataInv(s, batchOf) && Injective(batchOf) && FreshStep(s, step)
    ensures DataInv(Next(s, step, batchOf), batchOf)
  {
    if step.Edit? {
      ChangeData(s, step.source, batchOf);
    } else {
      var t := Next(s, step, batchOf);
      forall i | 0 <= i < |t.workers| ensures WorkerData(t, i, batchOf) {
        if i < |s.workers| {
          if step == Advance(i) {
            OwnData(s, i, batchOf);
          } else {
            OthersData(s, step, batchOf, i);
          }
        }
      }
      forall i | 0 <= i < |t.audits| ensures AuditData(t, i, batchOf) {
        AuditDataStep(s, step, batchOf, i);
      }
      forall low, high ensures FileData(t, low, high, batchOf) {
        FileStep(s, step, batchOf, low, high);
      }
      StampedStep(s, step, batchOf);
    }
  }

  lemma {:induction false} ReachableData(source: seq<SourceRow>, steps: seq<Step>, batchOf: BatchId)
    requires Injective(batchOf) && FreshSteps(Origin(source), steps, batchOf)
    ensures DataInv(Steps(Origin(source), steps, batchOf), batchOf)
  {
    if steps == [] {
      forall low, high ensures FileData(Origin(source), low, high, batchOf) {}
    } else {
      ReachableData(source, steps[..|steps| - 1], batchOf);
      CasSafety(source, steps[..|steps| - 1], batchOf);
      StepData(Steps(Origin(source), steps[..|steps| - 1], batchOf), steps[|steps| - 1], batchOf);
    }
  }

  // ---- Completeness ----

  /** Some committed window contains the row: the chain has no gap. */
  lemma {:induction false} WalkTheChain(s: State, r: SourceRow, i: nat, v: int) returns (k: nat)
    requires CasInv(s) && SuccessAt(s, i, v) && Lt(INITIAL, r.Position()) && Le(r.Position(), WindowOf(s, i).high)
    ensures k < |s.audits| && s.audits[k].status == SUCCESS && s.audits[k].window.Some?
    ensures InWindow(r, WindowOf(s, k).low, WindowOf(s, k).high)
    decreases v
  {
    assert AuditOk(s, i);
    if Lt(WindowOf(s, i).low, r.Position()) {
      k := i;
    } else {
      assert v != 1;
      assert Committed(s, v - 1);
      var j :| SuccessAt(s, j, v - 1);
      k := WalkTheChain(s, r, j, v - 1);
    }
  }

  /** A row lies in the landing file of a SUCCESS run. */
  ghost predicate Delivered(s: State, r: SourceRow) {
    exists i :: 0 <= i < |s.audits| && s.audits[i].status == SUCCESS && s.audits[i].window.Some?
                && s.audits[i].window.value.batch in s.landing && r in s.landing[s.audits[i].window.value.batch]
  }

  lemma BelowWatermark(s: State, r: SourceRow) returns (k: nat)
    requires CasInv(s) && Lt(INITIAL, r.Position()) && Le(r.Position(), s.watermark)
    ensures k < |s.audits| && s.audits[k].status == SUCCESS && s.audits[k].window.Some?
    ensures InWindow(r, WindowOf(s, k).low, WindowOf(s, k).high)
  {
    CursorOrder();
    assert s.version != 1;
    assert Committed(s, s.version - 1);
    var i :| SuccessAt(s, i, s.version - 1);
    k := WalkTheChain(s, r, i, s.version - 1);
  }

  lemma DeliveredBy(s: State, batchOf: BatchId, r: SourceRow, k: nat)
    requires DataInv(s, batchOf) && r in s.source && k < |s.audits| && s.audits[k].status == SUCCESS
    requires s.audits[k].window.Some?
    requires InWindow(r, WindowOf(s, k).low, WindowOf(s, k).high)
    ensures Delivered(s, r)
  {
    assert AuditData(s, k, batchOf);
    assert FileData(s, WindowOf(s, k).low, WindowOf(s, k).high, batchOf);
  }

  lemma DeliveredIff(s: State, batchOf: BatchId, r: SourceRow)
    requires CasInv(s) && DataInv(s, batchOf) && r in s.source && Le(r.Position(), s.watermark)
    ensures Delivered(s, r) <==> r.updatedAt.Some?
  {
    if r.updatedAt.Some? {
      assert Lt(INITIAL, r.Position());
      var k := BelowWatermark(s, r);
      DeliveredBy(s, batchOf, r, k);
    }
    forall i | 0 <= i < |s.audits| && s.audits[i].window.Some? && s.audits[i].window.value.batch in s.landing
      ensures Stamped(s.landing[s.audits[i].window.value.batch])
    {}
  }

  /** Completeness: in every reachable state, a current source row at or below the committed watermark is delivered
      unchanged exactly when it has a timestamp. */
  lemma Completeness(source: seq<SourceRow>, steps: seq<Step>, batchOf: BatchId, r: SourceRow)
    requires Injective(batchOf) && FreshSteps(Origin(source), steps, batchOf)
    requires r in Steps(Origin(source), steps, batchOf).source
    requires Le(r.Position(), Steps(Origin(source), steps, batchOf).watermark)
    ensures Delivered(Steps(Origin(source), steps, batchOf), r) <==> r.updatedAt.Some?
  {
    CasSafety(source, steps, batchOf);
    ReachableData(source, steps, batchOf);
    DeliveredIff(Steps(Origin(source), steps, batchOf), batchOf, r);
  }
}
