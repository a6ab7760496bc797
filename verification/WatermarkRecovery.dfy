/** Recovery in sequential operation, one worker at a time (src/watermark/control_store.py:203-242,
    pipeline.py:76-224).

    Once an attempt has recorded a window with HIGH > LOW and then fails or dies, every later run works on that same
    window until it commits. A retry commits exactly when the window still holds a row; a window that has been emptied
    by source updates is a fixed point in which nothing is ever delivered again. */
module WatermarkRecovery {
  import opened Cdc
  import opened Watermark
  import opened WatermarkSafety
  import opened WatermarkCompleteness

  /** Only the youngest worker takes steps. */
  predicate Sequential(s: State, step: Step) {
    match step
    case Begin => true
    case Edit(_) => true
    case Advance(i) => i + 1 == |s.workers|
    case Fail(i) => i + 1 == |s.workers|
  }

  ghost predicate SequentialSteps(s: State, steps: seq<Step>, batchOf: BatchId) {
    steps == []
    || (SequentialSteps(s, steps[..|steps| - 1], batchOf)
        && Sequential(Steps(s, steps[..|steps| - 1], batchOf), steps[|steps| - 1]))
  }

  // ---- In sequential operation a live worker is never behind ----

  ghost predicate NotBehind(s: State, i: nat)
    requires i < |s.workers| && i < |s.audits|
  {
    && (s.audits[i].window.Some? && s.audits[i].status != SUCCESS ==> s.audits[i].window.value.version == s.version)
    && match s.workers[i]
       case Read(v, _) => v == s.version
       case Checking(v, _, cv, _) => v == cv == s.version
       case Fresh(v, _) => v == s.version
       case Adopting(w, _) => w.version == s.version
       case Resolved(w) => w.version == s.version
       case _ => true
  }

  ghost predicate UpToDate(s: State) {
    CasInv(s) && (|s.workers| > 0 ==> NotBehind(s, |s.workers| - 1))
  }

  lemma AdvanceNotBehind(s: State, i: nat, batchOf: BatchId)
    requires BothOk(s, i) && NotBehind(s, i)
    ensures NotBehind(Advanced(s, i, batchOf), i)
  {
    hide Capture, Extract, Recoverable, Point;
  }

  lemma UpToDateStep(s: State, step: Step, batchOf: BatchId)
    requires UpToDate(s) && Sequential(s, step)
    ensures UpToDate(Next(s, step, batchOf))
  {
    StepInv(s, step, batchOf);
    if step.Advance? {
      assert WorkerOk(s, step.worker) && AuditOk(s, step.worker);
      AdvanceNotBehind(s, step.worker, batchOf);
    } else if step.Fail? {
      assert WorkerOk(s, step.worker);
    }
  }

  lemma {:induction false} SequentialUpToDate(source: seq<SourceRow>, steps: seq<Step>, batchOf: BatchId)
    requires SequentialSteps(Origin(source), steps, batchOf)
    ensures UpToDate(Steps(Origin(source), steps, batchOf))
  {
    if steps != [] {
      SequentialUpToDate(source, steps[..|steps| - 1], batchOf);
      UpToDateStep(Steps(Origin(source), steps[..|steps| - 1], batchOf), steps[|steps| - 1], batchOf);
    }
  }

  // ---- Frozen windows ----

  /** What the youngest worker may hold while window `w` is frozen. */
  ghost predicate OnWindow(worker: Worker, w: Window) {
    match worker
    case Read(v, low) => v == w.version && low == w.low
    case Checking(v, low, cv, clow) => v == cv == w.version && low == clow == w.low
    case Fresh(_, _) => false
    case _ => worker.Held().Some? ==> worker.Held().value == w
  }

  /** Attempt `c` recorded window `w`, has HIGH > LOW, and is finished or abandoned; no later attempt holds another
      window. */
  ghost predicate Frozen(s: State, c: nat, w: Window) {
    && CasInv(s) && c < |s.audits|
    && s.audits[c].window == Some(w) && (s.audits[c].status == FAILED || s.audits[c].status == RUNNING)
    && w.version == s.version && Lt(w.low, w.high)
    && (c + 1 < |s.workers| || s.workers[c] == Done)
    && (forall j :: c < j < |s.audits| ==>
          s.audits[j].status != SUCCESS && (s.audits[j].window.Some? ==> s.audits[j].window == Some(w)))
    && (c + 1 < |s.workers| ==> OnWindow(s.workers[|s.workers| - 1], w))
  }

  /** An attempt with HIGH > LOW that fails, or is abandoned when the next one begins, freezes its window. */
  lemma FailureFreezes(s: State, step: Step, batchOf: BatchId)
    requires UpToDate(s) && |s.workers| > 0 && (step == Begin || step == Fail(|s.workers| - 1))
    requires s.workers[|s.workers| - 1] != Done
    requires s.audits[|s.workers| - 1].window.Some?
    requires Lt(s.audits[|s.workers| - 1].window.value.low, s.audits[|s.workers| - 1].window.value.high)
    requires s.audits[|s.workers| - 1].status != NO_DATA
    ensures Frozen(Next(s, step, batchOf), |s.workers| - 1, s.audits[|s.workers| - 1].window.value)
  {
    StepInv(s, step, batchOf);
    assert WorkerOk(s, |s.workers| - 1);
  }

  lemma FrozenCandidate(s: State, c: nat, w: Window)
    requires Frozen(s, c, w)
    ensures Recoverable(s.audits, w.version, w.low).Some?
    ensures s.audits[Recoverable(s.audits, w.version, w.low).value].window == Some(w)
    ensures c <= Recoverable(s.audits, w.version, w.low).value
    ensures w.low == s.watermark
  {
    assert AuditOk(s, c);
    assert Unfinished(s.audits[c]);
    CursorOrder();
  }

  lemma FrozenFail(s: State, c: nat, w: Window, i: nat, batchOf: BatchId)
    requires Frozen(s, c, w) && i + 1 == |s.workers|
    ensures Frozen(Next(s, Fail(i), batchOf), c, w)
  {
    StepInv(s, Fail(i), batchOf);
    hide CasInv;
  }

  lemma FrozenBegin(s: State, c: nat, w: Window, batchOf: BatchId)
    requires Frozen(s, c, w)
    ensures Frozen(Next(s, Begin, batchOf), c, w)
  {
    StepInv(s, Begin, batchOf);
    hide CasInv;
  }

  lemma CommitIsOfWindow(s: State, c: nat, w: Window, i: nat)
    requires Frozen(s, c, w) && i + 1 == |s.workers| && Commits(s, Advance(i))
    ensures c < i && s.workers[i].window == w
  {
    assert WorkerOk(s, i);
  }

  /** The frozen window survives every step but its own commit. */
  lemma FrozenStep(s: State, c: nat, w: Window, step: Step, batchOf: BatchId)
    requires Frozen(s, c, w) && Sequential(s, step)
    ensures !Commits(s, step) ==> Frozen(Next(s, step, batchOf), c, w)
    ensures Commits(s, step) ==> c < step.worker && s.workers[step.worker].window == w
  {
    match step
    case Begin => FrozenBegin(s, c, w, batchOf);
    case Fail(i) => FrozenFail(s, c, w, i, batchOf);
    case Edit(_) => StepInv(s, step, batchOf);
    case Advance(i) =>
      if Commits(s, step) {
        CommitIsOfWindow(s, c, w, i);
      } else if c < i {
        FrozenAdvance(s, c, w, i, batchOf);
      }
  }

  lemma FrozenWorker(s: State, c: nat, w: Window, last: nat, batchOf: BatchId)
    requires Frozen(s, c, w) && c < last == |s.workers| - 1
    ensures OnWindow(Advanced(s, last, batchOf).workers[last], w)
  {
    FrozenCandidate(s, c, w);
    assert WorkerOk(s, last);
    if s.workers[last].Checking? {
      var j := Recoverable(s.audits, w.version, w.low).value;
      assert s.audits[j].window.value == w;
    }
  }

  lemma FrozenAudits(s: State, c: nat, w: Window, last: nat, batchOf: BatchId)
    requires Frozen(s, c, w) && c < last == |s.workers| - 1 && !Commits(s, Advance(last))
    ensures var t := Advanced(s, last, batchOf);
      && |t.audits| == |s.audits|
      && t.audits[c].window == Some(w) && (t.audits[c].status == FAILED || t.audits[c].status == RUNNING)
      && (forall j :: c < j < |t.audits| ==>
            t.audits[j].status != SUCCESS && (t.audits[j].window.Some? ==> t.audits[j].window == Some(w)))
  {
    QuietStep(s, Advance(last), batchOf);
    assert WorkerOk(s, last);
    assert OnWindow(s.workers[last], w);
  }

  lemma FrozenAdvance(s: State, c: nat, w: Window, last: nat, batchOf: BatchId)
    requires Frozen(s, c, w) && c < last == |s.workers| - 1 && !Commits(s, Advance(last))
    ensures Frozen(Advanced(s, last, batchOf), c, w)
  {
    StepInv(s, Advance(last), batchOf);
    StepVersion(s, Advance(last), batchOf);
    FrozenWorker(s, c, w, last, batchOf);
    FrozenAudits(s, c, w, last, batchOf);
  }

  /** Version `w.version` was committed with exactly window `w`. */
  ghost predicate CommittedAs(s: State, w: Window) {
    exists i :: SuccessAt(s, i, w.version) && WindowOf(s, i) == w
  }

  lemma CommittedStays(s: State, w: Window, step: Step, batchOf: BatchId)
    requires CasInv(s) && CommittedAs(s, w)
    ensures CommittedAs(Next(s, step, batchOf), w)
  {
    var i :| SuccessAt(s, i, w.version) && WindowOf(s, i) == w;
    if Commits(s, step) {
      assert WorkerOk(s, step.worker);
    } else {
      QuietStep(s, step, batchOf);
    }
    assert SuccessAt(Next(s, step, batchOf), i, w.version) && WindowOf(Next(s, step, batchOf), i) == w;
  }

  /** Frozen-window recovery: through any sequential continuation of runs, failures, deaths and source changes, the
      window stays frozen until the table's next commit, and that commit is of this very window: same LOW, HIGH and
      batch id. */
  lemma {:induction false} FrozenUntilCommit(s: State, c: nat, w: Window, steps: seq<Step>, batchOf: BatchId)
    requires Frozen(s, c, w) && SequentialSteps(s, steps, batchOf)
    ensures CasInv(Steps(s, steps, batchOf))
    ensures Frozen(Steps(s, steps, batchOf), c, w) || CommittedAs(Steps(s, steps, batchOf), w)
  {
    if steps != [] {
      var init, last := steps[..|steps| - 1], steps[|steps| - 1];
      FrozenUntilCommit(s, c, w, init, batchOf);
      var x := Steps(s, init, batchOf);
      StepInv(x, last, batchOf);
      if CommittedAs(x, w) {
        CommittedStays(x, w, last, batchOf);
      } else {
        FrozenStep(x, c, w, last, batchOf);
        if Commits(x, last) {
          assert WorkerOk(x, last.worker);
          assert SuccessAt(Next(x, last, batchOf), last.worker, w.version);
        }
      }
    }
  }

  // ---- Progress ----

  ghost predicate HoldsRow(source: seq<SourceRow>, w: Window) { exists r :: r in source && InWindow(r, w.low, w.high) }

  function Remaining(worker: Worker): nat {
    match worker
    case Started => 9
    case Read(_, _) => 8
    case Checking(_, _, _, _) => 7
    case Fresh(_, _) => 6
    case Adopting(_, _) => 6
    case Resolved(_) => 5
    case Recorded(_) => 4
    case Extracted(_, _) => 3
    case Landed(_, _) => 2
    case Verified(_, _) => 1
    case Raised => 1
    case Done => 0
  }

  /** A retry in progress that has met no error, over a source that has not changed since it extracted. */
  ghost predicate OnTrack(s: State, c: nat, w: Window) {
    && Frozen(s, c, w) && c + 1 < |s.workers|
    && var worker := s.workers[|s.workers| - 1];
       && worker != Raised && worker != Done
       && (RowsOf(worker).Some? ==> worker.rows == Extract(s.source, w.low, w.high))
       && (worker.Landed? || worker.Verified? ==> worker.rows != [])
       && (worker.Landed? ==> w.batch in s.landing && s.landing[w.batch] == worker.rows)
  }

  /** Superseding an abandoned run takes nothing from recovery: at every state of the store the same attempt is found
      recoverable before and after, with the same window. */
  lemma SupersededStaysRecoverable(audits: seq<Audit>, run: nat, version: int, low: Cursor)
    ensures var after := Superseded(audits, run);
      && |after| == |audits| && Recoverable(after, version, low) == Recoverable(audits, version, low)
      && forall i :: 0 <= i < |audits| ==>
        after[i].window == audits[i].window && (Unfinished(after[i]) <==> Unfinished(audits[i]))
  {
    var after := Superseded(audits, run);
    var i, j := LatestUnfinished(after), LatestUnfinished(audits);
    assert forall k :: 0 <= k < |audits| ==> (Unfinished(after[k]) <==> Unfinished(audits[k]));
    assert i == j;
  }

  /** `n` undisturbed steps of worker `i`. */
  function Undisturbed(s: State, i: nat, n: nat, batchOf: BatchId): State
    decreases n
  {
    if n == 0 then s else Undisturbed(Next(s, Advance(i), batchOf), i, n - 1, batchOf)
  }

  lemma {:induction false} UndisturbedSnoc(s: State, i: nat, n: nat, batchOf: BatchId)
    ensures Undisturbed(s, i, n + 1, batchOf) == Next(Undisturbed(s, i, n, batchOf), Advance(i), batchOf)
    decreases n
  {
    if n > 0 {
      UndisturbedSnoc(Next(s, Advance(i), batchOf), i, n - 1, batchOf);
    }
  }

  lemma {:induction false} UndisturbedAdds(s: State, i: nat, m: nat, n: nat, batchOf: BatchId)
    ensures Undisturbed(s, i, m + n, batchOf) == Undisturbed(Undisturbed(s, i, m, batchOf), i, n, batchOf)
    decreases m
  {
    if m > 0 {
      UndisturbedAdds(Next(s, Advance(i), batchOf), i, m - 1, n, batchOf);
    }
  }

  lemma {:induction false} DoneStays(s: State, i: nat, n: nat, batchOf: BatchId)
    requires i < |s.workers| && s.workers[i] == Done
    ensures Undisturbed(s, i, n, batchOf) == s
    decreases n
  {
    if n > 0 {
      DoneStays(s, i, n - 1, batchOf);
    }
  }

  /** One undisturbed step leads onwards, or to the end. */
  ghost predicate Onwards(s: State, t: State, i: nat, c: nat, w: Window)
    requires i < |s.workers|
  {
    && t.source == s.source && i + 1 == |t.workers| == |t.audits| && Remaining(s.workers[i]) > 0
    && (t.workers[i] != Done ==> OnTrack(t, c, w) && Remaining(t.workers[i]) < Remaining(s.workers[i]))
    && (t.workers[i] == Done ==> Outcome(t, i, c, w))
  }

  ghost predicate Outcome(t: State, i: nat, c: nat, w: Window) {
    && i < |t.audits|
    && if HoldsRow(t.source, w) then SuccessAt(t, i, w.version) && WindowOf(t, i) == w && t.watermark == w.high
       else Frozen(t, c, w) && t.audits[i].status == NO_DATA
  }

  lemma EarlyStep(s: State, i: nat, batchOf: BatchId)
    requires i < |s.workers| && i < |s.audits| && Remaining(s.workers[i]) >= 5 && !s.workers[i].Fresh?
    requires s.workers[i] != Raised
    ensures var t := Advanced(s, i, batchOf);
      && t.source == s.source && |t.workers| == |s.workers| && |t.audits| == |s.audits|
      && (t.workers[i].Fresh? || Remaining(t.workers[i]) < Remaining(s.workers[i]))
      && t.workers[i] != Raised && t.workers[i] != Done && RowsOf(t.workers[i]).None?
  {}

  lemma ResolvingStep(s: State, i: nat, c: nat, w: Window, batchOf: BatchId)
    requires OnTrack(s, c, w) && i == |s.workers| - 1 && Remaining(s.workers[i]) >= 5
    requires Frozen(Advanced(s, i, batchOf), c, w)
    ensures Onwards(s, Advanced(s, i, batchOf), i, c, w)
  {
    EarlyStep(s, i, batchOf);
    hide Advanced, CasInv;
  }

  lemma ExtractingStep(s: State, i: nat, c: nat, w: Window, batchOf: BatchId)
    requires OnTrack(s, c, w) && i == |s.workers| - 1 && s.workers[i].Recorded?
    requires Frozen(Advanced(s, i, batchOf), c, w)
    ensures Onwards(s, Advanced(s, i, batchOf), i, c, w)
  {
    assert |s.audits| == |s.workers|;
    hide CasInv;
    CursorOrder();
  }

  lemma LandingStep(s: State, i: nat, c: nat, w: Window, batchOf: BatchId)
    requires OnTrack(s, c, w) && i == |s.workers| - 1 && s.workers[i].Extracted?
    requires Frozen(Advanced(s, i, batchOf), c, w)
    ensures Onwards(s, Advanced(s, i, batchOf), i, c, w)
  {
    assert |s.audits| == |s.workers|;
    hide CasInv;
    ExtractMembers(s.source, w.low, w.high);
  }

  lemma VerifyingStep(s: State, i: nat, c: nat, w: Window, batchOf: BatchId)
    requires OnTrack(s, c, w) && i == |s.workers| - 1 && s.workers[i].Landed?
    requires Frozen(Advanced(s, i, batchOf), c, w)
    ensures Onwards(s, Advanced(s, i, batchOf), i, c, w)
  {
    assert |s.audits| == |s.workers|;
    hide CasInv;
  }

  lemma CommittingStep(s: State, i: nat, c: nat, w: Window, batchOf: BatchId)
    requires OnTrack(s, c, w) && i == |s.workers| - 1 && s.workers[i].Verified?
    ensures Onwards(s, Advanced(s, i, batchOf), i, c, w)
  {
    assert WorkerOk(s, i);
    ExtractMembers(s.source, w.low, w.high);
    var r := s.workers[i].rows[0];
    assert r in s.workers[i].rows;
    assert HoldsRow(s.source, w);
  }

  lemma OnTrackStep(s: State, c: nat, w: Window, batchOf: BatchId)
    requires OnTrack(s, c, w)
    ensures Onwards(s, Next(s, Advance(|s.workers| - 1), batchOf), |s.workers| - 1, c, w)
  {
    var i := |s.workers| - 1;
    FrozenStep(s, c, w, Advance(i), batchOf);
    if s.workers[i].Recorded? {
      ExtractingStep(s, i, c, w, batchOf);
    } else if s.workers[i].Extracted? {
      LandingStep(s, i, c, w, batchOf);
    } else if s.workers[i].Landed? {
      VerifyingStep(s, i, c, w, batchOf);
    } else if s.workers[i].Verified? {
      CommittingStep(s, i, c, w, batchOf);
    } else {
      ResolvingStep(s, i, c, w, batchOf);
    }
  }

  lemma {:induction false} OnTrackFinishes(s: State, i: nat, c: nat, w: Window, n: nat, batchOf: BatchId)
    requires i + 1 == |s.workers| && OnTrack(s, c, w) && n >= Remaining(s.workers[i])
    ensures Outcome(Undisturbed(s, i, n, batchOf), i, c, w)
    ensures Undisturbed(s, i, n, batchOf).source == s.source
    decreases n
  {
    hide OnTrack, Outcome, Next;
    var t := Next(s, Advance(i), batchOf);
    OnTrackStep(s, c, w, batchOf);
    assert Undisturbed(s, i, n, batchOf) == Undisturbed(t, i, n - 1, batchOf);
    if t.workers[i] == Done {
      DoneStays(t, i, n - 1, batchOf);
    } else {
      OnTrackFinishes(t, i, c, w, n - 1, batchOf);
    }
  }

  /** A non-failing retry of a frozen window commits it if and only if the window still holds a row. Otherwise it ends
      as NO_DATA and the same window stays frozen. */
  lemma RetryCommitsIffRowRemains(s: State, c: nat, w: Window, n: nat, batchOf: BatchId)
    requires Frozen(s, c, w) && n >= 9
    ensures var i := |s.workers|;
      var t := Undisturbed(Next(s, Begin, batchOf), i, n, batchOf);
      && (HoldsRow(s.source, w) <==> SuccessAt(t, i, w.version))
      && (HoldsRow(s.source, w) ==> WindowOf(t, i) == w && t.watermark == w.high)
      && (!HoldsRow(s.source, w) ==> Frozen(t, c, w) && i < |t.audits| && t.audits[i].status == NO_DATA)
  {
    var t := Next(s, Begin, batchOf);
    FrozenStep(s, c, w, Begin, batchOf);
    assert OnTrack(t, c, w);
    OnTrackFinishes(t, |s.workers|, c, w, n, batchOf);
  }

  // ---- The fixed point ----

  /** A frozen window that holds no row any more. */
  ghost predicate Stuck(s: State, c: nat, w: Window) {
    && Frozen(s, c, w) && !HoldsRow(s.source, w)
    && (c + 1 < |s.workers| && RowsOf(s.workers[|s.workers| - 1]).Some? ==> s.workers[|s.workers| - 1].rows == [])
    && (c + 1 < |s.workers| ==> !s.workers[|s.workers| - 1].Landed? && !s.workers[|s.workers| - 1].Verified?)
  }

  lemma StillEmpty(s: State, c: nat, w: Window, step: Step, batchOf: BatchId)
    requires Stuck(s, c, w) && FreshStep(s, step)
    ensures !HoldsRow(Next(s, step, batchOf).source, w)
  {
    assert InPlay(s, w);
    CursorOrder();
  }

  lemma StuckAdvance(s: State, c: nat, w: Window, i: nat, batchOf: BatchId)
    requires Stuck(s, c, w) && c < i == |s.workers| - 1 && i < |s.audits|
    ensures var t := Advanced(s, i, batchOf);
      && i < |t.workers| && t.landing == s.landing && !t.workers[i].Landed? && !t.workers[i].Verified?
      && (RowsOf(t.workers[i]).Some? ==> t.workers[i].rows == [])
  {
    ExtractMembers(s.source, w.low, w.high);
    assert OnWindow(s.workers[i], w);
  }

  lemma StuckWorker(s: State, c: nat, w: Window, step: Step, batchOf: BatchId)
    requires Stuck(s, c, w) && Sequential(s, step) && Frozen(Next(s, step, batchOf), c, w)
    requires !HoldsRow(Next(s, step, batchOf).source, w)
    ensures Stuck(Next(s, step, batchOf), c, w) && Next(s, step, batchOf).landing == s.landing
  {
    assert |s.audits| == |s.workers|;
    if step.Advance? && c < step.worker {
      StuckAdvance(s, c, w, step.worker, batchOf);
    }
    hide CasInv, HoldsRow;
  }

  lemma StuckStep(s: State, c: nat, w: Window, step: Step, batchOf: BatchId)
    requires Stuck(s, c, w) && Sequential(s, step) && FreshStep(s, step)
    ensures var t := Next(s, step, batchOf);
      && Stuck(t, c, w) && t.version == s.version && t.watermark == s.watermark
      && (forall r :: Delivered(t, r) <==> Delivered(s, r))
  {
    FrozenStep(s, c, w, step, batchOf);
    QuietStep(s, step, batchOf);
    StillEmpty(s, c, w, step, batchOf);
    StuckWorker(s, c, w, step, batchOf);
    SameDelivery(s, Next(s, step, batchOf));
  }

  lemma SameDelivery(s: State, t: State)
    requires t.landing == s.landing && |t.audits| >= |s.audits|
    requires forall i :: 0 <= i < |t.audits| ==>
      (t.audits[i].status == SUCCESS <==> i < |s.audits| && s.audits[i].status == SUCCESS)
    requires forall i :: 0 <= i < |s.audits| && s.audits[i].status == SUCCESS ==> t.audits[i] == s.audits[i]
    ensures forall r :: Delivered(t, r) <==> Delivered(s, r)
  {}

  /** An emptied window is a fixed point: in every sequential continuation, with any source changes above the captured
      HIGH, the watermark never moves and no row is ever delivered that was not delivered before. */
  lemma {:induction false} EmptiedWindowIsFixedPoint(s: State, c: nat, w: Window, steps: seq<Step>, batchOf: BatchId)
    requires Stuck(s, c, w) && SequentialSteps(s, steps, batchOf) && FreshSteps(s, steps, batchOf)
    ensures var t := Steps(s, steps, batchOf);
      && Stuck(t, c, w) && t.version == s.version && t.watermark == s.watermark
      && (forall r :: Delivered(t, r) <==> Delivered(s, r))
  {
    if steps != [] {
      var init, last := steps[..|steps| - 1], steps[|steps| - 1];
      EmptiedWindowIsFixedPoint(s, c, w, init, batchOf);
      StuckStep(Steps(s, init, batchOf), c, w, last, batchOf);
    }
  }

  /** The six steps by which a first attempt records its window. */
  const FIRST_WINDOW: seq<Step> := [Begin, Advance(0), Advance(0), Advance(0), Advance(0), Advance(0)]

  /** The fixed point is reachable: the first attempt dies after recording its window, and before the next one starts
      the only row of the window is updated. The updated row is then never delivered. */
  lemma FixedPointIsReachable(r: SourceRow, updated: SourceRow, batchOf: BatchId)
    requires r.updatedAt.Some? && Lt(r.Position(), updated.Position())
    ensures var w := Window(1, INITIAL, r.Position(), batchOf(INITIAL, r.Position()));
      var s := Steps(Origin([r]), FIRST_WINDOW, batchOf);
      var t := Next(Next(s, Begin, batchOf), Edit([updated]), batchOf);
      && FreshChange(Next(s, Begin, batchOf), [updated]) && Stuck(t, 0, w) && !Delivered(t, updated)
  {
    var s := FirstWindow(r, FIRST_WINDOW, batchOf);
    CasSafety([r], FIRST_WINDOW, batchOf);
    StepInv(s, Begin, batchOf);
    var b := Next(s, Begin, batchOf);
    StepInv(b, Edit([updated]), batchOf);
    CursorOrder();
  }

  lemma FirstWindow(r: SourceRow, f: seq<Step>, batchOf: BatchId) returns (s: State)
    requires r.updatedAt.Some? && |f| == 6 && f[0] == Begin && forall k :: 1 <= k < 6 ==> f[k] == Advance(0)
    ensures s == Steps(Origin([r]), f, batchOf)
    ensures var w := Window(1, INITIAL, r.Position(), batchOf(INITIAL, r.Position()));
      s == State(1, INITIAL, [Audit(Some(w), RUNNING, 0)], [Worker.Recorded(w)], map[], [r])
  {
    var o, a := Origin([r]), Audit(None, RUNNING, 0);
    var w := Window(1, INITIAL, r.Position(), batchOf(INITIAL, r.Position()));
    var s3 := State(1, INITIAL, [a], [Checking(1, INITIAL, 1, INITIAL)], map[], [r]);
    FirstSteps(o, f, batchOf);
    FirstReads(r, batchOf);
    CaptureOne(r);
    var s4 := Next(s3, Advance(0), batchOf);
    assert s4 == State(1, INITIAL, [a], [Worker.Fresh(1, INITIAL)], map[], [r]);
    var s5 := Next(s4, Advance(0), batchOf);
    assert s5 == State(1, INITIAL, [a], [Resolved(w)], map[], [r]);
    s := Next(s5, Advance(0), batchOf);
  }

  lemma FirstReads(r: SourceRow, batchOf: BatchId)
    ensures Next(Next(Next(Origin([r]), Begin, batchOf), Advance(0), batchOf), Advance(0), batchOf)
            == State(1, INITIAL, [Audit(None, RUNNING, 0)], [Checking(1, INITIAL, 1, INITIAL)], map[], [r])
  {
    var a := Audit(None, RUNNING, 0);
    var s1 := Next(Origin([r]), Begin, batchOf);
    assert s1 == State(1, INITIAL, [a], [Started], map[], [r]);
    var s2 := Next(s1, Advance(0), batchOf);
    assert s2 == State(1, INITIAL, [a], [Read(1, INITIAL)], map[], [r]);
  }

  lemma FirstSteps(o: State, f: seq<Step>, batchOf: BatchId)
    requires |f| == 6 && f[0] == Begin && forall k :: 1 <= k < 6 ==> f[k] == Advance(0)
    ensures Steps(o, f, batchOf) ==
      Next(Next(Next(Next(Next(Next(o, Begin, batchOf), Advance(0), batchOf), Advance(0), batchOf), Advance(0),
                     batchOf),
                Advance(0), batchOf), Advance(0), batchOf)
  {
    hide Next;
    assert f[..0] == [] && f[..6] == f;
    StepsPrefix(o, f, 0, batchOf);
    StepsPrefix(o, f, 1, batchOf);
    StepsPrefix(o, f, 2, batchOf);
    StepsPrefix(o, f, 3, batchOf);
    StepsPrefix(o, f, 4, batchOf);
    StepsPrefix(o, f, 5, batchOf);
  }

  lemma StepsPrefix(s: State, steps: seq<Step>, k: nat, batchOf: BatchId)
    requires k < |steps|
    ensures Steps(s, steps[..k + 1], batchOf) == Next(Steps(s, steps[..k], batchOf), steps[k], batchOf)
  {
    assert steps[..k + 1][..k] == steps[..k];
  }

  lemma CaptureOne(r: SourceRow)
    requires r.updatedAt.Some?
    ensures Capture([r]) == r.Position()
  {
    assert [r][..0] == [];
    CursorOrder();
    assert r in [r] && Le(r.Position(), Capture([r]));
  }
}
