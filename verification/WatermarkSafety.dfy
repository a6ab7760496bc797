/** What holds of the watermark protocol however its workers interleave, die, fail and retry
    (src/watermark/control_store.py:268-355, src/watermark/pipeline.py:76-224). */
module WatermarkSafety {
  import opened Cdc
  import opened Watermark

  // ---- Compare-and-swap ----

  /** A version and watermark that some worker read: the store has moved past it, or still stands there. */
  ghost predicate Point(s: State, version: int, low: Cursor) {
    1 <= version <= s.version && Le(low, s.watermark) && (version == s.version ==> low == s.watermark)
  }

  ghost predicate WorkerOk(s: State, i: nat)
    requires i < |s.workers| && i < |s.audits|
  {
    var a := s.audits[i];
    && (s.workers[i] != Done ==> a.status != SUCCESS)
    && match s.workers[i]
       case Started => a.window == None
       case Read(v, low) => a.window == None && Point(s, v, low)
       case Checking(v, low, cv, clow) =>
         && a.window == None && Point(s, v, low) && Point(s, cv, clow)
         && v <= cv && Le(low, clow) && (v == cv ==> low == clow)
       case Fresh(v, low) => a.window == None && Point(s, v, low)
       case Adopting(w, _) => a.window == None && Point(s, w.version, w.low)
       case Resolved(w) => a.window == None && Point(s, w.version, w.low)
       case Recorded(w) => a.window == Some(w) && Point(s, w.version, w.low)
       case Extracted(w, _) => a.window == Some(w) && Point(s, w.version, w.low) && Lt(w.low, w.high)
       case Landed(w, _) => a.window == Some(w) && Point(s, w.version, w.low) && Lt(w.low, w.high)
       case Verified(w, _) => a.window == Some(w) && Point(s, w.version, w.low) && Lt(w.low, w.high)
       case Raised => true
       case Done => true
  }

  ghost predicate AuditOk(s: State, i: nat)
    requires i < |s.audits|
  {
    var a := s.audits[i];
    && (a.window.Some? ==> Point(s, a.window.value.version, a.window.value.low))
    && (a.status == SUCCESS ==>
      a.window.Some? && a.window.value.version < s.version && Lt(a.window.value.low, a.window.value.high))
  }

  /** Run `i` committed version `v`. */
  ghost predicate SuccessAt(s: State, i: nat, v: int) {
    i < |s.audits| && s.audits[i].status == SUCCESS && s.audits[i].window.Some? && s.audits[i].window.value.version == v
  }

  ghost predicate Committed(s: State, v: int) { exists i :: SuccessAt(s, i, v) }

  function WindowOf(s: State, i: nat): Window
    requires i < |s.audits| && s.audits[i].window.Some?
  {
    s.audits[i].window.value
  }

  /** Exactly one SUCCESS audit per version step, and the SUCCESS windows are a gap-free and overlap-free chain from the
      initial cursor to the stored watermark. */
  ghost predicate Chain(s: State) {
    && (forall v :: 1 <= v < s.version ==> Committed(s, v))
    && (forall i, j, v :: SuccessAt(s, i, v) && SuccessAt(s, j, v) ==> i == j)
    && (forall i, j, v, u :: SuccessAt(s, i, v) && SuccessAt(s, j, u) && u == v + 1 ==>
      WindowOf(s, i).high == WindowOf(s, j).low)
    && (forall i, v :: SuccessAt(s, i, v) && v == 1 ==> WindowOf(s, i).low == INITIAL)
    && (forall i, v :: SuccessAt(s, i, v) && v == s.version - 1 ==> WindowOf(s, i).high == s.watermark)
    && (s.version == 1 ==> s.watermark == INITIAL)
  }

  ghost predicate CasInv(s: State) {
    && s.version >= 1 && |s.audits| == |s.workers|
    && (forall i :: 0 <= i < |s.workers| ==> WorkerOk(s, i))
    && (forall i :: 0 <= i < |s.audits| ==> AuditOk(s, i))
    && Chain(s)
  }

  /** A commit is a step that succeeds at the compare-and-swap. */
  predicate Commits(s: State, step: Step) {
    && step.Advance? && step.worker < |s.workers| && step.worker < |s.audits|
    && s.workers[step.worker].Verified? && s.workers[step.worker].window.version == s.version
  }

  /** Every step that is not a commit leaves version, watermark and SUCCESS audits alone. */
  lemma QuietStep(s: State, step: Step, batchOf: BatchId)
    requires CasInv(s) && !Commits(s, step)
    ensures var t := Next(s, step, batchOf);
      && t.version == s.version && t.watermark == s.watermark
      && |t.audits| == |t.workers| >= |s.audits|
      && forall i :: 0 <= i < |t.audits| ==>
        (t.audits[i].status == SUCCESS <==> i < |s.audits| && s.audits[i].status == SUCCESS)
    ensures var t := Next(s, step, batchOf);
      forall i :: 0 <= i < |s.audits| && s.audits[i].status == SUCCESS ==> t.audits[i] == s.audits[i]
  {
    if step.Advance? && step.worker < |s.workers| {
      assert WorkerOk(s, step.worker);
    }
    if step.Fail? && step.worker < |s.workers| {
      assert WorkerOk(s, step.worker);
    }
  }

  lemma QuietChain(s: State, t: State)
    requires Chain(s) && t.version == s.version && t.watermark == s.watermark && |t.audits| >= |s.audits|
    requires forall i :: 0 <= i < |t.audits| ==>
      (t.audits[i].status == SUCCESS <==> i < |s.audits| && s.audits[i].status == SUCCESS)
    requires forall i :: 0 <= i < |s.audits| && s.audits[i].status == SUCCESS ==> t.audits[i] == s.audits[i]
    ensures Chain(t)
  {
    forall i: nat, v ensures SuccessAt(t, i, v) <==> SuccessAt(s, i, v) {}
    forall v | 1 <= v < t.version ensures Committed(t, v) {
      assert Committed(s, v);
      var i :| SuccessAt(s, i, v);
      assert SuccessAt(t, i, v);
    }
  }

  lemma QuietWorkers(s: State, step: Step, batchOf: BatchId, i: nat)
    requires CasInv(s) && !Commits(s, step) && i < |Next(s, step, batchOf).workers|
    ensures var t := Next(s, step, batchOf); i < |t.audits| && WorkerOk(t, i) && AuditOk(t, i)
  {
    var t := Next(s, step, batchOf);
    QuietStep(s, step, batchOf);
    CursorOrder();
    if i < |s.workers| {
      assert WorkerOk(s, i) && AuditOk(s, i);
      hide Next, Chain;
      if step == Advance(i) || step == Fail(i) {
        OwnStep(s, step, batchOf, i);
      } else {
        OthersStep(s, step, batchOf, i);
      }
    }
  }

  /** Another worker's step changes at most this run's status, and only from RUNNING to FAILED. */
  lemma OthersStep(s: State, step: Step, batchOf: BatchId, i: nat)
    requires CasInv(s) && !Commits(s, step) && i < |s.workers| && step != Advance(i) && step != Fail(i)
    ensures var t := Next(s, step, batchOf);
      && i < |t.workers| && i < |t.audits| && t.workers[i] == s.workers[i]
      && (t.audits[i] == s.audits[i]
          || (s.audits[i].status == RUNNING && t.audits[i] == s.audits[i].(status := FAILED)))
  {}

  lemma OwnStep(s: State, step: Step, batchOf: BatchId, i: nat)
    requires CasInv(s) && !Commits(s, step) && i < |s.workers| && (step == Advance(i) || step == Fail(i))
    ensures var t := Next(s, step, batchOf); i < |t.workers| && i < |t.audits| && WorkerOk(t, i) && AuditOk(t, i)
  {
    assert WorkerOk(s, i) && AuditOk(s, i);
    if step == Advance(i) {
      match s.workers[i]
      case Started => OpeningStep(s, i, batchOf);
      case Read(_, _) => OpeningStep(s, i, batchOf);
      case Checking(_, _, _, _) => CheckingStep(s, i, batchOf);
      case Fresh(_, _) => WindowStep(s, i, batchOf);
      case Adopting(_, _) => AdoptingStep(s, i, batchOf);
      case Resolved(_) => WindowStep(s, i, batchOf);
      case Recorded(_) => ExtractStep(s, i, batchOf);
      case Extracted(_, _) => ExtractStep(s, i, batchOf);
      case Landed(_, _) => ClosingStep(s, i, batchOf);
      case Verified(_, _) => ClosingStep(s, i, batchOf);
      case Raised => ClosingStep(s, i, batchOf);
      case Done =>
    }
  }

  ghost predicate BothOk(s: State, i: nat) { i < |s.workers| && i < |s.audits| && WorkerOk(s, i) && AuditOk(s, i) }

  lemma OpeningStep(s: State, i: nat, batchOf: BatchId)
    requires BothOk(s, i) && s.version >= 1 && (s.workers[i].Started? || s.workers[i].Read?)
    ensures BothOk(Advanced(s, i, batchOf), i)
  {
    CursorOrder();
  }

  lemma CheckingStep(s: State, i: nat, batchOf: BatchId)
    requires BothOk(s, i) && (s.workers[i].Checking?)
    ensures BothOk(Advanced(s, i, batchOf), i)
  {}

  lemma WindowStep(s: State, i: nat, batchOf: BatchId)
    requires BothOk(s, i) && (s.workers[i].Fresh? || s.workers[i].Resolved?)
    ensures BothOk(Advanced(s, i, batchOf), i)
  {}

  lemma AdoptingStep(s: State, i: nat, batchOf: BatchId)
    requires BothOk(s, i) && (s.workers[i].Adopting?)
    ensures BothOk(Advanced(s, i, batchOf), i)
  {}

  lemma ExtractStep(s: State, i: nat, batchOf: BatchId)
    requires BothOk(s, i) && (s.workers[i].Recorded? || s.workers[i].Extracted?)
    ensures BothOk(Advanced(s, i, batchOf), i)
  {}

  lemma ClosingStep(s: State, i: nat, batchOf: BatchId)
    requires BothOk(s, i)
    requires || s.workers[i].Landed? || s.workers[i].Raised?
             || (s.workers[i].Verified? && s.workers[i].window.version != s.version)
    ensures BothOk(Advanced(s, i, batchOf), i)
  {}

  lemma CommitStep(s: State, step: Step, batchOf: BatchId)
    requires CasInv(s) && Commits(s, step)
    ensures CasInv(Next(s, step, batchOf))
    ensures Lt(s.watermark, Next(s, step, batchOf).watermark) && Next(s, step, batchOf).version == s.version + 1
  {
    var t, k := Next(s, step, batchOf), step.worker;
    var w := s.workers[k].window;
    assert WorkerOk(s, k);
    CursorOrder();
    forall i | 0 <= i < |t.workers| ensures WorkerOk(t, i) && AuditOk(t, i) {
      assert WorkerOk(s, i) && AuditOk(s, i);
    }
    CommitChain(s, t, k, w);
  }

  lemma CommitChain(s: State, t: State, k: nat, w: Window)
    requires Chain(s) && s.version >= 1 && k < |s.audits| && s.audits[k].window == Some(w)
    requires s.audits[k].status != SUCCESS
    requires w.version == s.version && w.low == s.watermark
    requires forall i :: 0 <= i < |s.audits| ==> AuditOk(s, i)
    requires t.version == s.version + 1 && t.watermark == w.high
    requires exists rows :: t.audits == s.audits[k := s.audits[k].(status := SUCCESS, rows := rows)]
    ensures Chain(t)
  {
    forall i: nat, v ensures SuccessAt(t, i, v) <==> SuccessAt(s, i, v) || (i == k && v == s.version) {}
    forall i: nat, v | SuccessAt(s, i, v) ensures v < s.version {
      assert AuditOk(s, i);
    }
    forall v | 1 <= v < t.version ensures Committed(t, v) {
      if v == s.version {
        assert SuccessAt(t, k, v);
      } else {
        assert Committed(s, v);
        var i :| SuccessAt(s, i, v);
        assert SuccessAt(t, i, v);
      }
    }
  }

  lemma StepInv(s: State, step: Step, batchOf: BatchId)
    requires CasInv(s)
    ensures CasInv(Next(s, step, batchOf))
  {
    if Commits(s, step) {
      CommitStep(s, step, batchOf);
    } else {
      var t := Next(s, step, batchOf);
      QuietStep(s, step, batchOf);
      QuietChain(s, t);
      forall i | 0 <= i < |t.workers| ensures WorkerOk(t, i) && AuditOk(t, i) {
        QuietWorkers(s, step, batchOf, i);
      }
    }
  }

  /** Compare-and-swap safety in every reachable state of every interleaving. */
  lemma {:induction false} CasSafety(source: seq<SourceRow>, steps: seq<Step>, batchOf: BatchId)
    ensures CasInv(Steps(Origin(source), steps, batchOf))
  {
    if steps != [] {
      CasSafety(source, steps[..|steps| - 1], batchOf);
      StepInv(Steps(Origin(source), steps[..|steps| - 1], batchOf), steps[|steps| - 1], batchOf);
    }
  }

  /** The watermark moves only by a commit, and a commit strictly raises it from the committing worker's LOW to its
      HIGH. */
  lemma OnlyCommitsMoveTheWatermark(source: seq<SourceRow>, steps: seq<Step>, step: Step, batchOf: BatchId)
    ensures var s := Steps(Origin(source), steps, batchOf);
      var t := Next(s, step, batchOf);
      if Commits(s, step) then
        && t.version == s.version + 1 && Lt(s.watermark, t.watermark)
        && s.watermark == s.workers[step.worker].window.low && t.watermark == s.workers[step.worker].window.high
      else t.version == s.version && t.watermark == s.watermark
  {
    var s := Steps(Origin(source), steps, batchOf);
    CasSafety(source, steps, batchOf);
    if Commits(s, step) {
      CommitStep(s, step, batchOf);
      assert WorkerOk(s, step.worker);
    } else {
      QuietStep(s, step, batchOf);
    }
  }

  /** Of two workers that resolved windows at one version, at most one can ever commit. */
  lemma LoserCannotCommit(source: seq<SourceRow>, steps: seq<Step>, later: seq<Step>, batchOf: BatchId, i: nat,
                          j: nat, v: int)
    requires i != j && SuccessAt(Steps(Origin(source), steps, batchOf), i, v)
    ensures !SuccessAt(Steps(Origin(source), steps + later, batchOf), j, v)
  {
    SuccessStays(source, steps, later, batchOf, i, v);
    CasSafety(source, steps + later, batchOf);
  }

  lemma {:induction false} SuccessStays(source: seq<SourceRow>, steps: seq<Step>, later: seq<Step>, batchOf: BatchId,
                                        i: nat, v: int)
    requires SuccessAt(Steps(Origin(source), steps, batchOf), i, v)
    ensures SuccessAt(Steps(Origin(source), steps + later, batchOf), i, v)
    decreases |later|
  {
    if later == [] {
      assert steps + later == steps;
    } else {
      var init, last := later[..|later| - 1], later[|later| - 1];
      assert (steps + later)[..|steps + later| - 1] == steps + init;
      SuccessStays(source, steps, init, batchOf, i, v);
      var s := Steps(Origin(source), steps + init, batchOf);
      CasSafety(source, steps + init, batchOf);
      if Commits(s, last) {
        assert WorkerOk(s, last.worker);
      } else {
        QuietStep(s, last, batchOf);
      }
    }
  }
}
