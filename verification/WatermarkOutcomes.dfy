/** How a run's audit record ends: FAILED, NO_DATA or SUCCESS, and why (src/watermark/pipeline.py:121-224). */
module WatermarkOutcomes {
  import opened Cdc
  import opened Ordering
  import opened Watermark
  import opened WatermarkSafety
  import opened WatermarkRecovery

  // ---- The failure path ----

  /** The run is over and its record says so; nothing else has changed. */
  ghost predicate EndedAs(s: State, t: State, i: nat, status: RunStatus, rows: nat)
    requires i < |s.workers| && i < |s.audits|
  {
    && |t.workers| == |s.workers| && |t.audits| == |s.audits|
    && t.workers[i] == Done && t.audits[i] == Audit(s.audits[i].window, status, rows)
    && (forall j :: 0 <= j < |s.workers| && j != i ==> t.workers[j] == s.workers[j])
    && (forall j :: 0 <= j < |s.audits| && j != i ==> t.audits[j] == s.audits[j])
    && t.landing == s.landing && t.source == s.source
  }

  /** An error at any point marks the record FAILED with no rows, its window as it was. */
  lemma ErrorFails(s: State, i: nat, batchOf: BatchId)
    requires i < |s.workers| && i < |s.audits| && s.workers[i] != Done
    ensures var t := Next(s, Fail(i), batchOf);
      EndedAs(s, t, i, FAILED, 0) && t.version == s.version && t.watermark == s.watermark
  {}

  /** The landed file is missing or has another number of rows, or the version has moved since it was read. */
  predicate Refused(s: State, i: nat)
    requires i < |s.workers|
  {
    match s.workers[i]
    case Landed(w, rows) => w.batch !in s.landing || |s.landing[w.batch]| != |rows|
    case Verified(w, rows) => s.version != w.version
    case _ => false
  }

  /** A run whose file is refused, or that loses the compare-and-swap, ends as FAILED, with whatever others do to the
      stores in between. */
  lemma RefusalFails(s: State, u: State, i: nat, batchOf: BatchId)
    requires i < |s.workers| && i < |s.audits| && Refused(s, i)
    requires i < |u.workers| && i < |u.audits| && u.workers[i] == Next(s, Advance(i), batchOf).workers[i]
    ensures var t := Next(s, Advance(i), batchOf);
      t.audits == s.audits && t.landing == s.landing && t.version == s.version && t.watermark == s.watermark
    ensures var x := Next(u, Advance(i), batchOf);
      EndedAs(u, x, i, FAILED, 0) && x.version == u.version && x.watermark == u.watermark
  {}

  /** A commit ends the run as SUCCESS with the number of rows it landed. */
  lemma CommitSucceeds(s: State, i: nat, batchOf: BatchId)
    requires i < |s.workers| && i < |s.audits| && s.workers[i].Verified? && !Refused(s, i)
    ensures var t := Next(s, Advance(i), batchOf);
      && EndedAs(s, t, i, SUCCESS, |s.workers[i].rows|)
      && t.version == s.version + 1 && t.watermark == s.workers[i].window.high
  {}

  // ---- Every record tells what happened ----

  /** How many source rows lie in the window. */
  ghost function RowsInside(source: seq<SourceRow>, low: Cursor, high: Cursor): nat {
    |set j | 0 <= j < |source| && Lt(low, source[j].Position()) && Le(source[j].Position(), high)|
  }

  lemma SelectedSize(rows: seq<SourceRow>, low: Cursor, high: Cursor)
    ensures |Selected(rows, low, high)| == RowsInside(rows, low, high)
  {
    var inside := (r: SourceRow) => InWindow(r, low, high);
    FilterPositions(rows, inside);
    hide Lt, Le;
    assert Positions(rows, inside)
      == set j | 0 <= j < |rows| && Lt(low, rows[j].Position()) && Le(rows[j].Position(), high);
  }

  lemma ExtractSize(rows: seq<SourceRow>, low: Cursor, high: Cursor)
    ensures |Extract(rows, low, high)| == RowsInside(rows, low, high)
  {
    SelectedSize(rows, low, high);
    SortPermutes(Selected(rows, low, high), ExtractLe);
    assert |multiset(Extract(rows, low, high))| == |multiset(Selected(rows, low, high))|;
  }

  /** At some point of the run so far the window held exactly `n` source rows. */
  ghost predicate Counted(source: seq<SourceRow>, steps: seq<Step>, batchOf: BatchId, w: Window, n: nat) {
    exists k :: 0 <= k <= |steps| && CountedAt(source, steps, batchOf, w, n, k)
  }

  ghost predicate CountedAt(source: seq<SourceRow>, steps: seq<Step>, batchOf: BatchId, w: Window, n: nat, k: nat)
    requires k <= |steps|
  {
    RowsInside(Steps(Origin(source), steps[..k], batchOf).source, w.low, w.high) == n
  }

  /** At some point of the run so far the window's file had exactly `n` rows. */
  ghost predicate Filed(source: seq<SourceRow>, steps: seq<Step>, batchOf: BatchId, w: Window, n: nat) {
    exists k :: 0 <= k <= |steps| && FiledAt(source, steps, batchOf, w, n, k)
  }

  ghost predicate FiledAt(source: seq<SourceRow>, steps: seq<Step>, batchOf: BatchId, w: Window, n: nat, k: nat)
    requires k <= |steps|
  {
    var landing := Steps(Origin(source), steps[..k], batchOf).landing;
    w.batch in landing && |landing[w.batch]| == n
  }

  lemma PastStays(source: seq<SourceRow>, steps: seq<Step>, step: Step, batchOf: BatchId, w: Window, n: nat)
    ensures Counted(source, steps, batchOf, w, n) ==> Counted(source, steps + [step], batchOf, w, n)
    ensures Filed(source, steps, batchOf, w, n) ==> Filed(source, steps + [step], batchOf, w, n)
  {
    hide Steps, RowsInside;
    if k :| 0 <= k <= |steps| && CountedAt(source, steps, batchOf, w, n, k) {
      assert (steps + [step])[..k] == steps[..k];
      assert CountedAt(source, steps + [step], batchOf, w, n, k);
    }
    if k :| 0 <= k <= |steps| && FiledAt(source, steps, batchOf, w, n, k) {
      assert (steps + [step])[..k] == steps[..k];
      assert FiledAt(source, steps + [step], batchOf, w, n, k);
    }
  }

  lemma NowCounted(source: seq<SourceRow>, steps: seq<Step>, batchOf: BatchId, w: Window)
    ensures var s := Steps(Origin(source), steps, batchOf);
      Counted(source, steps, batchOf, w, |Extract(s.source, w.low, w.high)|)
      && (w.batch in s.landing ==> Filed(source, steps, batchOf, w, |s.landing[w.batch]|))
  {
    var s := Steps(Origin(source), steps, batchOf);
    ExtractSize(s.source, w.low, w.high);
    hide Steps, RowsInside, Extract;
    assert steps[..|steps|] == steps;
    assert CountedAt(source, steps, batchOf, w, |Extract(s.source, w.low, w.high)|, |steps|);
    if w.batch in s.landing {
      assert FiledAt(source, steps, batchOf, w, |s.landing[w.batch]|, |steps|);
    }
  }

  /** What a worker under way knows. */
  ghost predicate WorkerTells(source: seq<SourceRow>, steps: seq<Step>, batchOf: BatchId, s: State, i: nat)
    requires i < |s.workers|
  {
    match s.workers[i]
    case Extracted(w, rows) => Counted(source, steps, batchOf, w, |rows|)
    case Landed(w, rows) => rows != [] && Counted(source, steps, batchOf, w, |rows|)
    case Verified(w, rows) =>
      rows != [] && Counted(source, steps, batchOf, w, |rows|) && Filed(source, steps, batchOf, w, |rows|)
    case _ => true
  }

  /** A window that cannot hold a row. */
  predicate Degenerate(w: Window) { w.high.timestamp.None? || Le(w.high, w.low) }

  /** NO_DATA: the window could hold no row, or it held none when it was read. SUCCESS: the window held that many rows
      when it was read, at least one, and so did its file when it was verified. */
  ghost predicate RecordTells(source: seq<SourceRow>, steps: seq<Step>, batchOf: BatchId, a: Audit) {
    match a.status
    case RUNNING => a.rows == 0
    case FAILED => a.rows == 0
    case NO_DATA =>
      && a.rows == 0 && a.window.Some?
      && (Degenerate(a.window.value) || Counted(source, steps, batchOf, a.window.value, 0))
    case SUCCESS =>
      && a.rows > 0 && a.window.Some? && Counted(source, steps, batchOf, a.window.value, a.rows)
      && Filed(source, steps, batchOf, a.window.value, a.rows)
  }

  /** What is known of run `i`. */
  ghost predicate Tells(source: seq<SourceRow>, steps: seq<Step>, batchOf: BatchId, s: State, i: nat)
    requires i < |s.workers| && i < |s.audits|
  {
    && RecordTells(source, steps, batchOf, s.audits[i]) && WorkerTells(source, steps, batchOf, s, i)
    && (s.workers[i] == Done ==> s.audits[i].status != RUNNING)
    && (s.audits[i].status == NO_DATA || s.audits[i].status == SUCCESS ==> s.workers[i] == Done)
  }

  lemma TellsStays(source: seq<SourceRow>, steps: seq<Step>, step: Step, batchOf: BatchId, s: State, t: State, i: nat)
    requires i < |s.workers| && i < |s.audits| && Tells(source, steps, batchOf, s, i)
    requires i < |t.workers| && i < |t.audits| && t.workers[i] == s.workers[i]
    requires t.audits[i] == s.audits[i]
             || (s.audits[i].status == RUNNING && t.audits[i] == s.audits[i].(status := FAILED))
    ensures Tells(source, steps + [step], batchOf, t, i)
  {
    forall w, n
      ensures Counted(source, steps, batchOf, w, n) ==> Counted(source, steps + [step], batchOf, w, n)
      ensures Filed(source, steps, batchOf, w, n) ==> Filed(source, steps + [step], batchOf, w, n)
    {
      PastStays(source, steps, step, batchOf, w, n);
    }
    hide Counted, Filed;
  }

  /** Another worker's step, a source change or a new run leaves this run's worker alone, and its record unless it is
      superseded. */
  lemma OthersLeave(s: State, step: Step, batchOf: BatchId, i: nat)
    requires i < |s.workers| && |s.workers| == |s.audits| && step != Advance(i) && step != Fail(i)
    ensures var t := Next(s, step, batchOf);
      && i < |t.workers| && i < |t.audits| && t.workers[i] == s.workers[i]
      && (t.audits[i] == s.audits[i]
          || (s.audits[i].status == RUNNING && t.audits[i] == s.audits[i].(status := FAILED)))
  {
    hide Extract, Capture, Recoverable, Lt, Le;
  }

  /** What has been seen stays seen. */
  ghost predicate Carried(source: seq<SourceRow>, steps: seq<Step>, step: Step, batchOf: BatchId) {
    && (forall w, n :: Counted(source, steps, batchOf, w, n) ==> Counted(source, steps + [step], batchOf, w, n))
    && forall w, n :: Filed(source, steps, batchOf, w, n) ==> Filed(source, steps + [step], batchOf, w, n)
  }

  lemma AllCarried(source: seq<SourceRow>, steps: seq<Step>, step: Step, batchOf: BatchId)
    ensures Carried(source, steps, step, batchOf)
  {
    forall w, n
      ensures Counted(source, steps, batchOf, w, n) ==> Counted(source, steps + [step], batchOf, w, n)
      ensures Filed(source, steps, batchOf, w, n) ==> Filed(source, steps + [step], batchOf, w, n)
    {
      PastStays(source, steps, step, batchOf, w, n);
    }
  }

  lemma RecordCarried(source: seq<SourceRow>, steps: seq<Step>, step: Step, batchOf: BatchId, a: Audit)
    requires RecordTells(source, steps, batchOf, a) && Carried(source, steps, step, batchOf)
    ensures RecordTells(source, steps + [step], batchOf, a)
  {
    hide Counted, Filed, Degenerate;
  }

  lemma OpeningTells(source: seq<SourceRow>, steps: seq<Step>, batchOf: BatchId, s: State, i: nat)
    requires BothOk(s, i) && Tells(source, steps, batchOf, s, i) && Carried(source, steps, Advance(i), batchOf)
    requires s.workers[i].Started? || s.workers[i].Read? || s.workers[i].Checking? || s.workers[i].Fresh?
             || s.workers[i].Adopting? || s.workers[i].Resolved?
    ensures var t := Advanced(s, i, batchOf);
      i < |t.workers| && i < |t.audits| && Tells(source, steps + [Advance(i)], batchOf, t, i)
  {
    hide Counted, Filed, Capture, Recoverable, Point, AuditOk;
  }

  /** Reading the window is where the number of its rows is known from. */
  lemma ReadingTells(source: seq<SourceRow>, steps: seq<Step>, batchOf: BatchId, s: State, i: nat)
    requires s == Steps(Origin(source), steps, batchOf) && BothOk(s, i) && Tells(source, steps, batchOf, s, i)
    requires Carried(source, steps, Advance(i), batchOf) && s.workers[i].Recorded?
    ensures var t := Advanced(s, i, batchOf);
      i < |t.workers| && i < |t.audits| && Tells(source, steps + [Advance(i)], batchOf, t, i)
  {
    var w := s.workers[i].window;
    NowCounted(source, steps, batchOf, w);
    RecordCarried(source, steps, Advance(i), batchOf, s.audits[i]);
    hide Counted, Filed, Extract, Point, AuditOk, Steps, Lt, Le, Carried;
    if !(w.high == INITIAL || Le(w.high, w.low)) {
      hide RecordTells, Degenerate;
      assert Advanced(s, i, batchOf).audits[i] == s.audits[i];
    }
  }

  lemma LandingTells(source: seq<SourceRow>, steps: seq<Step>, batchOf: BatchId, s: State, i: nat)
    requires BothOk(s, i) && Tells(source, steps, batchOf, s, i)
    requires Carried(source, steps, Advance(i), batchOf) && s.workers[i].Extracted?
    ensures var t := Advanced(s, i, batchOf);
      i < |t.workers| && i < |t.audits| && Tells(source, steps + [Advance(i)], batchOf, t, i)
  {
    hide Counted, Filed, Extract, Point, AuditOk, Steps, Lt, Le;
  }

  /** Verifying the file is where the number of its rows is known from. */
  lemma VerifyingTells(source: seq<SourceRow>, steps: seq<Step>, batchOf: BatchId, s: State, i: nat)
    requires s == Steps(Origin(source), steps, batchOf) && BothOk(s, i) && Tells(source, steps, batchOf, s, i)
    requires Carried(source, steps, Advance(i), batchOf) && s.workers[i].Landed?
    ensures var t := Advanced(s, i, batchOf);
      i < |t.workers| && i < |t.audits| && Tells(source, steps + [Advance(i)], batchOf, t, i)
  {
    NowCounted(source, steps, batchOf, s.workers[i].window);
    hide Counted, Filed, Extract, Point, AuditOk, Steps, Lt, Le;
  }

  lemma ClosingTells(source: seq<SourceRow>, steps: seq<Step>, batchOf: BatchId, s: State, i: nat)
    requires BothOk(s, i) && Tells(source, steps, batchOf, s, i) && Carried(source, steps, Advance(i), batchOf)
    requires s.workers[i].Verified? || s.workers[i].Raised? || s.workers[i].Done?
    ensures var t := Advanced(s, i, batchOf);
      i < |t.workers| && i < |t.audits| && Tells(source, steps + [Advance(i)], batchOf, t, i)
  {
    hide Counted, Filed, Extract, Point, AuditOk, Steps, Lt, Le;
  }

  lemma OwnStepTells(source: seq<SourceRow>, steps: seq<Step>, step: Step, batchOf: BatchId, s: State, i: nat)
    requires s == Steps(Origin(source), steps, batchOf) && BothOk(s, i) && Tells(source, steps, batchOf, s, i)
    requires step == Advance(i) || step == Fail(i)
    ensures var t := Next(s, step, batchOf);
      i < |t.workers| && i < |t.audits| && Tells(source, steps + [step], batchOf, t, i)
  {
    AllCarried(source, steps, step, batchOf);
    if step == Fail(i) {
      hide Counted, Filed, BothOk;
    } else {
      hide Carried, Tells, Advanced;
      match s.workers[i]
      case Recorded(_) => ReadingTells(source, steps, batchOf, s, i);
      case Extracted(_, _) => LandingTells(source, steps, batchOf, s, i);
      case Landed(_, _) => VerifyingTells(source, steps, batchOf, s, i);
      case Verified(_, _) => ClosingTells(source, steps, batchOf, s, i);
      case Raised => ClosingTells(source, steps, batchOf, s, i);
      case Done => ClosingTells(source, steps, batchOf, s, i);
      case _ => OpeningTells(source, steps, batchOf, s, i);
    }
  }

  lemma StepTells(source: seq<SourceRow>, steps: seq<Step>, step: Step, batchOf: BatchId, s: State, i: nat)
    requires s == Steps(Origin(source), steps, batchOf) && CasInv(s)
    requires forall j :: 0 <= j < |s.workers| ==> Tells(source, steps, batchOf, s, j)
    requires i < |Next(s, step, batchOf).workers|
    ensures var t := Next(s, step, batchOf); i < |t.audits| && Tells(source, steps + [step], batchOf, t, i)
  {
    var t := Next(s, step, batchOf);
    if i < |s.workers| {
      assert WorkerOk(s, i) && AuditOk(s, i) && Tells(source, steps, batchOf, s, i);
      hide Tells, CasInv;
      if step == Advance(i) || step == Fail(i) {
        OwnStepTells(source, steps, step, batchOf, s, i);
      } else {
        OthersLeave(s, step, batchOf, i);
        hide Next;
        TellsStays(source, steps, step, batchOf, s, t, i);
      }
    }
  }

  /** Every record of every reachable state tells what happened to its run: RUNNING only while the worker is under way,
      NO_DATA only if the window could hold no row or held none when it was read, SUCCESS only with the number of rows
      that were read and verified on file, and FAILED otherwise. */
  lemma {:induction false} RecordsTell(source: seq<SourceRow>, steps: seq<Step>, batchOf: BatchId)
    ensures var s := Steps(Origin(source), steps, batchOf);
      && |s.workers| == |s.audits|
      && forall i :: 0 <= i < |s.workers| ==> Tells(source, steps, batchOf, s, i)
  {
    CasSafety(source, steps, batchOf);
    if steps != [] {
      var init, last := steps[..|steps| - 1], steps[|steps| - 1];
      var s := Steps(Origin(source), init, batchOf);
      CasSafety(source, init, batchOf);
      RecordsTell(source, init, batchOf);
      assert steps == init + [last];
      hide Tells, CasInv, Next;
      forall i | 0 <= i < |Next(s, last, batchOf).workers|
        ensures i < |Next(s, last, batchOf).audits| && Tells(source, steps, batchOf, Next(s, last, batchOf), i)
      {
        StepTells(source, init, last, batchOf, s, i);
      }
    }
  }

  // ---- One run, start to end ----

  function StepsLeft(worker: Worker): nat {
    match worker
    case Started => 10
    case Read(_, _) => 9
    case Checking(_, _, _, _) => 8
    case Fresh(_, _) => 7
    case Adopting(_, _) => 7
    case Resolved(_) => 6
    case Recorded(_) => 5
    case Extracted(_, _) => 4
    case Landed(_, _) => 3
    case Verified(_, _) => 2
    case Raised => 1
    case Done => 0
  }

  /** A run left to itself ends within ten steps, and once it is over its record is closed. */
  lemma {:induction false} RunEnds(s: State, i: nat, n: nat, batchOf: BatchId)
    requires i < |s.workers| && i < |s.audits| && (s.workers[i] == Done ==> s.audits[i].status != RUNNING)
    ensures var t := Undisturbed(s, i, n, batchOf);
      && i < |t.workers| && i < |t.audits| && (n >= StepsLeft(s.workers[i]) ==> t.workers[i] == Done)
      && (t.workers[i] == Done ==> t.audits[i].status != RUNNING)
    decreases n
  {
    if n > 0 {
      StepCloses(s, i, batchOf);
      hide Next;
      RunEnds(Next(s, Advance(i), batchOf), i, n - 1, batchOf);
    }
  }

  lemma StepCloses(s: State, i: nat, batchOf: BatchId)
    requires i < |s.workers| && i < |s.audits| && (s.workers[i] == Done ==> s.audits[i].status != RUNNING)
    ensures var t := Next(s, Advance(i), batchOf);
      && |t.workers| == |s.workers| && |t.audits| == |s.audits|
      && (s.workers[i] != Done ==> StepsLeft(t.workers[i]) < StepsLeft(s.workers[i]))
      && (t.workers[i] == Done ==> t.audits[i].status != RUNNING)
  {
    hide Extract, Capture, Recoverable, Lt, Le;
  }

  /** Run `i` is under way and has not touched the stores, apart from its own record. */
  ghost predicate UnderWay(s: State, t: State, i: nat, worker: Worker, window: Option<Window>) {
    && i < |t.workers| == |t.audits| && t.workers[i] == worker && t.audits[i] == Audit(window, RUNNING, 0)
    && t.version == s.version && t.watermark == s.watermark && t.source == s.source && t.landing == s.landing
  }

  /** Nothing to recover: the run captures its own window. */
  lemma FreshWindow(s: State, t: State, i: nat, batchOf: BatchId)
    requires UnderWay(s, t, i, Started, None) && Recoverable(t.audits, s.version, s.watermark) == None
    ensures var w := Window(s.version, s.watermark, Capture(s.source), batchOf(s.watermark, Capture(s.source)));
      UnderWay(s, Undisturbed(t, i, 5, batchOf), i, Worker.Recorded(w), Some(w))
  {
    hide Extract, Capture, Lt, Le, Recoverable;
    var t1 := Next(t, Advance(i), batchOf);
    assert UnderWay(s, t1, i, Read(s.version, s.watermark), None) && t1.audits == t.audits;
    var t2 := Next(t1, Advance(i), batchOf);
    assert UnderWay(s, t2, i, Checking(s.version, s.watermark, s.version, s.watermark), None) && t2.audits == t.audits;
    var t3 := Next(t2, Advance(i), batchOf);
    assert UnderWay(s, t3, i, Worker.Fresh(s.version, s.watermark), None);
    var w := Window(s.version, s.watermark, Capture(s.source), batchOf(s.watermark, Capture(s.source)));
    var t4 := Next(t3, Advance(i), batchOf);
    assert UnderWay(s, t4, i, Resolved(w), None);
    var t5 := Next(t4, Advance(i), batchOf);
    assert UnderWay(s, t5, i, Worker.Recorded(w), Some(w));
    hide Next, UnderWay;
    FiveSteps(t, i, batchOf);
  }

  lemma FiveSteps(t: State, i: nat, batchOf: BatchId)
    ensures var step := (x: State) => Next(x, Advance(i), batchOf);
      Undisturbed(t, i, 5, batchOf) == step(step(step(step(step(t)))))
  {
    hide Next;
    UndisturbedSnoc(t, i, 4, batchOf);
    UndisturbedSnoc(t, i, 3, batchOf);
    UndisturbedSnoc(t, i, 2, batchOf);
    UndisturbedSnoc(t, i, 1, batchOf);
    UndisturbedSnoc(t, i, 0, batchOf);
  }

  /** How a run that is left to itself ends, once its window is recorded. */
  ghost predicate Delivers(s: State, t: State, i: nat, w: Window, rows: seq<SourceRow>)
  {
    && i < |t.workers| == |t.audits| && t.workers[i] == Done && t.source == s.source
    && if rows == [] then
         && t.audits[i] == Audit(Some(w), NO_DATA, 0)
         && t.version == s.version && t.watermark == s.watermark && t.landing == s.landing
       else
         && t.audits[i] == Audit(Some(w), SUCCESS, |rows|)
         && t.version == s.version + 1 && t.watermark == w.high && t.landing == s.landing[w.batch := rows]
  }

  lemma RecordedDelivers(s: State, t: State, i: nat, w: Window, n: nat, batchOf: BatchId)
    requires UnderWay(s, t, i, Worker.Recorded(w), Some(w)) && w.version == s.version && n >= 5
    ensures Delivers(s, Undisturbed(t, i, n, batchOf), i, w,
                     if Degenerate(w) then [] else Extract(s.source, w.low, w.high))
    decreases n
  {
    hide Capture, Lt, Recoverable, Extract;
    DegenerateIs(w);
    var t1 := Next(t, Advance(i), batchOf);
    assert Undisturbed(t, i, n, batchOf) == Undisturbed(t1, i, n - 1, batchOf);
    var rows := Extract(s.source, w.low, w.high);
    if Degenerate(w) {
      DoneStays(t1, i, n - 1, batchOf);
    } else {
      assert UnderWay(s, t1, i, Extracted(w, rows), Some(w));
      hide Degenerate, Le, Next, Delivers;
      ExtractedDelivers(s, t1, i, w, rows, n - 1, batchOf);
    }
  }

  lemma DegenerateIs(w: Window)
    ensures Degenerate(w) <==> w.high.timestamp.None? || Le(w.high, w.low)
    ensures w.high.timestamp.None? ==> Le(w.high, w.low)
  {}

  lemma ExtractedDelivers(s: State, t: State, i: nat, w: Window, rows: seq<SourceRow>, n: nat, batchOf: BatchId)
    requires UnderWay(s, t, i, Extracted(w, rows), Some(w)) && w.version == s.version && n >= 4
    ensures Delivers(s, Undisturbed(t, i, n, batchOf), i, w, rows)
  {
    hide Capture, Lt, Le, Recoverable, Extract;
    var t1 := Next(t, Advance(i), batchOf);
    assert Undisturbed(t, i, n, batchOf) == Undisturbed(t1, i, n - 1, batchOf);
    if rows == [] {
      DoneStays(t1, i, n - 1, batchOf);
    } else {
      var t2 := Next(t1, Advance(i), batchOf);
      assert Undisturbed(t1, i, n - 1, batchOf) == Undisturbed(t2, i, n - 2, batchOf);
      var t3 := Next(t2, Advance(i), batchOf);
      assert Undisturbed(t2, i, n - 2, batchOf) == Undisturbed(t3, i, n - 3, batchOf);
      DoneStays(t3, i, n - 3, batchOf);
    }
  }

  /** A run with nothing to recover, left to itself, delivers every source row above the watermark and moves it to the
      highest cursor; it ends as NO_DATA exactly when there is no such row. */
  lemma FreshRunDelivers(s: State, n: nat, batchOf: BatchId)
    requires |s.workers| == |s.audits| && Recoverable(s.audits, s.version, s.watermark) == None && n >= 10
    ensures var t := Undisturbed(Next(s, Begin, batchOf), |s.workers|, n, batchOf);
      && |t.audits| > |s.workers| && t.audits[|s.workers|].window.Some?
      && var w := t.audits[|s.workers|].window.value;
         && w.version == s.version && w.low == s.watermark && w.batch == batchOf(w.low, w.high)
         && (forall r :: r in s.source ==> Le(r.Position(), w.high))
         && (w.high == INITIAL || exists r :: r in s.source && r.Position() == w.high)
         && Delivers(s, t, |s.workers|, w, Extract(s.source, w.low, w.high))
         && (forall r :: r in Extract(s.source, w.low, w.high) <==> r in s.source && Lt(s.watermark, r.Position()))
  {
    var i, b := |s.workers|, Next(s, Begin, batchOf);
    var w := Window(s.version, s.watermark, Capture(s.source), batchOf(s.watermark, Capture(s.source)));
    OpenRecordIsNoCandidate(s.audits, s.version, s.watermark);
    WindowHolds(s.source, w);
    hide Capture, Extract, Le, Lt, Recoverable;
    FreshWindow(s, b, i, batchOf);
    hide Next;
    UndisturbedAdds(b, i, 5, n - 5, batchOf);
    RecordedDelivers(s, Undisturbed(b, i, 5, batchOf), i, w, n - 5, batchOf);
    hide Undisturbed, UnderWay;
  }

  /** What a freshly captured window holds. */
  lemma WindowHolds(source: seq<SourceRow>, w: Window)
    requires w.high == Capture(source)
    ensures Degenerate(w) ==> Extract(source, w.low, w.high) == []
    ensures forall r :: r in Extract(source, w.low, w.high) <==> r in source && Lt(w.low, r.Position())
  {
    ExtractMembers(source, w.low, w.high);
    CursorOrder();
  }

  /** The attempt may be resumed: it failed or was abandoned, and its window still starts at the stored state. */
  predicate Resumable(a: Audit, version: int, low: Cursor) {
    && MayResume(a) && a.window.value.version == version && Eq(a.window.value.low, low)
    && Lt(a.window.value.low, a.window.value.high)
  }

  predicate MayResume(a: Audit) {
    (a.status == FAILED || a.status == RUNNING) && a.window.Some? && a.window.value.high.timestamp.Some?
  }

  /** Only the latest attempt that failed or was abandoned is looked at. */
  lemma RecoverableIff(audits: seq<Audit>, version: int, low: Cursor, j: nat)
    ensures Recoverable(audits, version, low) == Some(j)
            <==> && j < |audits| && Resumable(audits[j], version, low)
                 && forall k :: j < k < |audits| ==> !MayResume(audits[k])
  {
    hide Eq, Lt, Le;
    forall k | 0 <= k < |audits| ensures MayResume(audits[k]) == Unfinished(audits[k]) {}
  }

  /** A record without a window does not stand in the way. */
  lemma OpenRecordIsNoCandidate(audits: seq<Audit>, version: int, low: Cursor)
    ensures Recoverable(audits + [Audit(None, RUNNING, 0)], version, low) == Recoverable(audits, version, low)
  {
    assert (audits + [Audit(None, RUNNING, 0)])[..|audits|] == audits;
  }
}
