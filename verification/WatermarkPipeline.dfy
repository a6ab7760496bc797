/** The watermark pipeline itself, for one table: control store, source adapter and the extraction run
    (src/watermark/control_store.py, source_adapter.py, pipeline.py). The contract of a run is that the stores end
    exactly where the state machine of `Watermark` puts them. */
module WatermarkPipeline {
  import opened Cdc
  import opened Ordering
  import opened Watermark
  import opened WatermarkRecovery
  import opened WatermarkOutcomes

  class InMemorySourceAdapter {
    var rows: seq<SourceRow>

    constructor (rows: seq<SourceRow>)
      ensures this.rows == rows
    {
      this.rows := rows;
    }

    /** The highest cursor in the source. */
    method CaptureSourceHighWatermark() returns (high: Cursor)
      ensures high == Capture(rows)
    {
      high := INITIAL;
      for i := 0 to |rows|
        invariant high == Capture(rows[..i])
      {
        assert rows[..i + 1][..i] == rows[..i];
        if Lt(high, rows[i].Position()) {
          high := rows[i].Position();
        }
      }
      FullPrefix(rows);
    }

    /** The rows with LOW < cursor <= HIGH, sorted. */
    method ExtractBoundedWindow(low: Cursor, high: Cursor) returns (extracted: seq<SourceRow>)
      ensures extracted == Extract(rows, low, high)
    {
      extracted := [];
      for i := 0 to |rows|
        invariant extracted == Selected(rows[..i], low, high)
      {
        assert rows[..i + 1][..i] == rows[..i];
        if Lt(low, rows[i].Position()) && Le(rows[i].Position(), high) {
          extracted := extracted + [rows[i]];
        }
      }
      FullPrefix(rows);
      extracted := Sort(extracted, ExtractLe);
    }
  }

  datatype CommitError = ConcurrencyConflict | UnknownRun

  class SQLiteWatermarkControlStore {
    var version: int
    var watermark: Cursor
    var lastSuccessRun: Option<nat>
    var audits: seq<Audit>

    constructor ()
      ensures version == 1 && watermark == INITIAL && lastSuccessRun == None && audits == []
    {
      version, watermark, lastSuccessRun, audits := 1, INITIAL, None, [];
    }

    method StartRunAudit() returns (run: nat)
      modifies this`audits
      ensures run == |old(audits)| && audits == old(audits) + [Audit(None, RUNNING, 0)]
    {
      run := |audits|;
      audits := audits + [Audit(None, RUNNING, 0)];
    }

    method UpdateRunAuditWindow(run: nat, w: Window)
      requires run < |audits|
      modifies this`audits
      ensures audits == old(audits)[run := old(audits)[run].(window := Some(w))]
    {
      audits := audits[run := audits[run].(window := Some(w))];
    }

    /** The latest failed or abandoned attempt, if its window still starts at the state that was read. */
    method GetRecoverableWindow(currentVersion: int, currentLow: Cursor) returns (found: Option<nat>)
      ensures found == Recoverable(audits, currentVersion, currentLow)
      ensures forall j: nat ::
        found == Some(j) <==> && j < |audits| && Resumable(audits[j], currentVersion, currentLow)
                              && forall k :: j < k < |audits| ==> !MayResume(audits[k])
    {
      forall j: nat { RecoverableIff(audits, currentVersion, currentLow, j); }
      hide Resumable, MayResume;
      var i := |audits|;
      while i > 0 && !Unfinished(audits[i - 1])
        invariant 0 <= i <= |audits|
        invariant forall j :: i <= j < |audits| ==> !Unfinished(audits[j])
      {
        i := i - 1;
      }
      if i == 0 {
        return None;
      }
      var w := audits[i - 1].window.value;
      found := if w.version == currentVersion && Eq(w.low, currentLow) && Lt(w.low, w.high) then Some(i - 1) else None;
    }

    /** The record, if RUNNING, becomes FAILED with its window and row count as they were; no other record changes. */
    method MarkSuperseded(run: nat)
      modifies this`audits
      ensures |audits| == |old(audits)| && forall i :: 0 <= i < |audits| && i != run ==> audits[i] == old(audits)[i]
      ensures run < |audits| ==>
        audits[run].window == old(audits)[run].window && audits[run].rows == old(audits)[run].rows
      ensures run < |audits| ==>
        audits[run].status == if old(audits)[run].status == RUNNING then FAILED else old(audits)[run].status
    {
      if run < |audits| && audits[run].status == RUNNING {
        audits := audits[run := audits[run].(status := FAILED)];
      }
    }

    method CompleteRunAudit(run: nat, status: RunStatus, rows: nat)
      requires run < |audits|
      modifies this`audits
      ensures audits == old(audits)[run := old(audits)[run].(status := status, rows := rows)]
    {
      audits := audits[run := audits[run].(status := status, rows := rows)];
    }

    /** One transaction: both the compare-and-swap and the audit update, or neither. */
    method CommitSuccessfulRun(expectedVersion: int, newWatermark: Cursor, run: nat, rows: nat)
      returns (result: Result<int, CommitError>)
      modifies this
      ensures result == (if old(version) != expectedVersion then Err(ConcurrencyConflict)
                         else if run >= |old(audits)| then Err(UnknownRun)
                         else Ok(expectedVersion + 1))
      ensures result.Err? ==> version == old(version) && watermark == old(watermark) && audits == old(audits)
                              && lastSuccessRun == old(lastSuccessRun)
      ensures result.Ok? ==>
        && version == old(version) + 1 && watermark == newWatermark && lastSuccessRun == Some(run)
        && audits == old(audits)[run := old(audits)[run].(status := SUCCESS, rows := rows)]
    {
      var begun := (version, watermark, lastSuccessRun);
      if version != expectedVersion {
        return Err(ConcurrencyConflict);
      }
      version, watermark, lastSuccessRun := version + 1, newWatermark, Some(run);
      if run >= |audits| {
        version, watermark, lastSuccessRun := begun.0, begun.1, begun.2;
        return Err(UnknownRun);
      }
      audits := audits[run := audits[run].(status := SUCCESS, rows := rows)];
      result := Ok(version);
    }
  }

  /** How far a stretch of the protocol got: to its end, to the process's death, to the run's end, or to an error. */
  datatype Progress = Onward | Died | Ended | Errored

  // ---- The steps of the state machine ----

  lemma CheckStep(s: State, i: nat, version: int, low: Cursor, cv: int, clow: Cursor, batchOf: BatchId)
    requires i < |s.workers| && i < |s.audits| && s.workers[i] == Checking(version, low, cv, clow)
    ensures Next(s, Advance(i), batchOf) == CheckRecoverable(s, i, version, low, cv, clow)
  {}

  lemma AdoptStep(s: State, i: nat, w: Window, j: nat, batchOf: BatchId)
    requires i < |s.workers| && i < |s.audits| && s.workers[i] == Adopting(w, j)
    ensures Next(s, Advance(i), batchOf)
            == s.(workers := s.workers[i := Resolved(w)], audits := Superseded(s.audits, j))
  {}

  lemma CaptureStep(s: State, i: nat, version: int, low: Cursor, batchOf: BatchId)
    requires i < |s.workers| && i < |s.audits| && s.workers[i] == Worker.Fresh(version, low)
    ensures var high := Capture(s.source);
      Next(s, Advance(i), batchOf)
      == s.(workers := s.workers[i := Resolved(Window(version, low, high, batchOf(low, high)))])
  {}

  lemma RecordStep(s: State, i: nat, w: Window, batchOf: BatchId)
    requires i < |s.workers| && i < |s.audits| && s.workers[i] == Resolved(w)
    ensures Next(s, Advance(i), batchOf)
            == s.(workers := s.workers[i := Worker.Recorded(w)],
                  audits := s.audits[i := s.audits[i].(window := Some(w))])
  {}

  lemma ExtractStep(s: State, i: nat, w: Window, batchOf: BatchId)
    requires i < |s.workers| && i < |s.audits| && s.workers[i] == Worker.Recorded(w)
    ensures Next(s, Advance(i), batchOf)
            == if w.high == INITIAL || Le(w.high, w.low)
               then s.(workers := s.workers[i := Done],
                       audits := s.audits[i := s.audits[i].(status := NO_DATA, rows := 0)])
               else s.(workers := s.workers[i := Extracted(w, Extract(s.source, w.low, w.high))])
  {}

  lemma LandStep(s: State, i: nat, w: Window, rows: seq<SourceRow>, batchOf: BatchId)
    requires i < |s.workers| && i < |s.audits| && s.workers[i] == Extracted(w, rows)
    ensures Next(s, Advance(i), batchOf)
            == if rows == []
               then s.(workers := s.workers[i := Done],
                       audits := s.audits[i := s.audits[i].(status := NO_DATA, rows := 0)])
               else s.(workers := s.workers[i := Landed(w, rows)], landing := s.landing[w.batch := rows])
  {}

  lemma VerifyStep(s: State, i: nat, w: Window, rows: seq<SourceRow>, batchOf: BatchId)
    requires i < |s.workers| && i < |s.audits| && s.workers[i] == Landed(w, rows)
    requires w.batch in s.landing && s.landing[w.batch] == rows
    ensures Next(s, Advance(i), batchOf) == s.(workers := s.workers[i := Verified(w, rows)])
  {}

  lemma CommitStep(s: State, i: nat, w: Window, rows: seq<SourceRow>, batchOf: BatchId)
    requires i < |s.workers| && i < |s.audits| && s.workers[i] == Verified(w, rows)
    ensures Next(s, Advance(i), batchOf)
            == if s.version != w.version then s.(workers := s.workers[i := Raised])
               else State(s.version + 1, w.high, s.audits[i := s.audits[i].(status := SUCCESS, rows := |rows|)],
                          s.workers[i := Done], s.landing, s.source)
  {}

  class WatermarkPipeline {
    const store: SQLiteWatermarkControlStore
    const adapter: InMemorySourceAdapter
    const batchOf: BatchId
    var landing: map<string, seq<SourceRow>>
    /** The local variables of every run so far. */
    ghost var workers: seq<Worker>

    ghost predicate Valid()
      reads this, store
    {
      |workers| == |store.audits|
    }

    ghost predicate Stands(run: nat, progress: Progress, used: nat, survives: nat)
      reads this
      requires run < |workers|
    {
      && used <= survives
      && (progress == Died ==> used == survives && workers[run] != Done)
      && (progress == Ended ==> workers[run] == Done)
      && (progress == Errored ==> workers[run] == Raised)
    }

    ghost function Current(): State
      reads this, store, adapter
    {
      State(store.version, store.watermark, store.audits, workers, landing, adapter.rows)
    }

    constructor (adapter: InMemorySourceAdapter, batchOf: BatchId)
      ensures this.adapter == adapter && this.batchOf == batchOf && fresh(store)
      ensures Valid() && Current() == Origin(adapter.rows)
    {
      this.adapter, this.batchOf := adapter, batchOf;
      this.store := new SQLiteWatermarkControlStore();
      this.landing, this.workers := map[], [];
    }

    /** Step 2, and the state read again for step 3. */
    method ReadState(run: nat, survives: nat)
      returns (version: int, low: Cursor, currentVersion: int, currentLow: Cursor, used: nat)
      requires Valid() && run < |workers| && workers[run] == Started
      modifies this`workers
      ensures Valid() && |workers| == |old(workers)| && used <= survives
      ensures Current() == Undisturbed(old(Current()), run, used, batchOf)
      ensures used == 2 ==> workers[run] == Checking(version, low, currentVersion, currentLow)
      ensures used != 2 ==> used == survives && workers[run] != Done
    {
      ghost var s0 := Current();
      used, version, low, currentVersion, currentLow := 0, 0, INITIAL, 0, INITIAL;
      if survives == used { return; }
      version, low := store.version, store.watermark;
      UndisturbedSnoc(s0, run, used, batchOf);
      used, workers := used + 1, workers[run := Read(version, low)];
      if survives == used { return; }
      currentVersion, currentLow := store.version, store.watermark;
      UndisturbedSnoc(s0, run, used, batchOf);
      used, workers := used + 1, workers[run := Checking(version, low, currentVersion, currentLow)];
    }

    /** Step 3: the window, recovered or freshly captured. */
    method ResolveWindow(run: nat, version: int, low: Cursor, currentVersion: int, currentLow: Cursor, survives: nat)
      returns (w: Option<Window>, used: nat)
      requires Valid() && run < |workers| && workers[run] == Checking(version, low, currentVersion, currentLow)
      modifies this`workers, store`audits
      ensures Valid() && |workers| == |old(workers)| && used <= survives
      ensures Current() == Undisturbed(old(Current()), run, used, batchOf)
      ensures if w.Some? then workers[run] == Resolved(w.value) else used == survives && workers[run] != Done
    {
      w, used := None, 0;
      ghost var s0 := Current();
      if survives == used { return; }
      var recoverable := store.GetRecoverableWindow(currentVersion, currentLow);
      UndisturbedSnoc(s0, run, used, batchOf);
      CheckStep(Current(), run, version, low, currentVersion, currentLow, batchOf);
      if recoverable.Some? {
        var j := recoverable.value;
        var resolved := Window(version, low, store.audits[j].window.value.high, store.audits[j].window.value.batch);
        if store.audits[j].status == RUNNING {
          used, workers := used + 1, workers[run := Adopting(resolved, j)];
          if survives == used { return; }
          UndisturbedSnoc(s0, run, used, batchOf);
          AdoptStep(Current(), run, resolved, j, batchOf);
          ghost var audits := store.audits;
          store.MarkSuperseded(j);
          assert store.audits == Superseded(audits, j);
        }
        used, workers := used + 1, workers[run := Resolved(resolved)];
        w := Some(resolved);
      } else {
        used, workers := used + 1, workers[run := Worker.Fresh(version, low)];
        if survives == used { return; }
        UndisturbedSnoc(s0, run, used, batchOf);
        CaptureStep(Current(), run, version, low, batchOf);
        var high := adapter.CaptureSourceHighWatermark();
        w := Some(Window(version, low, high, batchOf(low, high)));
        used, workers := used + 1, workers[run := Resolved(w.value)];
      }
    }

    /** Steps 2 and 3 together. */
    method Resolve(run: nat, survives: nat) returns (w: Option<Window>, used: nat)
      requires Valid() && run < |workers| && workers[run] == Started
      modifies this`workers, store`audits
      ensures Valid() && |workers| == |old(workers)| && used <= survives
      ensures Current() == Undisturbed(old(Current()), run, used, batchOf)
      ensures if w.Some? then workers[run] == Resolved(w.value) else used == survives && workers[run] != Done
    {
      w := None;
      ghost var s0 := Current();
      var version, low, currentVersion, currentLow, reading := ReadState(run, survives);
      used := reading;
      if used != 2 { return; }
      var resolving;
      w, resolving := ResolveWindow(run, version, low, currentVersion, currentLow, survives - used);
      UndisturbedAdds(s0, run, used, resolving, batchOf);
      used := used + resolving;
    }

    /** Steps 4 to 6: record the window and extract it, or finish with NO_DATA. */
    method ExtractWindow(run: nat, w: Window, survives: nat)
      returns (rows: seq<SourceRow>, progress: Progress, used: nat)
      requires Valid() && run < |workers| && workers[run] == Resolved(w)
      modifies this`workers, store`audits
      ensures Valid() && |workers| == |old(workers)| && Stands(run, progress, used, survives) && progress != Errored
      ensures Current() == Undisturbed(old(Current()), run, used, batchOf)
      ensures progress == Onward ==> workers[run] == Extracted(w, rows) && rows != []
    {
      hide Next, Capture, Extract, Lt;
      rows, progress, used := [], Died, 0;
      ghost var s0 := Current();
      if survives == used { return; }
      UndisturbedSnoc(s0, run, used, batchOf);
      RecordStep(Current(), run, w, batchOf);
      store.UpdateRunAuditWindow(run, w);
      used, workers := used + 1, workers[run := Worker.Recorded(w)];
      if survives == used { return; }
      UndisturbedSnoc(s0, run, used, batchOf);
      ExtractStep(Current(), run, w, batchOf);
      if w.high == INITIAL || Le(w.high, w.low) {
        store.CompleteRunAudit(run, NO_DATA, 0);
        used, workers, progress := used + 1, workers[run := Done], Ended;
        return;
      }
      rows := adapter.ExtractBoundedWindow(w.low, w.high);
      used, workers := used + 1, workers[run := Extracted(w, rows)];
      if survives == used { return; }
      if rows != [] {
        progress := Onward;
        return;
      }
      UndisturbedSnoc(s0, run, used, batchOf);
      LandStep(Current(), run, w, rows, batchOf);
      store.CompleteRunAudit(run, NO_DATA, 0);
      used, workers, progress := used + 1, workers[run := Done], Ended;
    }

    /** Steps 8 to 11: land, verify, commit; an error on the way is raised. */
    method LandAndCommit(run: nat, w: Window, rows: seq<SourceRow>, survives: nat)
      returns (progress: Progress, used: nat)
      requires Valid() && run < |workers| && workers[run] == Extracted(w, rows) && rows != []
      modifies this`workers, this`landing, store
      ensures Valid() && |workers| == |old(workers)| && Stands(run, progress, used, survives) && progress != Onward
      ensures Current() == Undisturbed(old(Current()), run, used, batchOf)
    {
      progress, used := Died, 0;
      ghost var s0 := Current();
      if survives == used { return; }
      UndisturbedSnoc(s0, run, used, batchOf);
      LandStep(Current(), run, w, rows, batchOf);
      landing := landing[w.batch := rows];
      used, workers := used + 1, workers[run := Landed(w, rows)];
      if survives == used { return; }
      // The file is read back and its rows are counted; with no other worker about, they are the rows just written.
      UndisturbedSnoc(s0, run, used, batchOf);
      VerifyStep(Current(), run, w, rows, batchOf);
      used, workers := used + 1, workers[run := Verified(w, rows)];
      if survives == used { return; }
      UndisturbedSnoc(s0, run, used, batchOf);
      CommitStep(Current(), run, w, rows, batchOf);
      var result := store.CommitSuccessfulRun(w.version, w.high, run, |rows|);
      used, workers := used + 1, workers[run := if result.Ok? then Done else Raised];
      progress := if result.Ok? then Ended else Errored;
    }

    /** Steps 4 to 11 together. */
    method Deliver(run: nat, w: Window, survives: nat) returns (progress: Progress, used: nat)
      requires Valid() && run < |workers| && workers[run] == Resolved(w)
      modifies this`workers, this`landing, store
      ensures Valid() && |workers| == |old(workers)| && Stands(run, progress, used, survives) && progress != Onward
      ensures Current() == Undisturbed(old(Current()), run, used, batchOf)
    {
      ghost var s0 := Current();
      var rows;
      rows, progress, used := ExtractWindow(run, w, survives);
      if progress != Onward { return; }
      var committing;
      progress, committing := LandAndCommit(run, w, rows, survives - used);
      UndisturbedAdds(s0, run, used, committing, batchOf);
      used := used + committing;
    }

    /** Everything after the audit record is opened. */
    method Protocol(run: nat, survives: nat) returns (progress: Progress, used: nat)
      requires Valid() && run < |workers| && workers[run] == Started
      modifies this`workers, this`landing, store
      ensures Valid() && |workers| == |old(workers)| && Stands(run, progress, used, survives) && progress != Onward
      ensures Current() == Undisturbed(old(Current()), run, used, batchOf)
    {
      ghost var s0 := Current();
      progress := Died;
      var w;
      w, used := Resolve(run, survives);
      if w.None? { return; }
      var delivering;
      progress, delivering := Deliver(run, w.value, survives - used);
      UndisturbedAdds(s0, run, used, delivering, batchOf);
      used := used + delivering;
    }

    /** The failure path. */
    method FailRun(run: nat)
      requires Valid() && run < |workers| && workers[run] != Done
      modifies this`workers, store`audits
      ensures Valid() && |workers| == |old(workers)| && workers[run] == Done
      ensures store.audits[run] == Audit(old(store.audits)[run].window, FAILED, 0)
      ensures Current() == Next(old(Current()), Fail(run), batchOf)
    {
      store.CompleteRunAudit(run, FAILED, 0);
      workers := workers[run := Done];
    }

    lemma FailsItself(s: State, run: nat)
      requires run < |s.workers| && run < |s.audits| && s.workers[run] == Raised
      ensures Next(s, Fail(run), batchOf) == Next(s, Advance(run), batchOf)
    {}

    /** The protocol, with the error that the protocol itself may raise. */
    method RunProtocol(run: nat, survives: nat) returns (over: bool)
      requires Valid() && run < |workers| && workers[run] == Started
      modifies this`workers, this`landing, store
      ensures Valid() && |workers| == |old(workers)| && (over ==> workers[run] == Done)
      ensures Current() == Undisturbed(old(Current()), run, survives, batchOf)
      ensures !over ==> workers[run] != Done
    {
      ghost var s1 := Current();
      var progress, used := Protocol(run, survives);
      UndisturbedAdds(s1, run, used, survives - used, batchOf);
      if progress == Errored && used < survives {
        ghost var raised := Current();
        FailRun(run);
        FailsItself(raised, run);
        progress := Ended;
        DoneStays(Current(), run, survives - used - 1, batchOf);
      } else if progress == Ended {
        DoneStays(Current(), run, survives - used, batchOf);
      }
      over := progress == Ended;
    }

    /** One extraction run that dies after `survives` steps, or raises an error there if `raises`. The failure path
        marks the run's audit record FAILED, unless the run is already over. */
    method RunTableExtraction(survives: nat, raises: bool) returns (run: nat)
      requires Valid()
      modifies this`workers, this`landing, store
      ensures Valid() && run == |old(workers)| && |workers| == run + 1
      ensures var t := Undisturbed(Next(old(Current()), Begin, batchOf), run, survives, batchOf);
        && Current() == (if raises then Next(t, Fail(run), batchOf) else t)
        && run < |t.audits| && run < |t.workers| && run < |store.audits|
        && (raises && t.workers[run] != Done ==> store.audits[run] == Audit(t.audits[run].window, FAILED, 0))
      ensures raises || survives >= 10 ==> store.audits[run].status != RUNNING
    {
      run := store.StartRunAudit();
      workers := workers + [Started];
      ghost var s1 := Current();
      assert s1 == Next(old(Current()), Begin, batchOf);
      RunEnds(s1, run, survives, batchOf);
      var over := RunProtocol(run, survives);
      if raises && !over {
        FailRun(run);
      }
    }
  }
}
