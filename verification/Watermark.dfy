/** Incremental extraction by composite watermark (src/watermark/models.py, source_adapter.py, control_store.py,
    pipeline.py): cursors, windows, and one table's protocol as a state machine.

    Each store transaction, source read and landing write is one atomic `Advance` of one worker; any number of workers
    may interleave, the source may change between any two steps, a worker may raise an error at any point (`Fail`),
    and a worker that dies simply takes no further step. Workers and audit records are numbered in start order. */
module Watermark {
  import opened Cdc
  import opened Ordering

  // ---- Cursors ----

  /** (timestamp, primary key), a missing part being the minimum. */
  datatype Cursor = Cursor(timestamp: Option<string>, key: Option<string>) {
    function KeyText(): string { if key.Some? then key.value else "" }
  }

  const INITIAL := Cursor(None, None)

  predicate Eq(a: Cursor, b: Cursor) {
    a.timestamp == b.timestamp && (a.timestamp.Some? ==> a.KeyText() == b.KeyText())
  }

  predicate Le(a: Cursor, b: Cursor) {
    a.timestamp.None?
    || (b.timestamp.Some?
        && if a.timestamp.value == b.timestamp.value then StringLe(a.KeyText(), b.KeyText())
           else StringLe(a.timestamp.value, b.timestamp.value))
  }

  predicate Lt(a: Cursor, b: Cursor) { !Le(b, a) }

  lemma StringOrder(a: string, b: string, c: string)
    ensures StringLe(a, b) || StringLe(b, a)
    ensures StringLe(a, b) && StringLe(b, a) ==> a == b
    ensures StringLe(a, b) && StringLe(b, c) ==> StringLe(a, c)
    ensures StringLe(a, a)
  {
    StringLeTotal(a, b);
    StringLeTotal(a, a);
    if StringLe(a, b) && StringLe(b, a) {
      StringLeAntisymmetric(a, b);
    }
    if StringLe(a, b) && StringLe(b, c) {
      StringLeTransitive(a, b, c);
    }
  }

  lemma LeTransitive(a: Cursor, b: Cursor, c: Cursor)
    requires Le(a, b) && Le(b, c)
    ensures Le(a, c)
  {
    if a.timestamp.Some? {
      StringOrder(a.timestamp.value, b.timestamp.value, c.timestamp.value);
      StringOrder(b.timestamp.value, c.timestamp.value, a.timestamp.value);
      StringOrder(a.KeyText(), b.KeyText(), c.KeyText());
    }
  }

  lemma LeTotal(a: Cursor, b: Cursor)
    ensures Le(a, b) || Le(b, a)
    ensures Eq(a, b) <==> Le(a, b) && Le(b, a)
  {
    if a.timestamp.Some? && b.timestamp.Some? {
      StringOrder(a.timestamp.value, b.timestamp.value, "");
      StringOrder(a.KeyText(), b.KeyText(), "");
    }
  }

  /** Cursors are totally preordered, equal exactly when neither is below the other. */
  lemma CursorOrder()
    ensures TotalPreorder(Le)
    ensures forall a, b :: Eq(a, b) <==> Le(a, b) && Le(b, a)
    ensures forall a :: Lt(INITIAL, a) <==> a.timestamp.Some?
  {
    forall a, b ensures Le(a, b) || Le(b, a) ensures Eq(a, b) <==> Le(a, b) && Le(b, a) {
      LeTotal(a, b);
    }
    forall a, b, c | Le(a, b) && Le(b, c) ensures Le(a, c) {
      LeTransitive(a, b, c);
    }
  }

  /** Later timestamps are higher, and at equal timestamps later keys; a cursor without a timestamp is the lowest. */
  lemma CursorAbove(a: Cursor, b: Cursor)
    ensures Lt(a, b) <==>
      && b.timestamp.Some?
      && (|| a.timestamp.None?
          || Precedes(a.timestamp.value, b.timestamp.value)
          || (a.timestamp == b.timestamp
              && Precedes(if a.key.Some? then a.key.value else "", if b.key.Some? then b.key.value else "")))
  {
    if a.timestamp.Some? && b.timestamp.Some? {
      StringOrder(a.timestamp.value, b.timestamp.value, "");
      StringPrecedes(a.timestamp.value, b.timestamp.value);
    }
    StringOrder(a.KeyText(), b.KeyText(), "");
    StringPrecedes(a.KeyText(), b.KeyText());
  }

  // ---- The source ----

  datatype SourceRow = SourceRow(updatedAt: Option<string>, pk: Option<string>, body: map<string, string>) {
    function Position(): Cursor { Cursor(updatedAt, pk) }
  }

  /** The highest cursor in the source, or the initial cursor. */
  function Capture(rows: seq<SourceRow>): (high: Cursor)
    ensures forall r :: r in rows ==> Le(r.Position(), high)
    ensures high == INITIAL || (Lt(INITIAL, high) && exists r :: r in rows && r.Position() == high)
  {
    if rows == [] then INITIAL
    else
      var rest, last := Capture(rows[..|rows| - 1]), rows[|rows| - 1];
      assert rows == rows[..|rows| - 1] + [last];
      assert Le(rest, last.Position()) || Le(last.Position(), rest) by { LeTotal(rest, last.Position()); }
      assert forall r :: r in rows[..|rows| - 1] && Le(rest, last.Position()) ==> Le(r.Position(), last.Position()) by {
        CursorOrder();
      }
      assert Lt(rest, last.Position()) ==> Lt(INITIAL, last.Position());
      assert Le(last.Position(), last.Position()) by { LeTotal(last.Position(), last.Position()); }
      if Lt(rest, last.Position()) then last.Position() else rest
  }

  predicate InWindow(r: SourceRow, low: Cursor, high: Cursor) { Lt(low, r.Position()) && Le(r.Position(), high) }

  function Text(s: Option<string>): string { if s.Some? then s.value else "None" }

  /** The sort key of an extraction, (str(timestamp), str(key)). */
  predicate ExtractLe(a: SourceRow, b: SourceRow) {
    if Text(a.updatedAt) == Text(b.updatedAt) then StringLe(Text(a.pk), Text(b.pk))
    else StringLe(Text(a.updatedAt), Text(b.updatedAt))
  }

  function Selected(rows: seq<SourceRow>, low: Cursor, high: Cursor): seq<SourceRow> {
    Filter(rows, (r: SourceRow) => InWindow(r, low, high))
  }

  function Extract(rows: seq<SourceRow>, low: Cursor, high: Cursor): seq<SourceRow> {
    Sort(Selected(rows, low, high), ExtractLe)
  }

  lemma ExtractMembers(rows: seq<SourceRow>, low: Cursor, high: Cursor)
    ensures forall r :: r in Extract(rows, low, high) <==> r in rows && InWindow(r, low, high)
    ensures Extract(rows, low, high) == [] <==> forall r :: r in rows ==> !InWindow(r, low, high)
  {
    SortMembers(Selected(rows, low, high), ExtractLe);
    if Extract(rows, low, high) != [] {
      assert Extract(rows, low, high)[0] in Extract(rows, low, high);
    }
  }

  /** The table has a non-null primary key, and no two rows share one. */
  ghost predicate Keyed(rows: seq<SourceRow>) {
    && (forall r :: r in rows ==> r.pk.Some?)
    && (forall i, j :: 0 <= i < j < |rows| ==> rows[i].pk != rows[j].pk)
  }

  lemma ExtractLeOrder()
    ensures TotalPreorder(ExtractLe)
  {
    forall a, b ensures ExtractLe(a, b) || ExtractLe(b, a) {
      StringOrder(Text(a.updatedAt), Text(b.updatedAt), "");
      StringOrder(Text(a.pk), Text(b.pk), "");
    }
    forall a, b, c | ExtractLe(a, b) && ExtractLe(b, c) ensures ExtractLe(a, c) {
      StringOrder(Text(a.updatedAt), Text(b.updatedAt), Text(c.updatedAt));
      StringOrder(Text(b.updatedAt), Text(c.updatedAt), Text(a.updatedAt));
      StringOrder(Text(a.pk), Text(b.pk), Text(c.pk));
    }
  }

  lemma KeyedDistinct(rows: seq<SourceRow>, a: SourceRow, b: SourceRow)
    requires Keyed(rows) && a in rows && b in rows && a.pk == b.pk
    ensures a == b && Distinct(rows)
  {
    var i :| 0 <= i < |rows| && rows[i] == a;
    var j :| 0 <= j < |rows| && rows[j] == b;
  }

  /** Extraction returns exactly the rows of the window, once each, in strictly increasing cursor order. */
  lemma ExtractionIsExact(rows: seq<SourceRow>, low: Cursor, high: Cursor)
    requires Keyed(rows)
    ensures forall r ::
      r in Extract(rows, low, high) <==> r in rows && Lt(low, r.Position()) && Le(r.Position(), high)
    ensures Distinct(Extract(rows, low, high))
    ensures forall i, j :: 0 <= i < j < |Extract(rows, low, high)| ==>
      Lt(Extract(rows, low, high)[i].Position(), Extract(rows, low, high)[j].Position())
  {
    var out := Extract(rows, low, high);
    ExtractMembers(rows, low, high);
    ExtractLeOrder();
    SortSorted(Selected(rows, low, high), ExtractLe);
    assert Distinct(rows);
    FilterDistinct(rows, (r: SourceRow) => InWindow(r, low, high));
    SortPermutes(Selected(rows, low, high), ExtractLe);
    PermutationDistinct(Selected(rows, low, high), out);
    forall i, j | 0 <= i < j < |out| ensures Lt(out[i].Position(), out[j].Position()) {
      assert out[i] in out && out[j] in out && ExtractLe(out[i], out[j]) && out[i] != out[j];
      if out[i].pk == out[j].pk {
        KeyedDistinct(rows, out[i], out[j]);
      }
      StringOrder(Text(out[i].updatedAt), Text(out[j].updatedAt), "");
      StringOrder(Text(out[i].pk), Text(out[j].pk), "");
    }
  }

  /** Capture and extraction agree: a freshly captured HIGH above LOW is the cursor of the last row extracted. */
  lemma CaptureMatchesExtraction(rows: seq<SourceRow>, low: Cursor)
    requires Keyed(rows) && Lt(low, Capture(rows))
    ensures var out := Extract(rows, low, Capture(rows));
      out != [] && out[|out| - 1].Position() == Capture(rows)
  {
    var high, out := Capture(rows), Extract(rows, low, Capture(rows));
    ExtractionIsExact(rows, low, high);
    CursorOrder();
    var top :| top in rows && top.Position() == high;
    assert top in out;
    var i :| 0 <= i < |out| && out[i] == top;
    assert out[|out| - 1] in out;
  }

  // ---- The protocol ----

  datatype RunStatus = RUNNING | SUCCESS | NO_DATA | FAILED

  datatype Window = Window(version: int, low: Cursor, high: Cursor, batch: string)

  datatype Audit = Audit(window: Option<Window>, status: RunStatus, rows: nat)

  /** Where a worker stands, with what it holds in local variables. */
  datatype Worker =
    | Started
    | Read(version: int, low: Cursor)
    | Checking(version: int, low: Cursor, currentVersion: int, currentLow: Cursor)
    | Fresh(version: int, low: Cursor)
    | Adopting(window: Window, abandoned: nat)
    | Resolved(window: Window)
    | Recorded(window: Window)
    | Extracted(window: Window, rows: seq<SourceRow>)
    | Landed(window: Window, rows: seq<SourceRow>)
    | Verified(window: Window, rows: seq<SourceRow>)
    | Raised
    | Done
  {
    /** The window the worker has resolved, while it holds one. */
    function Held(): Option<Window> {
      if Adopting? || Resolved? || Recorded? || Extracted? || Landed? || Verified? then Some(this.window) else None
    }
  }

  datatype State = State(
    version: int, watermark: Cursor, audits: seq<Audit>, workers: seq<Worker>,
    landing: map<string, seq<SourceRow>>, source: seq<SourceRow>)

  datatype Step = Begin | Advance(worker: nat) | Fail(worker: nat) | Edit(source: seq<SourceRow>)

  type BatchId = (Cursor, Cursor) -> string

  function Origin(source: seq<SourceRow>): State { State(1, INITIAL, [], [], map[], source) }

  /** The most recent attempt that failed or was abandoned after recording a window. */
  function LatestUnfinished(audits: seq<Audit>): (j: Option<nat>)
    ensures j.Some? ==> j.value < |audits| && Unfinished(audits[j.value])
    ensures forall i :: 0 <= i < |audits| && Unfinished(audits[i]) ==> j.Some? && i <= j.value
  {
    if audits == [] then None
    else if Unfinished(audits[|audits| - 1]) then Some(|audits| - 1)
    else
      assert forall i :: 0 <= i < |audits| - 1 ==> audits[i] == audits[..|audits| - 1][i];
      LatestUnfinished(audits[..|audits| - 1])
  }

  predicate Unfinished(a: Audit) {
    (a.status == FAILED || a.status == RUNNING) && a.window.Some? && a.window.value.high.timestamp.Some?
  }

  /** That attempt, when its window still starts at the committed watermark. */
  function Recoverable(audits: seq<Audit>, version: int, watermark: Cursor): (j: Option<nat>)
    ensures j.Some? ==> j == LatestUnfinished(audits) && j.value < |audits| && audits[j.value].window.Some?
  {
    match LatestUnfinished(audits)
    case None => None
    case Some(j) =>
      var w := audits[j].window.value;
      if w.version == version && Eq(w.low, watermark) && Lt(w.low, w.high) then Some(j) else None
  }

  function Move(s: State, i: nat, w: Worker): State
    requires i < |s.workers|
  {
    s.(workers := s.workers[i := w])
  }

  function Close(s: State, i: nat, status: RunStatus, rows: nat): State
    requires i < |s.workers| && i < |s.audits|
  {
    Move(s, i, Done).(audits := s.audits[i := s.audits[i].(status := status, rows := rows)])
  }

  function Superseded(audits: seq<Audit>, j: nat): seq<Audit> {
    if j < |audits| && audits[j].status == RUNNING then audits[j := audits[j].(status := FAILED)] else audits
  }

  function CheckRecoverable(s: State, i: nat, version: int, low: Cursor, current: int, currentLow: Cursor): State
    requires i < |s.workers|
  {
    match Recoverable(s.audits, current, currentLow)
    case None => Move(s, i, Worker.Fresh(version, low))
    case Some(j) =>
      var found := s.audits[j].window.value;
      var w := Window(version, low, found.high, found.batch);
      Move(s, i, if s.audits[j].status == RUNNING then Adopting(w, j) else Resolved(w))
  }

  /** The next durable step of worker `i`. */
  function Advanced(s: State, i: nat, batchOf: BatchId): State
    requires i < |s.workers| && i < |s.audits|
  {
    match s.workers[i]
    case Started => Move(s, i, Read(s.version, s.watermark))
    case Read(v, low) => Move(s, i, Checking(v, low, s.version, s.watermark))
    case Checking(v, low, cv, clow) => CheckRecoverable(s, i, v, low, cv, clow)
    case Fresh(v, low) =>
      var high := Capture(s.source);
      Move(s, i, Resolved(Window(v, low, high, batchOf(low, high))))
    case Adopting(w, j) => Move(s, i, Resolved(w)).(audits := Superseded(s.audits, j))
    case Resolved(w) => Move(s, i, Recorded(w)).(audits := s.audits[i := s.audits[i].(window := Some(w))])
    case Recorded(w) =>
      if w.high == INITIAL || Le(w.high, w.low) then Close(s, i, NO_DATA, 0)
      else Move(s, i, Extracted(w, Extract(s.source, w.low, w.high)))
    case Extracted(w, rows) =>
      if rows == [] then Close(s, i, NO_DATA, 0)
      else Move(s, i, Landed(w, rows)).(landing := s.landing[w.batch := rows])
    case Landed(w, rows) =>
      Move(s, i, if w.batch in s.landing && |s.landing[w.batch]| == |rows| then Verified(w, rows) else Raised)
    case Verified(w, rows) =>
      if s.version == w.version
      then Close(s, i, SUCCESS, |rows|).(version := s.version + 1, watermark := w.high)
      else Move(s, i, Raised)
    case Raised => Close(s, i, FAILED, 0)
    case Done => s
  }

  function Next(s: State, step: Step, batchOf: BatchId): State {
    match step
    case Begin => s.(audits := s.audits + [Audit(None, RUNNING, 0)], workers := s.workers + [Started])
    case Advance(i) => if i < |s.workers| && i < |s.audits| then Advanced(s, i, batchOf) else s
    case Fail(i) =>
      if i < |s.workers| && i < |s.audits| && s.workers[i] != Done then Close(s, i, FAILED, 0) else s
    case Edit(source) => s.(source := source)
  }

  function Steps(s: State, steps: seq<Step>, batchOf: BatchId): State {
    if steps == [] then s
    else Next(Steps(s, steps[..|steps| - 1], batchOf), steps[|steps| - 1], batchOf)
  }
}
