/** The change-feed consumer (src/cdf/pipeline.py, archive.py, state_store.py): at-least-once reads of a growing feed,
    an archive that inserts by change id, and a checkpoint written afterwards. A crash may fall between the two
    writes. */
module Cdf {
  import opened Cdc
  import opened Ordering

  datatype ChangeRow = ChangeRow(version: nat, changeType: string, pk: string, values: map<string, string>)

  /** The change id: a hash over table, version, change type, primary key and row values. */
  type ChangeId = ChangeRow -> string

  datatype Entry = Entry(changeId: string, row: ChangeRow)

  datatype Registration = Registration(start: int, last: int)

  /** One source table: its feed by commit version, its registration, and its archive if the archive table exists. */
  datatype Table = Table(feed: seq<seq<ChangeRow>>, registration: Option<Registration>, archive: Option<seq<Entry>>)

  /** The feed rows of versions `from` up to but excluding `to`. */
  function Changes(feed: seq<seq<ChangeRow>>, from: nat, to: nat): seq<ChangeRow>
    requires from <= to <= |feed|
  {
    if from == to then [] else Changes(feed, from, to - 1) + feed[to - 1]
  }

  function Prepared(rows: seq<ChangeRow>, id: ChangeId): seq<Entry> { Map(rows, (r: ChangeRow) => Entry(id(r), r)) }

  function IdsOf(archive: seq<Entry>): set<string> { set e | e in archive :: e.changeId }

  /** The first write creates the archive as it is; later writes insert the rows whose change id is not there yet. */
  function Written(archive: Option<seq<Entry>>, rows: seq<ChangeRow>, id: ChangeId): seq<Entry> {
    match archive
    case None => Prepared(rows, id)
    case Some(entries) => entries + Filter(Prepared(rows, id), (e: Entry) => e.changeId !in IdsOf(entries))
  }

  /** The last version a consumption reads. */
  function EndVersion(t: Table, target: Option<int>): int {
    var current := |t.feed| - 1;
    if target.Some? && target.value < current then target.value else current
  }

  /** The latest version there is, or the latest that the target allows. */
  predicate IsEnd(end: int, feed: seq<seq<ChangeRow>>, target: Option<int>) {
    && end < |feed| && (target.Some? ==> end <= target.value)
    && (end == |feed| - 1 || target == Some(end))
  }

  /** One consumption; with `crash` the process dies between the archive write and the checkpoint. */
  function Consumed(t: Table, target: Option<int>, crash: bool, id: ChangeId): Table {
    match t.registration
    case None => t
    case Some(reg) =>
      var end := EndVersion(t, target);
      if reg.last + 1 > end || reg.last + 1 < 0 then t
      else
        var rows := Changes(t.feed, reg.last + 1, end + 1);
        var archive := if rows == [] then t.archive else Some(Written(t.archive, rows, id));
        Table(t.feed, Some(if crash then reg else reg.(last := end)), archive)
  }

  /** Registration at a version; an existing registration stands. */
  function Registered(t: Table, version: nat): Table {
    if t.registration.Some? then t else t.(registration := Some(Registration(version, version - 1)))
  }

  datatype Step = SourceCommit(rows: seq<ChangeRow>) | Register | Consume(target: Option<int>, crash: bool)

  /** Registration starts at the table's current version. Enabling the feed is itself a source commit, without change
      rows, so a table not yet enabled takes that commit first. */
  function Next(t: Table, step: Step, id: ChangeId): Table {
    match step
    case SourceCommit(rows) => t.(feed := t.feed + [rows])
    case Register => if t.feed == [] then t else Registered(t, |t.feed| - 1)
    case Consume(target, crash) => Consumed(t, target, crash, id)
  }

  function Steps(t: Table, steps: seq<Step>, id: ChangeId): Table {
    if steps == [] then t else Next(Steps(t, steps[..|steps| - 1], id), steps[|steps| - 1], id)
  }

  const NEW_TABLE := Table([], None, None)

  // ---- Hypotheses on the feed ----

  /** Every change row appears once, at its own version, and different rows have different change ids. */
  ghost predicate SoundFeed(feed: seq<seq<ChangeRow>>, id: ChangeId) {
    && (forall v, r :: 0 <= v < |feed| && r in feed[v] ==> r.version == v)
    && (forall v :: 0 <= v < |feed| ==> Distinct(feed[v]))
    && (forall v, u, r, q ::
          0 <= v < |feed| && 0 <= u < |feed| && r in feed[v] && q in feed[u] && id(r) == id(q) ==> r == q)
  }

  // ---- Feed windows ----

  lemma {:induction false} ChangesVersions(feed: seq<seq<ChangeRow>>, from: nat, to: nat, id: ChangeId)
    requires from <= to <= |feed| && SoundFeed(feed, id)
    ensures forall r :: r in Changes(feed, from, to) <==> exists v :: from <= v < to && r in feed[v]
    ensures forall r :: r in Changes(feed, from, to) ==> from <= r.version < to
    ensures Distinct(Changes(feed, from, to))
  {
    if from < to {
      ChangesVersions(feed, from, to - 1, id);
      var before, last := Changes(feed, from, to - 1), feed[to - 1];
      DistinctConcat(before, last);
    }
  }

  lemma {:induction false} ChangesSplit(feed: seq<seq<ChangeRow>>, from: nat, mid: nat, to: nat)
    requires from <= mid <= to <= |feed|
    ensures Changes(feed, from, to) == Changes(feed, from, mid) + Changes(feed, mid, to)
  {
    if mid < to {
      ChangesSplit(feed, from, mid, to - 1);
    }
  }

  lemma {:induction false} ChangesStay(feed: seq<seq<ChangeRow>>, more: seq<ChangeRow>, from: nat, to: nat)
    requires from <= to <= |feed|
    ensures Changes(feed + [more], from, to) == Changes(feed, from, to)
  {
    if from < to {
      ChangesStay(feed, more, from, to - 1);
    }
  }

  // ---- The archive ----

  function Entries(archive: Option<seq<Entry>>): seq<Entry> { if archive.Some? then archive.value else [] }

  /** The archive holds exactly the feed rows of versions `start` up to but excluding `upTo`, in feed order. */
  ghost predicate ArchivedUpTo(t: Table, start: nat, upTo: nat, id: ChangeId) {
    start <= upTo <= |t.feed| && Entries(t.archive) == Prepared(Changes(t.feed, start, upTo), id)
  }

  ghost predicate Inv(t: Table, id: ChangeId) {
    match t.registration
    case None => t.archive == None
    case Some(reg) =>
      && 0 <= reg.start <= reg.last + 1 <= |t.feed|
      && exists upTo :: reg.last + 1 <= upTo && ArchivedUpTo(t, reg.start, upTo, id)
  }

  lemma PreparedConcat(a: seq<ChangeRow>, b: seq<ChangeRow>, id: ChangeId)
    ensures Prepared(a + b, id) == Prepared(a, id) + Prepared(b, id)
  {}

  lemma PreparedRow(rows: seq<ChangeRow>, r: ChangeRow, id: ChangeId)
    ensures Entry(id(r), r) in Prepared(rows, id) <==> r in rows
    ensures r in rows ==> id(r) in IdsOf(Prepared(rows, id))
  {
    if r in rows {
      var i :| 0 <= i < |rows| && rows[i] == r;
      assert Prepared(rows, id)[i] == Entry(id(r), r);
    }
  }

  /** A new row's change id is not among the ids already archived; an old row's is. */
  lemma ArchivedIds(feed: seq<seq<ChangeRow>>, start: nat, upTo: nat, v: nat, r: ChangeRow, id: ChangeId)
    requires SoundFeed(feed, id) && start <= upTo <= |feed| && start <= v < |feed| && r in feed[v]
    ensures id(r) in IdsOf(Prepared(Changes(feed, start, upTo), id)) <==> v < upTo
  {
    var rows := Changes(feed, start, upTo);
    ChangesVersions(feed, start, upTo, id);
    if v < upTo {
      PreparedRow(rows, r, id);
    }
    if e :| e in Prepared(rows, id) && e.changeId == id(r) {
      assert e.row in rows;
      var u :| start <= u < upTo && e.row in feed[u];
      assert e.row == r;
    }
  }

  lemma RowsOfWindow(feed: seq<seq<ChangeRow>>, from: nat, to: nat, e: Entry, id: ChangeId) returns (v: nat)
    requires SoundFeed(feed, id) && from <= to <= |feed| && e in Prepared(Changes(feed, from, to), id)
    ensures from <= v < to && e.row in feed[v] && e.changeId == id(e.row)
  {
    ChangesVersions(feed, from, to, id);
    assert e.row in Changes(feed, from, to);
    v :| from <= v < to && e.row in feed[v];
  }

  /** The insert-only MERGE skips exactly the part of a window that is already archived. */
  lemma MergeSkips(feed: seq<seq<ChangeRow>>, start: nat, from: nat, upTo: nat, end: nat, id: ChangeId)
    requires SoundFeed(feed, id) && start <= from <= upTo <= |feed| && from <= end <= |feed|
    ensures var ids := IdsOf(Prepared(Changes(feed, start, upTo), id));
      var cut := if upTo < end then upTo else end;
      Filter(Prepared(Changes(feed, from, end), id), (e: Entry) => e.changeId !in ids)
        == Prepared(Changes(feed, cut, end), id)
  {
    var ids := IdsOf(Prepared(Changes(feed, start, upTo), id));
    var keep := (e: Entry) => e.changeId !in ids;
    var cut := if upTo < end then upTo else end;
    var seen, unseen := Prepared(Changes(feed, from, cut), id), Prepared(Changes(feed, cut, end), id);
    ChangesSplit(feed, from, cut, end);
    PreparedConcat(Changes(feed, from, cut), Changes(feed, cut, end), id);
    FilterConcat(seen, unseen, keep);
    forall e | e in seen ensures !keep(e) {
      var v := RowsOfWindow(feed, from, cut, e, id);
      ArchivedIds(feed, start, upTo, v, e.row, id);
    }
    forall e | e in unseen ensures keep(e) {
      var v := RowsOfWindow(feed, cut, end, e, id);
      ArchivedIds(feed, start, upTo, v, e.row, id);
    }
    FilterAllOrNone(seen, keep);
    FilterAllOrNone(unseen, keep);
  }

  function Later(a: nat, b: nat): nat { if a < b then b else a }

  /** Writing a window that starts inside the archived range extends the archive to the window's end,
      without repeats. */
  lemma WriteExtends(t: Table, start: nat, from: nat, upTo: nat, end: nat, id: ChangeId)
    requires SoundFeed(t.feed, id) && start <= from <= upTo && from <= end <= |t.feed|
    requires ArchivedUpTo(t, start, upTo, id)
    ensures Written(t.archive, Changes(t.feed, from, end), id) == Prepared(Changes(t.feed, start, Later(upTo, end)), id)
  {
    var cut := if upTo < end then upTo else end;
    ChangesSplit(t.feed, start, upTo, Later(upTo, end));
    PreparedConcat(Changes(t.feed, start, upTo), Changes(t.feed, upTo, Later(upTo, end)), id);
    if t.archive.Some? {
      MergeSkips(t.feed, start, from, upTo, end, id);
    } else {
      assert |Prepared(Changes(t.feed, start, upTo), id)| == 0;
      ChangesSplit(t.feed, start, from, upTo);
      ChangesSplit(t.feed, from, cut, end);
      ChangesSplit(t.feed, from, cut, upTo);
    }
  }

  // ---- Every step keeps the archive exact ----

  lemma CommitInv(t: Table, rows: seq<ChangeRow>, id: ChangeId)
    requires Inv(t, id)
    ensures Inv(t.(feed := t.feed + [rows]), id)
  {
    if t.registration.Some? {
      var upTo :| t.registration.value.last + 1 <= upTo && ArchivedUpTo(t, t.registration.value.start, upTo, id);
      ChangesStay(t.feed, rows, t.registration.value.start, upTo);
      assert ArchivedUpTo(t.(feed := t.feed + [rows]), t.registration.value.start, upTo, id);
    }
  }

  lemma RegisterInv(t: Table, version: nat, id: ChangeId)
    requires Inv(t, id) && version < |t.feed|
    ensures Inv(Registered(t, version), id)
  {
    if t.registration.None? {
      assert ArchivedUpTo(Registered(t, version), version, version, id);
    }
  }

  /** A consumption that reads versions `from` to `end` leaves the archive exact up to whichever of `upTo` and `end` is
      later. */
  lemma ConsumedArchive(t: Table, target: Option<int>, crash: bool, reg: Registration, from: nat, end: nat, upTo: nat,
                        id: ChangeId)
    requires SoundFeed(t.feed, id) && t.registration == Some(reg) && 0 <= reg.start <= from == reg.last + 1 <= upTo
    requires from <= EndVersion(t, target) && end == EndVersion(t, target) + 1 && ArchivedUpTo(t, reg.start, upTo, id)
    ensures var x := Consumed(t, target, crash, id);
      && x.feed == t.feed && x.registration == Some(if crash then reg else reg.(last := end - 1))
      && ArchivedUpTo(x, reg.start, Later(upTo, end), id)
  {
    hide Written, Prepared, Changes, SoundFeed;
    WriteExtends(t, reg.start, from, upTo, end, id);
    if Changes(t.feed, from, end) == [] {
      EmptyWindow(t, reg.start, from, upTo, end, id);
    }
  }

  lemma ConsumeInv(t: Table, target: Option<int>, crash: bool, id: ChangeId)
    requires Inv(t, id) && SoundFeed(t.feed, id)
    ensures Inv(Consumed(t, target, crash, id), id)
  {
    if t.registration.Some? && t.registration.value.last + 1 <= EndVersion(t, target) {
      var reg, end := t.registration.value, EndVersion(t, target) + 1;
      var upTo :| reg.last + 1 <= upTo && ArchivedUpTo(t, reg.start, upTo, id);
      ConsumedArchive(t, target, crash, reg, reg.last + 1, end, upTo, id);
    }
  }

  lemma EmptyWindow(t: Table, start: nat, from: nat, upTo: nat, end: nat, id: ChangeId)
    requires start <= from <= upTo && from <= end <= |t.feed| && ArchivedUpTo(t, start, upTo, id)
    requires Changes(t.feed, from, end) == []
    ensures Entries(t.archive) == Prepared(Changes(t.feed, start, Later(upTo, end)), id)
  {
    if upTo < end {
      ChangesSplit(t.feed, from, upTo, end);
      ChangesSplit(t.feed, start, upTo, end);
    }
  }

  lemma PrefixSound(feed: seq<seq<ChangeRow>>, n: nat, id: ChangeId)
    requires n <= |feed| && SoundFeed(feed, id)
    ensures SoundFeed(feed[..n], id)
  {}

  /** The archive invariant in every reachable state. */
  lemma {:induction false} ReachableInv(steps: seq<Step>, id: ChangeId)
    requires SoundFeed(Steps(NEW_TABLE, steps, id).feed, id)
    ensures Inv(Steps(NEW_TABLE, steps, id), id)
  {
    hide Changes;
    if steps != [] {
      var t := Steps(NEW_TABLE, steps[..|steps| - 1], id);
      var x := Steps(NEW_TABLE, steps, id);
      assert t.feed == x.feed[..|t.feed|];
      PrefixSound(x.feed, |t.feed|, id);
      ReachableInv(steps[..|steps| - 1], id);
      match steps[|steps| - 1]
      case SourceCommit(rows) => CommitInv(t, rows, id);
      case Register => if t.feed != [] { RegisterInv(t, |t.feed| - 1, id); }
      case Consume(target, crash) => ConsumeInv(t, target, crash, id);
    }
  }

  // ---- The guarantees ----

  /** Exactly once: in every reachable state, mid-crash or not, the archive holds each change row of the processed
      versions exactly once, no row twice, and nothing from before the registration. */
  lemma ExactlyOnce(steps: seq<Step>, id: ChangeId, r: ChangeRow)
    requires SoundFeed(Steps(NEW_TABLE, steps, id).feed, id)
    requires Steps(NEW_TABLE, steps, id).registration.Some?
    ensures var t := Steps(NEW_TABLE, steps, id);
      var reg := t.registration.value;
      var copies := multiset(Entries(t.archive))[Entry(id(r), r)];
      && (reg.start <= r.version <= reg.last < |t.feed| && r in t.feed[r.version] ==> copies == 1)
      && copies <= 1
      && (copies == 1 ==> reg.start <= r.version < |t.feed| && r in t.feed[r.version])
  {
    var t := Steps(NEW_TABLE, steps, id);
    var reg := t.registration.value;
    ReachableInv(steps, id);
    var upTo :| reg.last + 1 <= upTo && ArchivedUpTo(t, reg.start, upTo, id);
    CopiesOf(t, reg.start, upTo, r, id);
  }

  lemma CopiesOf(t: Table, start: nat, upTo: nat, r: ChangeRow, id: ChangeId)
    requires SoundFeed(t.feed, id) && ArchivedUpTo(t, start, upTo, id)
    ensures multiset(Entries(t.archive))[Entry(id(r), r)] ==
      if start <= r.version < upTo && r in t.feed[r.version] then 1 else 0
  {
    var rows := Changes(t.feed, start, upTo);
    ChangesVersions(t.feed, start, upTo, id);
    forall i, j | 0 <= i < j < |rows| ensures Prepared(rows, id)[i] != Prepared(rows, id)[j] {
      assert rows[i] != rows[j];
    }
    DistinctMultiset(Prepared(rows, id), Entry(id(r), r));
    PreparedRow(rows, r, id);
  }

  /** One past the last version a consumption may read. */
  function EndOf(t: Table, target: Option<int>): nat {
    if EndVersion(t, target) < 0 then 0 else EndVersion(t, target) + 1
  }

  lemma ConsumedEntries(t: Table, target: Option<int>, reg: Registration, upTo: nat, id: ChangeId)
    requires SoundFeed(t.feed, id) && t.registration == Some(reg) && 0 <= reg.start <= reg.last + 1 <= upTo
    requires ArchivedUpTo(t, reg.start, upTo, id)
    ensures Later(upTo, EndOf(t, target)) <= |t.feed|
    ensures Entries(Consumed(t, target, false, id).archive)
            == Prepared(Changes(t.feed, reg.start, Later(upTo, EndOf(t, target))), id)
  {
    if reg.last + 1 <= EndVersion(t, target) {
      ConsumedArchive(t, target, false, reg, reg.last + 1, EndOf(t, target), upTo, id);
    }
  }

  lemma LongerWindowIff(feed: seq<seq<ChangeRow>>, start: nat, a: nat, b: nat, id: ChangeId)
    requires start <= a <= b <= |feed|
    ensures Prepared(Changes(feed, start, b), id) == Prepared(Changes(feed, start, a), id)
            <==> Changes(feed, a, b) == []
  {
    ChangesSplit(feed, start, a, b);
    PreparedConcat(Changes(feed, start, a), Changes(feed, a, b), id);
  }

  /** What of the archive lies at or past version `cut`. */
  lemma ArchivedPastIff(feed: seq<seq<ChangeRow>>, start: nat, upTo: nat, cut: nat, id: ChangeId)
    requires SoundFeed(feed, id) && start <= upTo <= |feed| && cut <= |feed|
    ensures Changes(feed, Later(start, cut), Later(upTo, cut)) == []
            <==> forall e :: e in Prepared(Changes(feed, start, upTo), id) ==> e.row.version < cut
  {
    var a, b := Later(start, cut), Later(upTo, cut);
    ChangesVersions(feed, start, upTo, id);
    ChangesVersions(feed, a, b, id);
    forall e | e in Prepared(Changes(feed, start, upTo), id) ensures e.row in Changes(feed, start, upTo) {}
    forall r | r in Changes(feed, a, b) ensures r in Changes(feed, start, upTo) && r.version >= cut {}
    if Changes(feed, a, b) != [] {
      var r := Changes(feed, a, b)[0];
      PreparedRow(Changes(feed, start, upTo), r, id);
    }
    if e :| e in Prepared(Changes(feed, start, upTo), id) && e.row.version >= cut {
      assert e.row in Changes(feed, a, b);
    }
  }

  /** The registration of a table nobody has consumed yet. */
  function Unread(t: Table, reg: Registration): Table {
    Table(t.feed, Some(Registration(reg.start, reg.start - 1)), None)
  }

  lemma SameCheckpointIff(t: Table, reg: Registration, target: Option<int>, id: ChangeId)
    requires t.registration == Some(reg) && 0 <= reg.start <= reg.last + 1
    ensures Consumed(t, target, false, id).registration == Consumed(Unread(t, reg), target, false, id).registration
            <==> reg.last <= EndVersion(t, target) || reg.last == reg.start - 1
  {
    hide Written, Changes;
  }

  lemma SameArchiveIff(t: Table, reg: Registration, upTo: nat, target: Option<int>, id: ChangeId)
    requires SoundFeed(t.feed, id) && t.registration == Some(reg) && 0 <= reg.start <= reg.last + 1 <= upTo
    requires ArchivedUpTo(t, reg.start, upTo, id)
    ensures Entries(Consumed(t, target, false, id).archive)
            == Entries(Consumed(Unread(t, reg), target, false, id).archive)
            <==> forall e :: e in Entries(t.archive) ==> e.row.version < EndOf(t, target)
  {
    hide Prepared, Changes, SoundFeed, Written, Consumed;
    var cut := EndOf(t, target);
    assert ArchivedUpTo(Unread(t, reg), reg.start, reg.start, id) by { EmptyPrepared(t.feed, reg.start, id); }
    ConsumedEntries(Unread(t, reg), target, Registration(reg.start, reg.start - 1), reg.start, id);
    ConsumedEntries(t, target, reg, upTo, id);
    LongerWindowIff(t.feed, reg.start, Later(reg.start, cut), Later(upTo, cut), id);
    ArchivedPastIff(t.feed, reg.start, upTo, cut, id);
  }

  lemma EmptyPrepared(feed: seq<seq<ChangeRow>>, v: nat, id: ChangeId)
    requires v <= |feed|
    ensures Prepared(Changes(feed, v, v), id) == []
  {}

  /** Windows do not matter: a bounded consumption up to any version leaves the archive of one single window with the
      same bound, however many windows, crashes and retries came before, exactly when nothing past the bound was
      archived; and it leaves the same checkpoint exactly when the checkpoint was not past the bound. */
  lemma ManyWindowsAreOne(t: Table, target: Option<int>, end: int, id: ChangeId)
    requires Inv(t, id) && SoundFeed(t.feed, id) && t.registration.Some? && IsEnd(end, t.feed, target)
    ensures var reg := t.registration.value;
      var many, single := Consumed(t, target, false, id), Consumed(Unread(t, reg), target, false, id);
      && (many.registration == single.registration <==> reg.last <= end || reg.last == reg.start - 1)
      && (Entries(many.archive) == Entries(single.archive)
          <==> forall e :: e in Entries(t.archive) ==> e.row.version <= end)
  {
    var reg := t.registration.value;
    var upTo :| reg.last + 1 <= upTo && ArchivedUpTo(t, reg.start, upTo, id);
    hide Prepared, Changes, SoundFeed, Written, Consumed, ArchivedUpTo;
    SameCheckpointIff(t, reg, target, id);
    SameArchiveIff(t, reg, upTo, target, id);
  }

  // ---- The bound of a consumption ----

  /** The feed holds the row at a version past `last` and up to `end`. */
  ghost predicate Between(feed: seq<seq<ChangeRow>>, last: int, end: int, r: ChangeRow)
    requires -1 <= last && end < |feed|
  {
    exists v :: last < v <= end && r in feed[v]
  }

  /** After what is there already, rows of versions `last + 1` to `end` are archived; none of others, and none of
      theirs is missing. */
  ghost predicate Archives(was: seq<Entry>, entries: seq<Entry>, feed: seq<seq<ChangeRow>>, last: int, end: int,
                           id: ChangeId)
    requires -1 <= last && end < |feed|
  {
    && was <= entries
    && (forall e :: e in entries[|was|..] ==> e.changeId == id(e.row) && Between(feed, last, end, e.row))
    && forall r :: Between(feed, last, end, r) ==> id(r) in IdsOf(entries)
  }

  /** What one consumption does: it archives up to the end, then moves the checkpoint there unless it dies first. */
  ghost predicate ConsumedUpTo(t: Table, x: Table, end: int, crash: bool, id: ChangeId)
    requires t.registration.Some? && -1 <= t.registration.value.last && end < |t.feed|
  {
    var last := t.registration.value.last;
    && x.feed == t.feed
    && x.registration == Some(Registration(t.registration.value.start, if last < end && !crash then end else last))
    && (end <= last ==> x.archive == t.archive)
    && Archives(Entries(t.archive), Entries(x.archive), t.feed, last, end, id)
  }

  lemma {:induction false} ChangesMembers(feed: seq<seq<ChangeRow>>, from: nat, to: nat, r: ChangeRow)
    requires from <= to <= |feed|
    ensures r in Changes(feed, from, to) <==> exists v :: from <= v < to && r in feed[v]
  {
    if from < to {
      ChangesMembers(feed, from, to - 1, r);
    }
  }

  lemma WrittenFrom(archive: Option<seq<Entry>>, rows: seq<ChangeRow>, id: ChangeId)
    ensures Entries(archive) <= Written(archive, rows, id)
    ensures forall e :: e in Written(archive, rows, id)[|Entries(archive)|..] ==>
      e.changeId == id(e.row) && e.row in rows
    ensures forall r :: r in rows ==> id(r) in IdsOf(Written(archive, rows, id))
  {
    var prepared, was := Prepared(rows, id), Entries(archive);
    var added := Written(archive, rows, id)[|was|..];
    assert forall e :: e in added ==> e in prepared;
    forall r | r in rows ensures id(r) in IdsOf(Written(archive, rows, id)) {
      PreparedRow(rows, r, id);
      assert Entry(id(r), r) in prepared;
      if id(r) !in IdsOf(was) {
        assert Entry(id(r), r) in Written(archive, rows, id);
      }
    }
  }

  lemma WindowArchived(archive: Option<seq<Entry>>, feed: seq<seq<ChangeRow>>, last: int, end: int, id: ChangeId)
    requires -1 <= last < end < |feed|
    ensures var rows := Changes(feed, last + 1, end + 1);
      Archives(Entries(archive), if rows == [] then Entries(archive) else Written(archive, rows, id), feed, last, end,
               id)
  {
    var rows := Changes(feed, last + 1, end + 1);
    WrittenFrom(archive, rows, id);
    hide Written, Changes, IdsOf, Between;
    forall r ensures r in rows <==> Between(feed, last, end, r) {
      BetweenIs(feed, last, end, r);
    }
  }

  lemma BetweenIs(feed: seq<seq<ChangeRow>>, last: int, end: int, r: ChangeRow)
    requires -1 <= last < end < |feed|
    ensures r in Changes(feed, last + 1, end + 1) <==> Between(feed, last, end, r)
  {
    ChangesMembers(feed, last + 1, end + 1, r);
    hide Changes;
  }

  lemma NothingArchived(was: seq<Entry>, feed: seq<seq<ChangeRow>>, last: int, end: int, id: ChangeId)
    requires -1 <= last && end < |feed| && end <= last
    ensures Archives(was, was, feed, last, end, id)
  {}

  /** A consumption reads up to the smaller of the target version and the source's version, exactly: the checkpoint
      ends there, and every new archive entry lies at or below it. No hypothesis on the feed. */
  lemma ConsumptionIsBounded(t: Table, target: Option<int>, end: int, crash: bool, id: ChangeId)
    requires t.registration.Some? && -1 <= t.registration.value.last && IsEnd(end, t.feed, target)
    ensures ConsumedUpTo(t, Next(t, Consume(target, crash), id), end, crash, id)
  {
    var last := t.registration.value.last;
    assert EndVersion(t, target) == end;
    hide Written, Changes, Archives, Entries, EndVersion, IsEnd;
    if last < end {
      WindowArchived(t.archive, t.feed, last, end, id);
    } else {
      NothingArchived(Entries(t.archive), t.feed, last, end, id);
    }
  }

  /** The checkpoint never moves backwards and the registration never changes otherwise. */
  lemma CheckpointMonotone(t: Table, step: Step, id: ChangeId)
    requires t.registration.Some?
    ensures var x := Next(t, step, id);
      && x.registration.Some? && x.registration.value.start == t.registration.value.start
      && t.registration.value.last <= x.registration.value.last
  {}

  /** A crash between the two writes costs nothing: consuming again gives what an uninterrupted consumption gives. */
  lemma CrashThenRetry(t: Table, target: Option<int>, id: ChangeId)
    requires Inv(t, id) && SoundFeed(t.feed, id)
    ensures var x := Consumed(Consumed(t, target, true, id), target, false, id);
      var y := Consumed(t, target, false, id);
      x.registration == y.registration && Entries(x.archive) == Entries(y.archive)
  {
    if t.registration.Some? && t.registration.value.last + 1 <= EndVersion(t, target) {
      var reg, end := t.registration.value, EndVersion(t, target) + 1;
      var upTo :| reg.last + 1 <= upTo && ArchivedUpTo(t, reg.start, upTo, id);
      ConsumedArchive(t, target, true, reg, reg.last + 1, end, upTo, id);
      ConsumedArchive(t, target, false, reg, reg.last + 1, end, upTo, id);
      ConsumedArchive(Consumed(t, target, true, id), target, false, reg, reg.last + 1, end, Later(upTo, end), id);
    }
  }
}
