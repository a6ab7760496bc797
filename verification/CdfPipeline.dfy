/** The change-feed pipeline itself (src/cdf/state_store.py, archive.py, pipeline.py): registrations, archives and the
    bounded consumption, proved to move each table as `Cdf.Consumed` says and to leave every other table alone. */
module CdfPipeline {
  import opened Cdc
  import opened Ordering
  import opened Cdf

  datatype CdfError = InvalidRange | AlreadyRegistered | SourceNotFound

  class CDFStateStore {
    var registrations: map<string, Registration>

    constructor ()
      ensures registrations == map[]
    {
      registrations := map[];
    }

    /** A new source starts just before its enabling version; an existing one is returned or refused. */
    method RegisterSource(table: string, start: int, refuseExisting: bool) returns (r: Result<Registration, CdfError>)
      modifies this
      ensures r == (if start < 0 then Err(InvalidRange)
                    else if table !in old(registrations) then Ok(Registration(start, start - 1))
                    else if refuseExisting then Err(AlreadyRegistered)
                    else Ok(old(registrations)[table]))
      ensures registrations == if start >= 0 && table !in old(registrations)
                               then old(registrations)[table := Registration(start, start - 1)] else old(registrations)
    {
      if start < 0 {
        return Err(InvalidRange);
      }
      if table in registrations {
        return if refuseExisting then Err(AlreadyRegistered) else Ok(registrations[table]);
      }
      registrations := registrations[table := Registration(start, start - 1)];
      r := Ok(registrations[table]);
    }

    /** The registered tables, in alphabetical order. */
    method ListSources() returns (names: seq<string>)
      ensures Alphabetical(names) && forall table :: table in names <==> table in registrations
    {
      var found: seq<string> := [];
      var todo := registrations.Keys;
      while todo != {}
        invariant todo <= registrations.Keys && Distinct(found)
        invariant forall table :: table in found <==> table in registrations && table !in todo
        decreases |todo|
      {
        var table :| table in todo;
        todo, found := todo - {table}, found + [table];
      }
      names := Sort(found, StringLe);
      StringLeTotalPreorder();
      SortSorted(found, StringLe);
      SortPermutes(found, StringLe);
      PermutationDistinct(found, names);
      SortMembers(found, StringLe);
    }

    /** The checkpoint moves forward or not at all. */
    method AdvanceCheckpoint(table: string, version: int) returns (error: Option<CdfError>)
      modifies this
      ensures error == (if table !in old(registrations) then Some(SourceNotFound)
                        else if version < old(registrations)[table].last then Some(InvalidRange)
                        else None)
      ensures registrations == if error.Some? then old(registrations)
                               else old(registrations)[table := old(registrations)[table].(last := version)]
    {
      if table !in registrations {
        return Some(SourceNotFound);
      }
      if version < registrations[table].last {
        return Some(InvalidRange);
      }
      registrations := registrations[table := registrations[table].(last := version)];
      error := None;
    }
  }

  class CDFArchiveStore {
    var archives: map<string, seq<Entry>>
    const id: ChangeId

    constructor (id: ChangeId)
      ensures archives == map[] && this.id == id
    {
      archives, this.id := map[], id;
    }

    /** Appends the rows whose change id is new; the first write keeps them all. */
    method WriteChanges(table: string, rows: seq<ChangeRow>) returns (inserted: nat)
      modifies this
      ensures archives == if rows == [] then old(archives)
                          else old(archives)[table := Written(Lookup(old(archives), table), rows, id)]
      ensures forall other :: other != table ==> Lookup(archives, other) == Lookup(old(archives), other)
      ensures rows != [] && table !in old(archives) ==>
        archives[table] == seq(|rows|, i requires 0 <= i < |rows| => Entry(id(rows[i]), rows[i]))
      ensures rows != [] && table in old(archives) ==>
        && old(archives)[table] <= archives[table]
        && forall e :: e in archives[table][|old(archives)[table]|..] <==>
             e.row in rows && e.changeId == id(e.row) && forall was :: was in old(archives)[table] ==>
               was.changeId != e.changeId
      ensures rows == [] ==> inserted == 0
      ensures rows != [] ==> inserted == |archives[table]| - |Entries(Lookup(old(archives), table))|
    {
      if rows == [] {
        return 0;
      }
      var prepared := Prepared(rows, id);
      if table !in archives {
        archives := archives[table := prepared];
        return |prepared|;
      }
      var before := archives[table];
      var unseen := Filter(prepared, (e: Entry) => e.changeId !in IdsOf(before));
      UnseenAre(before, rows, id);
      archives := archives[table := before + unseen];
      inserted := |unseen|;
    }
  }

  lemma UnseenAre(before: seq<Entry>, rows: seq<ChangeRow>, id: ChangeId)
    ensures forall e :: e in Filter(Prepared(rows, id), (e: Entry) => e.changeId !in IdsOf(before)) <==>
      e.row in rows && e.changeId == id(e.row) && forall was :: was in before ==> was.changeId != e.changeId
  {
    forall e ensures e in Prepared(rows, id) <==> e.row in rows && e.changeId == id(e.row) {
      PreparedRow(rows, e.row, id);
    }
    hide Prepared;
  }

  datatype Consumption = Consumption(start: int, end: int, inputRows: nat, inserted: int, noOp: bool)

  datatype Outcome = Refused(error: CdfError) | Crashed | Finished(result: Consumption)

  /** What a consumption reports about the table before and after it. */
  ghost predicate Reported(outcome: Outcome, before: Table, after: Table, target: Option<int>, crash: bool) {
    match outcome
    case Refused(error) => before.registration.None? && error == SourceNotFound
    case Crashed => crash && before.registration.Some? && Extends(before, target)
    case Finished(r) =>
      && before.registration.Some? && r.start == before.registration.value.last + 1
      && IsEnd(r.end, before.feed, target) && (r.noOp <==> r.end < r.start) && (crash ==> r.noOp)
      && (r.noOp ==> r.inputRows == 0 && r.inserted == 0)
      && (!r.noOp ==> r.inputRows == RowsIn(before.feed, r.start, r.end))
      && (!r.noOp ==> r.inserted == |Entries(after.archive)| - |Entries(before.archive)|)
  }

  /** There is a version past the checkpoint that the target allows. */
  predicate Extends(t: Table, target: Option<int>)
    requires t.registration.Some?
  {
    t.registration.value.last + 1 < |t.feed| && (target.Some? ==> t.registration.value.last < target.value)
  }

  /** How many change rows the feed holds at versions `start` to `end`. */
  function RowsIn(feed: seq<seq<ChangeRow>>, start: int, end: int): nat {
    if start < 0 || end < start || end >= |feed| then 0 else RowsIn(feed, start, end - 1) + |feed[end]|
  }

  lemma {:induction false} ChangesCount(feed: seq<seq<ChangeRow>>, start: nat, end: int)
    requires start <= end + 1 <= |feed|
    ensures |Changes(feed, start, end + 1)| == RowsIn(feed, start, end)
    decreases end + 1
  {
    if start <= end {
      ChangesCount(feed, start, end - 1);
    }
  }

  /** The report, as the code computes it. */
  function Report(before: Table, after: Table, reg: Registration, target: Option<int>, crash: bool): Outcome {
    var start, end := reg.last + 1, EndVersion(before, target);
    if start > end then Finished(Consumption(start, end, 0, 0, true))
    else if crash then Crashed
    else
      Finished(Consumption(start, end, if start < 0 then 0 else |Changes(before.feed, start, end + 1)|,
                           |Entries(after.archive)| - |Entries(before.archive)|, false))
  }

  lemma ReportIs(before: Table, after: Table, reg: Registration, target: Option<int>, crash: bool)
    requires before.registration == Some(reg) && -1 <= reg.last
    ensures Reported(Report(before, after, reg, target, crash), before, after, target, crash)
  {
    if reg.last < EndVersion(before, target) {
      ChangesCount(before.feed, reg.last + 1, EndVersion(before, target));
    }
  }

  lemma BoundsHold(t: Table, target: Option<int>, crash: bool, id: ChangeId)
    requires t.registration.Some? ==> -1 <= t.registration.value.last
    ensures forall end :: IsEnd(end, t.feed, target) && t.registration.Some? ==>
      ConsumedUpTo(t, Consumed(t, target, crash, id), end, crash, id)
  {
    forall end | IsEnd(end, t.feed, target) && t.registration.Some?
      ensures ConsumedUpTo(t, Consumed(t, target, crash, id), end, crash, id)
    {
      ConsumptionIsBounded(t, target, end, crash, id);
    }
  }

  /** Everything the consumer reads and writes. */
  datatype Stores = Stores(feeds: map<string, seq<seq<ChangeRow>>>, registrations: map<string, Registration>,
                           archives: map<string, seq<Entry>>)
  {
    /** One table, as the state machine sees it. */
    ghost function At(table: string): Table {
      Table(if table in feeds then feeds[table] else [], Lookup(registrations, table), Lookup(archives, table))
    }
  }

  /** Of the listed tables the first `n` have been consumed, every other table stands as it did. */
  ghost predicate ConsumedFirst(was: Stores, now: Stores, names: seq<string>, n: nat, target: Option<int>, id: ChangeId)
    requires n <= |names|
  {
    forall table :: now.At(table) ==
      if table in names[..n] then Consumed(was.At(table), target, false, id) else was.At(table)
  }

  lemma ConsumedNext(was: Stores, mid: Stores, now: Stores, names: seq<string>, n: nat, target: Option<int>,
                     id: ChangeId)
    requires n < |names| && Alphabetical(names) && ConsumedFirst(was, mid, names, n, target, id)
    requires now.At(names[n]) == Consumed(mid.At(names[n]), target, false, id)
    requires forall other :: other != names[n] ==> now.At(other) == mid.At(other)
    ensures mid.At(names[n]) == was.At(names[n]) && ConsumedFirst(was, now, names, n + 1, target, id)
  {
    hide Consumed, Stores.At, Alphabetical;
    NamesDiffer(names, n);
    assert names[..n + 1] == names[..n] + [names[n]];
  }

  /** The outcomes so far are the reports of the first tables. */
  ghost predicate ReportedFirst(was: Stores, names: seq<string>, outcomes: seq<Outcome>, target: Option<int>,
                                id: ChangeId) {
    && |outcomes| <= |names|
    && forall i :: 0 <= i < |outcomes| ==>
         Reported(outcomes[i], was.At(names[i]), Consumed(was.At(names[i]), target, false, id), target, false)
  }

  lemma ReportedNext(was: Stores, names: seq<string>, outcomes: seq<Outcome>, outcome: Outcome, target: Option<int>,
                     id: ChangeId)
    requires ReportedFirst(was, names, outcomes, target, id) && |outcomes| < |names|
    requires var t := was.At(names[|outcomes|]); Reported(outcome, t, Consumed(t, target, false, id), target, false)
    ensures ReportedFirst(was, names, outcomes + [outcome], target, id)
  {
    hide Reported, Consumed, Stores.At;
  }

  lemma NoneConsumed(was: Stores, names: seq<string>, target: Option<int>, id: ChangeId)
    ensures ConsumedFirst(was, was, names, 0, target, id) && ReportedFirst(was, names, [], target, id)
  {}

  lemma AllReported(was: Stores, now: Stores, names: seq<string>, outcomes: seq<Outcome>, target: Option<int>,
                    id: ChangeId)
    requires ConsumedFirst(was, now, names, |names|, target, id) && |outcomes| == |names|
    requires ReportedFirst(was, names, outcomes, target, id)
    ensures forall i :: 0 <= i < |names| ==> Reported(outcomes[i], was.At(names[i]), now.At(names[i]), target, false)
  {
    hide Consumed, Stores.At, Reported;
    assert names[..|names|] == names;
  }

  class CDFDownstreamPipeline {
    const stateStore: CDFStateStore
    const archiveStore: CDFArchiveStore
    var feeds: map<string, seq<seq<ChangeRow>>>
    /** The tables whose change feed is on. */
    var enabled: set<string>

    constructor (id: ChangeId)
      ensures fresh(stateStore) && fresh(archiveStore) && feeds == map[] && enabled == {} && archiveStore.id == id
      ensures stateStore.registrations == map[] && archiveStore.archives == map[]
    {
      feeds, enabled := map[], {};
      stateStore := new CDFStateStore();
      archiveStore := new CDFArchiveStore(id);
    }

    ghost function State(): Stores
      reads this, stateStore, archiveStore
    {
      Stores(feeds, stateStore.registrations, archiveStore.archives)
    }

    /** One table of the consumer. */
    ghost function TableOf(table: string): Table
      reads this, stateStore, archiveStore
    {
      State().At(table)
    }

    /** The table once its change feed is on: turning it on is a commit without change rows. */
    ghost function EnabledTable(table: string): Table
      reads this, stateStore, archiveStore
    {
      if table in enabled || TableOf(table).feed == [] then TableOf(table)
      else Next(TableOf(table), SourceCommit([]), archiveStore.id)
    }

    /** Registration requires an existing source table, and turns its change feed on first, even if the registration
        is then refused. */
    method RegisterTable(table: string, refuseExisting: bool) returns (r: Result<Registration, CdfError>)
      modifies this, stateStore
      ensures TableOf(table) == Next(old(EnabledTable(table)), Step.Register, archiveStore.id)
      ensures forall other :: other != table ==> TableOf(other) == old(TableOf(other))
      ensures enabled == old(enabled) + if TableOf(table).feed == [] then {} else {table}
      ensures TableOf(table).feed == old(TableOf(table)).feed
                                     + if old(TableOf(table)).feed != [] && table !in old(enabled) then [[]] else []
      ensures TableOf(table).archive == old(TableOf(table)).archive
      ensures r == (if old(TableOf(table)).feed == [] then Err(SourceNotFound)
                    else if old(TableOf(table)).registration.None? then
                      Ok(Registration(|TableOf(table).feed| - 1, |TableOf(table).feed| - 2))
                    else if refuseExisting then Err(AlreadyRegistered)
                    else Ok(old(TableOf(table)).registration.value))
      ensures r.Ok? ==> TableOf(table).registration == Some(r.value)
      ensures r.Err? ==> TableOf(table) == old(EnabledTable(table))
    {
      if table !in feeds || feeds[table] == [] {
        return Err(SourceNotFound);
      }
      if table !in enabled {
        feeds, enabled := feeds[table := feeds[table] + [[]]], enabled + {table};
      }
      r := stateStore.RegisterSource(table, |feeds[table]| - 1, refuseExisting);
    }

    /** No checkpoint lies below the one before the first version. */
    ghost predicate Checkpointed()
      reads stateStore
    {
      forall table :: table in stateStore.registrations ==> stateStore.registrations[table].last >= -1
    }

    /** Reads one window, archives it, then moves the checkpoint; with `crash` the process dies between the two
        writes. */
    method ConsumeWindow(table: string, feed: seq<seq<ChangeRow>>, start: nat, end: nat, crash: bool)
      returns (outcome: Outcome)
      requires table in stateStore.registrations && stateStore.registrations[table].last == start - 1
      requires start <= end < |feed|
      modifies stateStore, archiveStore
      ensures var rows := Changes(feed, start, end + 1);
        archiveStore.archives == if rows == [] then old(archiveStore.archives)
          else old(archiveStore.archives)[table := Written(Lookup(old(archiveStore.archives), table), rows,
                                                           archiveStore.id)]
      ensures stateStore.registrations == if crash then old(stateStore.registrations)
        else old(stateStore.registrations)[table := old(stateStore.registrations)[table].(last := end)]
      ensures outcome == if crash then Crashed
        else Finished(Consumption(start, end, |Changes(feed, start, end + 1)|,
                                  |Entries(Lookup(archiveStore.archives, table))|
                                  - |Entries(Lookup(old(archiveStore.archives), table))|, false))
    {
      var rows := Changes(feed, start, end + 1);
      var inserted := archiveStore.WriteChanges(table, rows);
      if crash {
        return Crashed;
      }
      var error := stateStore.AdvanceCheckpoint(table, end);
      outcome := Finished(Consumption(start, end, |rows|, inserted, false));
    }

    /** A registered table: one window, if there is any. */
    method ConsumeRegistered(table: string, reg: Registration, target: Option<int>, crash: bool)
      returns (outcome: Outcome)
      requires Checkpointed() && table in stateStore.registrations && stateStore.registrations[table] == reg
      modifies stateStore, archiveStore
      ensures TableOf(table) == Consumed(old(TableOf(table)), target, crash, archiveStore.id)
      ensures forall other :: other != table ==> TableOf(other) == old(TableOf(other))
      ensures outcome == Report(old(TableOf(table)), TableOf(table), reg, target, crash)
      ensures stateStore.registrations.Keys == old(stateStore.registrations.Keys)
      ensures Checkpointed()
    {
      hide Written, Prepared, Changes;
      var feed := if table in feeds then feeds[table] else [];
      var current := |feed| - 1;
      var end := if target.Some? && target.value < current then target.value else current;
      if reg.last + 1 > end {
        return Finished(Consumption(reg.last + 1, end, 0, 0, true));
      }
      outcome := ConsumeWindow(table, feed, reg.last + 1, end, crash);
    }

    /** One bounded consumption of a table. */
    method ConsumeTable(table: string, target: Option<int>, crash: bool) returns (outcome: Outcome)
      requires Checkpointed()
      modifies stateStore, archiveStore
      ensures TableOf(table) == Consumed(old(TableOf(table)), target, crash, archiveStore.id)
      ensures forall end :: IsEnd(end, old(TableOf(table)).feed, target) && old(TableOf(table)).registration.Some? ==>
        ConsumedUpTo(old(TableOf(table)), TableOf(table), end, crash, archiveStore.id)
      ensures forall other :: other != table ==> TableOf(other) == old(TableOf(other))
      ensures Reported(outcome, old(TableOf(table)), TableOf(table), target, crash)
      ensures stateStore.registrations.Keys == old(stateStore.registrations.Keys)
      ensures Checkpointed()
    {
      ghost var t := TableOf(table);
      BoundsHold(t, target, crash, archiveStore.id);
      if table !in stateStore.registrations {
        return Refused(SourceNotFound);
      }
      hide Consumed, ConsumedUpTo, Reported, IsEnd, Report;
      var reg := stateStore.registrations[table];
      outcome := ConsumeRegistered(table, reg, target, crash);
      ReportIs(t, TableOf(table), reg, target, crash);
    }

    /** Consumes one of the listed tables. */
    method ConsumeNext(ghost was: Stores, names: seq<string>, n: nat, target: Option<int>) returns (outcome: Outcome)
      requires Checkpointed() && n < |names| && Alphabetical(names)
      requires ConsumedFirst(was, State(), names, n, target, archiveStore.id)
      modifies stateStore, archiveStore
      ensures Checkpointed() && ConsumedFirst(was, State(), names, n + 1, target, archiveStore.id)
      ensures Reported(outcome, was.At(names[n]), Consumed(was.At(names[n]), target, false, archiveStore.id), target,
                       false)
    {
      hide Consumed, Reported, ConsumedFirst, Alphabetical, Stores.At;
      ghost var mid := State();
      outcome := ConsumeTable(names[n], target, false);
      forall other | other != names[n] ensures State().At(other) == mid.At(other) {
        assert TableOf(other) == State().At(other);
      }
      ConsumedNext(was, mid, State(), names, n, target, archiveStore.id);
    }

    /** Consumes every registered table, in alphabetical order, and reports on each in that order. */
    method ConsumeAll(target: Option<int>) returns (names: seq<string>, outcomes: seq<Outcome>)
      requires Checkpointed()
      modifies stateStore, archiveStore
      ensures Alphabetical(names) && forall table :: table in names <==> table in old(stateStore.registrations)
      ensures |outcomes| == |names|
      ensures forall i :: 0 <= i < |names| ==>
        Reported(outcomes[i], old(TableOf(names[i])), TableOf(names[i]), target, false)
      ensures ConsumedFirst(old(State()), State(), names, |names|, target, archiveStore.id)
    {
      names := stateStore.ListSources();
      outcomes := [];
      ghost var was := State();
      hide Consumed, Reported, ConsumedFirst, Alphabetical, Stores.At, Checkpointed;
      NoneConsumed(was, names, target, archiveStore.id);
      hide ReportedFirst;
      for n := 0 to |names|
        invariant Checkpointed() && |outcomes| == n
        invariant ConsumedFirst(was, State(), names, n, target, archiveStore.id)
        invariant ReportedFirst(was, names, outcomes, target, archiveStore.id)
      {
        var outcome := ConsumeNext(was, names, n, target);
        ReportedNext(was, names, outcomes, outcome, target, archiveStore.id);
        outcomes := outcomes + [outcome];
      }
      AllReported(was, State(), names, outcomes, target, archiveStore.id);
    }
  }

  /** Every name once, in ascending order. */
  ghost predicate Alphabetical(names: seq<string>) { Sorted(names, StringLe) && Distinct(names) }

  lemma NamesDiffer(names: seq<string>, n: nat)
    requires Alphabetical(names) && n < |names|
    ensures names[n] !in names[..n]
  {}
}
