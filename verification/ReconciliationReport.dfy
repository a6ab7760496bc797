/** The reconciliation report as the code makes it (src/merge/reconciliation.py:13-118). */
module ReconciliationReport {
  import opened Cdc
  import opened Reconciliation

  /** Rows of the engine that the target lacks, columns that differ, and rows only the target has. */
  datatype Report = Report(
    reconciled: bool, missing: set<RowKey>, different: map<RowKey, set<string>>, unexpected: set<RowKey>)

  /** The records of the engine carry their primary key, with the value they are stored under. */
  ghost predicate SelfKeyed(oracle: map<RowKey, Image>) {
    forall k :: k in oracle ==> CarriesKey(k, oracle[k]) && oracle[k][TABLE_PRIMARY_KEYS[k.table]] == k.pk
  }

  predicate CarriesKey(k: RowKey, record: Image) {
    k.table in TABLE_PRIMARY_KEYS && TABLE_PRIMARY_KEYS[k.table] in record
  }

  /** The engine's columns that the target's row lacks or holds with another value; the others are not compared. */
  function Differences(record: Image, row: Image): set<string> {
    set col | col in record && (col !in row || row[col] != record[col])
  }

  lemma NoDifferenceIff(record: Image, row: Image)
    ensures Differences(record, row) == {} <==> Covers(row, record)
  {
    forall col ensures col in Differences(record, row) <==> col in record && (col !in row || row[col] != record[col]) {}
  }

  /** What a self-keyed engine's records are by the primary key they carry, those of `todo` aside. */
  ghost predicate Collected(oracle: map<RowKey, Image>, todo: set<RowKey>, found: map<RowKey, Image>) {
    forall k :: Lookup(found, k) == if k in oracle && k !in todo then Some(oracle[k]) else None
  }

  lemma CollectedGrows(oracle: map<RowKey, Image>, todo: set<RowKey>, found: map<RowKey, Image>, k: RowKey)
    requires Collected(oracle, todo, found) && k in todo && k in oracle
    ensures Collected(oracle, todo - {k}, found[k := oracle[k]])
  {
    var next := found[k := oracle[k]];
    forall j ensures Lookup(next, j) == if j in oracle && j !in todo - {k} then Some(oracle[j]) else None {
      assert Lookup(found, j) == if j in oracle && j !in todo then Some(oracle[j]) else None;
    }
  }

  lemma CollectedAll(oracle: map<RowKey, Image>, found: map<RowKey, Image>)
    requires Collected(oracle, {}, found)
    ensures found == oracle
  {
    SameLookups(found, oracle);
  }

  /** The engine's records by the primary key they carry, or none if one carries none. */
  method RecordsByKey(oracle: map<RowKey, Image>) returns (byKey: Option<map<RowKey, Image>>)
    ensures byKey.None? <==> exists k :: k in oracle && !CarriesKey(k, oracle[k])
    ensures SelfKeyed(oracle) ==> byKey == Some(oracle)
  {
    var found: map<RowKey, Image> := map[];
    var todo := oracle.Keys;
    assert Collected(oracle, todo, found);
    hide Collected;
    while todo != {}
      invariant todo <= oracle.Keys
      invariant forall k :: k in oracle && k !in todo ==> CarriesKey(k, oracle[k])
      invariant SelfKeyed(oracle) ==> Collected(oracle, todo, found)
      decreases |todo|
    {
      var k :| k in todo;
      if !CarriesKey(k, oracle[k]) {
        return None;
      }
      if SelfKeyed(oracle) {
        CollectedGrows(oracle, todo, found, k);
      }
      var key := RowKey(k.table, oracle[k][TABLE_PRIMARY_KEYS[k.table]]);
      todo, found := todo - {k}, found[key := oracle[k]];
    }
    if SelfKeyed(oracle) {
      CollectedAll(oracle, found);
    }
    byKey := Some(found);
  }

  /** The columns of one row that differ. */
  method CompareColumns(record: Image, row: Image) returns (columns: set<string>)
    ensures columns == Differences(record, row)
  {
    columns := {};
    var todo := record.Keys;
    while todo != {}
      invariant todo <= record.Keys && columns == Differences(record, row) - todo
      decreases |todo|
    {
      var col :| col in todo;
      todo := todo - {col};
      if col !in row || row[col] != record[col] {
        columns := columns + {col};
      }
    }
  }

  /** What the comparison has found once it has been through all rows but those of `todo`. */
  ghost predicate Compared(records: map<RowKey, Image>, delta: map<RowKey, Image>, todo: set<RowKey>,
                           missing: set<RowKey>, different: map<RowKey, set<string>>) {
    forall k ::
      (k in missing <==> k in records && k !in todo && k !in delta)
      && Lookup(different, k) == Difference(records, delta, todo, k)
  }

  function Difference(records: map<RowKey, Image>, delta: map<RowKey, Image>, todo: set<RowKey>, k: RowKey)
    : Option<set<string>>
  {
    if k in records && k !in todo && k in delta && Differences(records[k], delta[k]) != {}
    then Some(Differences(records[k], delta[k])) else None
  }

  lemma ComparedGrows(records: map<RowKey, Image>, delta: map<RowKey, Image>, todo: set<RowKey>, missing: set<RowKey>,
                      different: map<RowKey, set<string>>, k: RowKey)
    requires Compared(records, delta, todo, missing, different) && k in todo && k in records
    ensures k !in delta ==> Compared(records, delta, todo - {k}, missing + {k}, different)
    ensures k in delta && Differences(records[k], delta[k]) == {} ==>
      Compared(records, delta, todo - {k}, missing, different)
    ensures k in delta && Differences(records[k], delta[k]) != {} ==>
      Compared(records, delta, todo - {k}, missing, different[k := Differences(records[k], delta[k])])
  {
    hide Differences;
    forall j
      ensures j != k ==> Difference(records, delta, todo - {k}, j) == Difference(records, delta, todo, j)
      ensures j in missing <==> j in records && j !in todo && j !in delta
      ensures Lookup(different, j) == Difference(records, delta, todo, j)
    {}
  }

  /** Both directions: the engine's rows against the target's, then the target's rows against the engine's. */
  method CompareRows(records: map<RowKey, Image>, delta: map<RowKey, Image>) returns (report: Report)
    ensures Compared(records, delta, {}, report.missing, report.different)
    ensures report.unexpected == delta.Keys - records.Keys
    ensures report.reconciled <==> Reconciles(delta, records)
  {
    var missing: set<RowKey>, different: map<RowKey, set<string>> := {}, map[];
    var todo := records.Keys;
    assert Compared(records, delta, todo, missing, different);
    hide Compared, Differences, Reconciles;
    while todo != {}
      invariant todo <= records.Keys && Compared(records, delta, todo, missing, different)
      decreases |todo|
    {
      var k :| k in todo;
      ComparedGrows(records, delta, todo, missing, different, k);
      todo := todo - {k};
      if k !in delta {
        missing := missing + {k};
      } else {
        var columns := CompareColumns(records[k], delta[k]);
        if columns != {} {
          different := different[k := columns];
        }
      }
    }
    var unexpected := set k | k in delta && k !in records;
    assert unexpected == delta.Keys - records.Keys;
    report := Report(missing == {} && different == map[] && unexpected == {}, missing, different, unexpected);
    CleanIff(records, delta, missing, different);
  }

  lemma CleanIff(records: map<RowKey, Image>, delta: map<RowKey, Image>, missing: set<RowKey>,
                 different: map<RowKey, set<string>>)
    requires Compared(records, delta, {}, missing, different)
    ensures missing == {} && different == map[] && delta.Keys - records.Keys == {} <==> Reconciles(delta, records)
  {
    forall k
      ensures k in missing <==> k in records && k !in delta
      ensures k in different <==> k in records && k in delta && !Covers(delta[k], records[k])
    {
      if k in records && k in delta {
        NoDifferenceIff(records[k], delta[k]);
      }
      assert Lookup(different, k) == Difference(records, delta, {}, k);
    }
    hide Compared, Differences, Covers;
    if Reconciles(delta, records) {
      SameLookups(different, map[]);
    } else {
      var k :| (k in records && k !in delta) || (k in delta && k !in records)
               || (k in records && k in delta && !Covers(delta[k], records[k]));
      assert k in missing || k in different || k in delta.Keys - records.Keys;
    }
  }

  /** The report names every missing row, and of the others exactly the columns that are missing or differ. */
  ghost predicate Names(report: Report, delta: map<RowKey, Image>, oracle: map<RowKey, Image>) {
    && (forall k :: k in report.missing <==> k in oracle && k !in delta)
    && (forall k :: k in report.unexpected <==> k in delta && k !in oracle)
    && (forall k :: k in report.different ==> report.different[k] != {})
    && forall k, col ::
         k in report.different && col in report.different[k] <==>
           && k in oracle && k in delta && col in oracle[k]
           && (col !in delta[k] || delta[k][col] != oracle[k][col])
  }

  lemma ComparedNames(report: Report, delta: map<RowKey, Image>, oracle: map<RowKey, Image>)
    requires Compared(oracle, delta, {}, report.missing, report.different)
    requires report.unexpected == delta.Keys - oracle.Keys
    ensures Names(report, delta, oracle)
  {
    forall k
      ensures k in report.missing <==> k in oracle && k !in delta
      ensures k in report.different ==> report.different[k] != {}
      ensures k in report.different ==>
        k in oracle && k in delta && report.different[k] == Differences(oracle[k], delta[k])
      ensures k in oracle && k in delta && k !in report.different ==> Differences(oracle[k], delta[k]) == {}
    {
      assert Lookup(report.different, k) == Difference(oracle, delta, {}, k);
    }
    hide Compared;
    forall k, col
      ensures k in report.different && col in report.different[k] <==>
        && k in oracle && k in delta && col in oracle[k] && (col !in delta[k] || delta[k][col] != oracle[k][col])
    {
      if k in oracle && k in delta {
        assert col in Differences(oracle[k], delta[k]) <==>
          col in oracle[k] && (col !in delta[k] || delta[k][col] != oracle[k][col]);
      }
    }
  }

  /** The report, or an error if a record of the engine lacks its primary key. */
  method Reconcile(delta: map<RowKey, Image>, oracle: map<RowKey, Image>) returns (report: Option<Report>)
    ensures report.None? <==> exists k :: k in oracle && !CarriesKey(k, oracle[k])
    ensures SelfKeyed(oracle) ==>
      && report.Some? && (report.value.reconciled <==> Reconciles(delta, oracle))
      && Names(report.value, delta, oracle)
  {
    var byKey := RecordsByKey(oracle);
    if byKey.None? {
      return None;
    }
    var rows := CompareRows(byKey.value, delta);
    ComparedNames(rows, delta, byKey.value);
    hide Names, Reconciles;
    report := Some(rows);
  }
}
