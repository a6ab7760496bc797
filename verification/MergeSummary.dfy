/** The counts of a finished run: inserts, updates and deletes, wave by wave (src/merge/merge_engine.py:159-163,
    pipeline.py:244-304). */
module MergeSummary {
  import opened Cdc
  import opened Ordering
  import opened MergeSpec
  import opened MergeDecide

  datatype Counts = Counts(inserts: nat, updates: nat, deletes: nat)

  function Count(es: seq<Event>, op: Operation): nat { |Filter(es, (e: Event) => e.change.operation == op)| }

  function CountsOf(es: seq<Event>): Counts { Counts(Count(es, INSERT), Count(es, UPDATE), Count(es, DELETE)) }

  function Plus(a: Counts, b: Counts): Counts {
    Counts(a.inserts + b.inserts, a.updates + b.updates, a.deletes + b.deletes)
  }

  function TotalCounts(ws: seq<seq<Event>>): Counts {
    if ws == [] then Counts(0, 0, 0) else Plus(TotalCounts(ws[..|ws| - 1]), CountsOf(ws[|ws| - 1]))
  }

  /** How many positions of the list hold each operation. */
  ghost predicate Tallied(c: Counts, es: seq<Event>) {
    && c.inserts == |set i | 0 <= i < |es| && es[i].change.operation == INSERT|
    && c.updates == |set i | 0 <= i < |es| && es[i].change.operation == UPDATE|
    && c.deletes == |set i | 0 <= i < |es| && es[i].change.operation == DELETE|
  }

  // ---- Counts are positions ----

  lemma CountIsPositions(es: seq<Event>, op: Operation)
    ensures Count(es, op) == |set i | 0 <= i < |es| && es[i].change.operation == op|
  {
    var keep := (e: Event) => e.change.operation == op;
    FilterPositions(es, keep);
    assert Positions(es, keep) == set i | 0 <= i < |es| && es[i].change.operation == op;
  }

  lemma OperationsTallied(es: seq<Event>)
    ensures Tallied(CountsOf(es), es)
  {
    CountIsPositions(es, INSERT);
    CountIsPositions(es, UPDATE);
    CountIsPositions(es, DELETE);
    hide Count;
  }

  lemma {:induction false} RecognisedAddUp(es: seq<Event>)
    requires forall e :: e in es ==> e.change.Recognised()
    ensures var c := CountsOf(es); c.inserts + c.updates + c.deletes == |es|
  {
    if es != [] {
      var init, last := es[..|es| - 1], es[|es| - 1];
      assert es == init + [last];
      RecognisedAddUp(init);
    }
  }

  // ---- Waves lose no event ----

  /** The events whose waves are listed. */
  function InWaves(es: seq<Event>, keys: seq<WaveKey>): seq<Event> { Filter(es, (e: Event) => e.Wave() in keys) }

  lemma CountSplits(es: seq<Event>, keys: seq<WaveKey>, k: WaveKey, op: Operation)
    requires k !in keys
    ensures Count(InWaves(es, keys + [k]), op) == Count(InWaves(es, keys), op) + Count(WaveOf(es, k), op)
  {
    var isOp := (e: Event) => e.change.operation == op;
    var f := (e: Event) => e.Wave() in keys + [k] && isOp(e);
    var g := (e: Event) => e.Wave() in keys && isOp(e);
    var h := (e: Event) => e.Wave() == k && isOp(e);
    FilterFilter(es, (e: Event) => e.Wave() in keys + [k], isOp, f);
    FilterFilter(es, (e: Event) => e.Wave() in keys, isOp, g);
    FilterFilter(es, (e: Event) => e.Wave() == k, isOp, h);
    FilterSizes(es, f, g, h);
  }

  function WavesOf(es: seq<Event>, keys: seq<WaveKey>): seq<seq<Event>> {
    seq(|keys|, i requires 0 <= i < |keys| => WaveOf(es, keys[i]))
  }

  lemma WavesOfLast(es: seq<Event>, init: seq<WaveKey>, last: WaveKey)
    ensures WavesOf(es, init + [last]) == WavesOf(es, init) + [WaveOf(es, last)]
  {
    hide WaveOf;
  }

  lemma TotalsGrow(ws: seq<seq<Event>>, w: seq<Event>)
    ensures TotalCounts(ws + [w]) == Plus(TotalCounts(ws), CountsOf(w))
  {
    hide CountsOf, Plus;
    assert (ws + [w])[..|ws|] == ws;
  }

  lemma CountsSplit(es: seq<Event>, keys: seq<WaveKey>, k: WaveKey)
    requires k !in keys
    ensures CountsOf(InWaves(es, keys + [k])) == Plus(CountsOf(InWaves(es, keys)), CountsOf(WaveOf(es, k)))
  {
    hide Count, WaveOf, InWaves;
    var all, some, one := InWaves(es, keys + [k]), InWaves(es, keys), WaveOf(es, k);
    assert Count(all, INSERT) == Count(some, INSERT) + Count(one, INSERT) by { CountSplits(es, keys, k, INSERT); }
    assert Count(all, UPDATE) == Count(some, UPDATE) + Count(one, UPDATE) by { CountSplits(es, keys, k, UPDATE); }
    assert Count(all, DELETE) == Count(some, DELETE) + Count(one, DELETE) by { CountSplits(es, keys, k, DELETE); }
  }

  lemma {:induction false} CountsByKeys(es: seq<Event>, keys: seq<WaveKey>)
    requires Distinct(keys)
    ensures TotalCounts(WavesOf(es, keys)) == CountsOf(InWaves(es, keys))
  {
    if keys == [] {
      FilterAllOrNone(es, (e: Event) => e.Wave() in keys);
    } else {
      var init, last := keys[..|keys| - 1], keys[|keys| - 1];
      assert Distinct(init) && last !in init && keys == init + [last];
      hide *;
      CountsByKeys(es, init);
      WavesOfLast(es, init, last);
      TotalsGrow(WavesOf(es, init), WaveOf(es, last));
      CountsSplit(es, init, last);
    }
  }

  lemma TotalsAre(acts: seq<Event>)
    ensures TotalCounts(Waves(acts)) == CountsOf(acts)
    ensures |Waves(acts)| == |set e | e in acts :: (e.change.table, e.change.sequence)|
  {
    SortedKeysFacts(acts);
    var keys := SortedKeys(acts);
    CountsByKeys(acts, keys);
    forall e | e in acts ensures e.Wave() in keys {}
    FilterAllOrNone(acts, (e: Event) => e.Wave() in keys);
    hide CountsOf, TotalCounts, WaveOf, Sort;
    KeysOfPairs(acts, keys);
  }

  lemma KeysOfPairs(acts: seq<Event>, keys: seq<WaveKey>)
    requires Distinct(keys) && forall k :: k in keys <==> exists e :: e in acts && e.Wave() == k
    ensures |keys| == |set e | e in acts :: (e.change.table, e.change.sequence)|
  {
    var pairs := seq(|keys|, i requires 0 <= i < |keys| => (keys[i].table, keys[i].sequence));
    var names := set e | e in acts :: (e.change.table, e.change.sequence);
    forall x ensures x in pairs <==> x in names {
      if x in pairs {
        var i :| 0 <= i < |pairs| && pairs[i] == x;
        assert keys[i] in keys;
        var e :| e in acts && e.Wave() == keys[i];
      }
      if x in names {
        var e :| e in acts && x == (e.change.table, e.change.sequence);
        assert e.Wave() in keys;
        var i :| 0 <= i < |keys| && keys[i] == e.Wave();
        assert pairs[i] == x;
      }
    }
    DistinctSize(pairs, names);
  }

  /** The totals over all waves count the events by operation, and add up when all operations are recognised. */
  lemma TotalsTallied(acts: seq<Event>)
    ensures Tallied(TotalCounts(Waves(acts)), acts)
    ensures (forall e :: e in acts ==> e.change.Recognised()) ==>
      var c := TotalCounts(Waves(acts)); c.inserts + c.updates + c.deletes == |acts|
  {
    TotalsAre(acts);
    OperationsTallied(acts);
    hide CountsOf, TotalCounts, Waves, Tallied;
    if forall e :: e in acts ==> e.change.Recognised() {
      RecognisedAddUp(acts);
    }
  }
}
