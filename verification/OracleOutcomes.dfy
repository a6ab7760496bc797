/** What becomes of each event of a batch, counted (src/source/mutation_engine.py:107-160). */
module OracleOutcomes {
  import opened Cdc
  import opened Ordering
  import opened Oracle

  /** The event is valid, and its id has been seen before the batch or earlier in it. */
  ghost predicate Repeats(st: OracleState, cs: seq<Change>, i: nat)
    requires i < |cs|
  {
    && Valid(cs[i])
    && (cs[i].eventId in st.seen || exists j :: 0 <= j < i && Valid(cs[j]) && cs[j].eventId == cs[i].eventId)
  }

  /** The event is valid and new, but not above its row's last sequence number, from before the batch or earlier in
      it. */
  ghost predicate Outdated(st: OracleState, cs: seq<Change>, i: nat)
    requires i < |cs|
  {
    Valid(cs[i]) && !Repeats(st, cs, i) && Reached(st, cs[..i], cs[i].Key(), cs[i].sequence)
  }

  /** The row has a sequence number of `n` or more. */
  ghost predicate Reached(st: OracleState, cs: seq<Change>, k: RowKey, n: int) {
    || n <= (if k in st.sequences then st.sequences[k] else 0)
    || exists j :: 0 <= j < |cs| && Valid(cs[j]) && !Repeats(st, cs, j) && cs[j].Key() == k && n <= cs[j].sequence
  }

  lemma RepeatsGrow(st: OracleState, cs: seq<Change>, c: Change, i: nat)
    requires i < |cs|
    ensures Repeats(st, cs + [c], i) <==> Repeats(st, cs, i)
  {
    hide Valid;
    assert forall j :: 0 <= j < |cs| ==> (cs + [c])[j] == cs[j];
  }

  lemma {:induction false} SeenAre(st: OracleState, cs: seq<Change>, id: string)
    ensures id in OracleRun(st, cs).seen <==>
      id in st.seen || exists j :: 0 <= j < |cs| && Valid(cs[j]) && cs[j].eventId == id
  {
    if cs != [] {
      var init, last := cs[..|cs| - 1], cs[|cs| - 1];
      SeenAre(st, init, id);
      hide Valid, Change.PkValue;
      assert cs == init + [last];
    }
  }

  lemma {:induction false} ReachedIs(st: OracleState, cs: seq<Change>, k: RowKey, n: int)
    ensures n <= MaxSeen(OracleRun(st, cs), k) <==> Reached(st, cs, k, n)
  {
    if cs != [] {
      var init, last := cs[..|cs| - 1], cs[|cs| - 1];
      assert cs == init + [last];
      ReachedIs(st, init, k, n);
      SeenAre(st, init, last.eventId);
      forall j | 0 <= j < |init| ensures Repeats(st, cs, j) <==> Repeats(st, init, j) {
        RepeatsGrow(st, init, last, j);
      }
      assert Repeats(st, cs, |init|) <==> Valid(last) && last.eventId in OracleRun(st, init).seen;
      hide Valid, Change.PkValue, OracleRun, Repeats;
      assert forall j :: 0 <= j < |init| ==> cs[j] == init[j];
      ReachedGrows(st, init, last, k, n);
    }
  }

  lemma ReachedGrows(st: OracleState, cs: seq<Change>, c: Change, k: RowKey, n: int)
    ensures Reached(st, cs + [c], k, n) <==>
      || Reached(st, cs, k, n)
      || (Valid(c) && !Repeats(st, cs + [c], |cs|) && c.Key() == k && n <= c.sequence)
  {
    var all := cs + [c];
    forall j | 0 <= j < |cs| ensures all[j] == cs[j] && (Repeats(st, all, j) <==> Repeats(st, cs, j)) {
      RepeatsGrow(st, cs, c, j);
    }
    hide Valid, Change.PkValue, Repeats;
    if j :| 0 <= j < |cs| && Valid(cs[j]) && !Repeats(st, cs, j) && cs[j].Key() == k && n <= cs[j].sequence {
      assert Valid(all[j]) && !Repeats(st, all, j) && all[j].Key() == k && n <= all[j].sequence;
    }
    if Valid(c) && !Repeats(st, all, |cs|) && c.Key() == k && n <= c.sequence {
      assert all[|cs|] == c;
    }
  }

  /** The outcome of each event of a list. */
  function Outcomes(st: OracleState, cs: seq<Change>): seq<Outcome> {
    seq(|cs|, i requires 0 <= i < |cs| => OutcomeOf(OracleRun(st, cs[..i]), cs[i]))
  }

  function Sized(outs: seq<Outcome>, o: Outcome): nat { |Filter(outs, (x: Outcome) => x == o)| }

  lemma OutcomesGrow(st: OracleState, cs: seq<Change>, c: Change)
    ensures Outcomes(st, cs + [c]) == Outcomes(st, cs) + [OutcomeOf(OracleRun(st, cs), c)]
  {
    var all := cs + [c];
    hide OutcomeOf, OracleRun;
    assert all[..|cs|] == cs;
    forall i | 0 <= i < |cs| ensures all[..i] == cs[..i] && all[i] == cs[i] {}
  }

  lemma SizedGrows(outs: seq<Outcome>, x: Outcome, o: Outcome)
    ensures Sized(outs + [x], o) == Sized(outs, o) + if x == o then 1 else 0
  {
    assert (outs + [x])[..|outs|] == outs;
  }

  lemma {:induction false} TallyIsSized(st: OracleState, cs: seq<Change>, explain: ErrorTexts)
    ensures var r, outs := Tally(st, cs, explain), Outcomes(st, cs);
      && r.applied == Sized(outs, APPLIED) && r.duplicate == Sized(outs, DUPLICATE)
      && r.stale == Sized(outs, STALE) && r.invalid == Sized(outs, INVALID)
  {
    if cs != [] {
      var init, last := cs[..|cs| - 1], cs[|cs| - 1];
      var outs, x := Outcomes(st, init), OutcomeOf(OracleRun(st, init), last);
      assert cs == init + [last];
      TallyIsSized(st, init, explain);
      OutcomesGrow(st, init, last);
      hide Sized, Outcomes, OutcomeOf, OracleRun;
      SizedGrows(outs, x, APPLIED);
      SizedGrows(outs, x, DUPLICATE);
      SizedGrows(outs, x, STALE);
      SizedGrows(outs, x, INVALID);
    }
  }

  lemma SizedIs(outs: seq<Outcome>, o: Outcome, all: set<int>)
    requires forall i :: i in all <==> 0 <= i < |outs| && outs[i] == o
    ensures Sized(outs, o) == |all|
  {
    FilterPositions(outs, (x: Outcome) => x == o);
    assert Positions(outs, (x: Outcome) => x == o) == all;
  }

  lemma OutcomeAt(st: OracleState, cs: seq<Change>, i: nat)
    requires i < |cs|
    ensures OutcomeOf(OracleRun(st, cs[..i]), cs[i]) ==
            if !Valid(cs[i]) then INVALID
            else if Repeats(st, cs, i) then DUPLICATE
            else if Outdated(st, cs, i) then STALE
            else APPLIED
  {
    SeenAre(st, cs[..i], cs[i].eventId);
    ReachedIs(st, cs[..i], cs[i].Key(), cs[i].sequence);
    hide Valid, Change.PkValue, OracleRun, Reached;
    assert forall j :: 0 <= j < i ==> cs[..i][j] == cs[j];
  }

  ghost predicate OutcomeIs(st: OracleState, cs: seq<Change>, i: nat)
    requires i < |cs|
  {
    Outcomes(st, cs)[i] == if !Valid(cs[i]) then INVALID
                           else if Repeats(st, cs, i) then DUPLICATE
                           else if Outdated(st, cs, i) then STALE
                           else APPLIED
  }

  /** The positions that an outcome is said to have. */
  ghost predicate PositionsOf(st: OracleState, cs: seq<Change>, o: Outcome, i: nat)
    requires i < |cs|
  {
    match o
    case INVALID => !Valid(cs[i])
    case DUPLICATE => Repeats(st, cs, i)
    case STALE => Outdated(st, cs, i)
    case APPLIED => Valid(cs[i]) && !Repeats(st, cs, i) && !Outdated(st, cs, i)
  }

  lemma CountedAs(st: OracleState, cs: seq<Change>, o: Outcome, all: set<int>)
    requires forall i :: 0 <= i < |cs| ==> OutcomeIs(st, cs, i)
    requires forall i :: i in all <==> 0 <= i < |cs| && PositionsOf(st, cs, o, i)
    ensures Sized(Outcomes(st, cs), o) == |all|
  {
    forall i | 0 <= i < |cs| ensures PositionsOf(st, cs, o, i) <==> Outcomes(st, cs)[i] == o {
      assert OutcomeIs(st, cs, i);
      hide Valid, OracleRun, OutcomeOf, Reached;
    }
    hide Valid, Outcomes, PositionsOf, OutcomeIs;
    SizedIs(Outcomes(st, cs), o, all);
  }

  /** Every event is counted under one outcome: invalid, a repeated id, a sequence number already reached, or
      applied. */
  lemma TallyIs(st: OracleState, cs: seq<Change>, explain: ErrorTexts)
    ensures var r := Tally(st, cs, explain);
      && r.invalid == |set i | 0 <= i < |cs| && !Valid(cs[i])|
      && r.duplicate == |set i | 0 <= i < |cs| && Repeats(st, cs, i)|
      && r.stale == |set i | 0 <= i < |cs| && Outdated(st, cs, i)|
      && r.applied
         == |set i | 0 <= i < |cs| && Valid(cs[i]) && !Repeats(st, cs, i) && !Outdated(st, cs, i)|
  {
    TallyIsSized(st, cs, explain);
    forall i | 0 <= i < |cs| ensures OutcomeIs(st, cs, i) {
      OutcomeAt(st, cs, i);
      hide Valid, OracleRun;
    }
    hide *;
    CountedAs(st, cs, INVALID, set i | 0 <= i < |cs| && !Valid(cs[i]));
    CountedAs(st, cs, DUPLICATE, set i | 0 <= i < |cs| && Repeats(st, cs, i));
    CountedAs(st, cs, STALE, set i | 0 <= i < |cs| && Outdated(st, cs, i));
    CountedAs(st, cs, APPLIED,
              set i | 0 <= i < |cs| && Valid(cs[i]) && !Repeats(st, cs, i) && !Outdated(st, cs, i));
  }

  /** A sorted batch is the same events by table, rendered key and sequence number; equal ones keep their order. */
  lemma SortedBatch(events: seq<Change>, render: KeyText)
    ensures Chosen(events, false, render) == events
    ensures multiset(Chosen(events, true, render)) == multiset(events)
    ensures var cs := Chosen(events, true, render);
      forall i, j :: 0 <= i < j < |cs| ==>
        && StringLe(cs[i].table, cs[j].table)
        && (cs[i].table == cs[j].table ==>
              && StringLe(render(cs[i].businessKey), render(cs[j].businessKey))
              && (render(cs[i].businessKey) == render(cs[j].businessKey) ==> cs[i].sequence <= cs[j].sequence))
  {
    var le := (a: Change, b: Change) => BatchLe(render, a, b);
    forall a, b ensures le(a, b) || le(b, a) ensures le(a, b) ==> StringLe(a.table, b.table)
      ensures le(a, b) && a.table == b.table ==> StringLe(render(a.businessKey), render(b.businessKey))
    {
      StringFacts(a.table, b.table, "");
      StringFacts(render(a.businessKey), render(b.businessKey), "");
    }
    forall a, b, c | le(a, b) && le(b, c) ensures le(a, c) {
      StringFacts(a.table, b.table, c.table);
      StringFacts(b.table, c.table, a.table);
      StringFacts(render(a.businessKey), render(b.businessKey), render(c.businessKey));
      StringFacts(render(b.businessKey), render(c.businessKey), render(a.businessKey));
    }
    SortSorted(events, le);
    SortPermutes(events, le);
    hide Sort, BatchLe;
    var cs := Chosen(events, true, render);
    forall i, j | 0 <= i < j < |cs| ensures le(cs[i], cs[j]) {}
  }

  lemma StringFacts(a: string, b: string, c: string)
    ensures StringLe(a, b) || StringLe(b, a)
    ensures StringLe(a, a)
    ensures StringLe(a, b) && StringLe(b, a) ==> a == b
    ensures StringLe(a, b) && StringLe(b, c) ==> StringLe(a, c)
  {
    StringLeTotalPreorder();
  }
}
