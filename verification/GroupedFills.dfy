/** An aggregate view over a table that has rows when the view is registered: keys are filled from SQLite, but the
    operator's statistics start from nothing and count only what it hears of. */
module GroupedFills {
  import opened Values
  import opened ZSets
  import opened MemoryStates
  import opened Aggregates
  import A = SqlAggregates
  import U = Upqueries

  // ---------------------------------------------------------------------------
  // One group
  // ---------------------------------------------------------------------------

  /** The row of a group with these statistics. */
  function RowOf(op: AggregateOp, key: Row, g: Group): Row
    requires g.count > 0
  {
    key + [Shown(op, g)]
  }

  function RowsOf(op: AggregateOp, key: Row, g: Group): seq<Row> {
    if g.count > 0 then [RowOf(op, key, g)] else []
  }

  /** The operator retracts what is stored: `h` is what it has heard of the group, `a` what the group has. */
  predicate Retracts(op: AggregateOp, a: Group, h: Group) {
    a.count > 0 && h.count > 0 && Shown(op, h) == Shown(op, a)
  }

  /** What a key holds after the operator's records, with statistics `h` before and `h'` after. */
  function Remaining(op: AggregateOp, key: Row, filled: bool, a: Group, h: Group, h': Group): seq<Row> {
    Kept(op, key, filled, a, h) + RowsOf(op, key, h')
  }

  /** The key is right afterwards, or a hole: a row the operator does not retract must be the new one too, and it
      must emit nothing; otherwise what it emits, if anything, must be the group's row. */
  predicate Unharmed(op: AggregateOp, filled: bool, a: Group, a': Group, h: Group, h': Group) {
    if filled && !Retracts(op, a, h) then
      h'.count <= 0 && a.count > 0 && a'.count > 0 && Shown(op, a) == Shown(op, a')
    else
      h'.count > 0 ==> a'.count > 0 && Shown(op, h') == Shown(op, a')
  }

  lemma RemainingIsRight(op: AggregateOp, key: Row, filled: bool, a: Group, a': Group, h: Group, h': Group)
    requires filled ==> a.count > 0
    ensures var left := Remaining(op, key, filled, a, h, h');
            left == [] || multiset(left) == multiset(RowsOf(op, key, a')) <==> Unharmed(op, filled, a, a', h, h')
  {
    var left, wanted := Remaining(op, key, filled, a, h, h'), RowsOf(op, key, a');
    assert |multiset(left)| == |left| && |multiset(wanted)| == |wanted|;
    if |left| == 1 && |wanted| == 1 {
      assert multiset(left)[left[0]] == 1;
      assert multiset(left) == multiset(wanted) <==> left[0] == wanted[0];
      assert left[0][|key|] == wanted[0][|key|] <==> left[0] == wanted[0];
    }
  }

  lemma KeyOfRow(op: AggregateOp, s: MemoryState, key: Row, g: Group)
    requires g.count > 0 && |key| == 1 && s.keyColumns == [0]
    ensures KeyOf(s, RowOf(op, key, g)) == key
  {
    A.FirstColumn(RowOf(op, key, g), key[0]);
  }

  /** A row that is not there is not taken away: values shown are never NULL. */
  lemma RetractOne(op: AggregateOp, s: MemoryState, key: Row, a: Group, h: Group)
    requires h.count > 0 && |key| == 1 && s.keyColumns == [0] && Valid(s)
    requires key in s.data ==> a.count > 0 && s.data[key] == [RowOf(op, key, a)]
    ensures Step(s, Negative(RowOf(op, key, h))).data == if Retracts(op, a, h) then s.data - {key} else s.data
    ensures Valid(Step(s, Negative(RowOf(op, key, h))))
  {
    var x := RowOf(op, key, h);
    KeyOfRow(op, s, key, h);
    if key in s.data {
      var y := RowOf(op, key, a);
      assert x[1] == Shown(op, h) && y[1] == Shown(op, a) && x[1] != Null;
      assert Retracts(op, a, h) <==> x == y;
      assert x in s.data[key] <==> x == y;
      if x == y {
        assert RemoveAt([y], 0) == [];
      } else {
        assert !MatchesWithNulls(y, x);
        assert s.data[key := s.data[key]] == s.data;
      }
    } else {
      assert s.data - {key} == s.data;
    }
  }

  lemma EmitOne(op: AggregateOp, s: MemoryState, key: Row, g: Group)
    requires g.count > 0 && |key| == 1 && s.keyColumns == [0] && Valid(s)
    ensures Step(s, Positive(RowOf(op, key, g))).data == s.data[key := U.Under(s, key) + [RowOf(op, key, g)]]
    ensures Valid(Step(s, Positive(RowOf(op, key, g))))
  {
    KeyOfRow(op, s, key, g);
    InsertCounts(s, RowOf(op, key, g));
  }

  function Held(data: map<Row, seq<Row>>, key: Row, rows: seq<Row>): map<Row, seq<Row>> {
    if rows == [] then data - {key} else data[key := rows]
  }

  lemma StepsOne(s: MemoryState, rec: Record)
    ensures Steps(s, [rec]) == Step(s, rec)
  {
    assert [rec][..0] == [];
  }

  lemma {:induction false} StepsBoth(s: MemoryState, a: seq<Record>, b: seq<Record>)
    ensures Steps(s, a + b) == Steps(Steps(s, a), b)
    decreases |b|
  {
    if b == [] {
      assert a + b == a;
    } else {
      assert (a + b)[..|a + b| - 1] == a + b[..|b| - 1];
      StepsBoth(s, a, b[..|b| - 1]);
    }
  }

  function Kept(op: AggregateOp, key: Row, filled: bool, a: Group, h: Group): seq<Row> {
    if filled && !Retracts(op, a, h) then RowsOf(op, key, a) else []
  }

  lemma RetractStep(op: AggregateOp, s: MemoryState, key: Row, a: Group, h: Group)
    requires |key| == 1 && s.keyColumns == [0] && Valid(s)
    requires key in s.data ==> a.count > 0 && s.data[key] == [RowOf(op, key, a)]
    ensures var s' := Steps(s, Retracted(op, key, h));
            Valid(s') && s'.data == Held(s.data, key, Kept(op, key, key in s.data, a, h))
  {
    if h.count > 0 {
      StepsOne(s, Negative(RowOf(op, key, h)));
      RetractOne(op, s, key, a, h);
    }
    if key in s.data { assert s.data[key := s.data[key]] == s.data; } else { assert s.data - {key} == s.data; }
  }

  lemma EmitStep(op: AggregateOp, s: MemoryState, key: Row, g: Group)
    requires |key| == 1 && s.keyColumns == [0] && Valid(s)
    ensures var s' := Steps(s, Emission(op, key, g));
            Valid(s') && s'.data == Held(s.data, key, U.Under(s, key) + RowsOf(op, key, g))
  {
    if g.count > 0 {
      StepsOne(s, Positive(RowOf(op, key, g)));
      EmitOne(op, s, key, g);
    } else if key in s.data {
      assert U.Under(s, key) + RowsOf(op, key, g) == s.data[key] && s.data[key := s.data[key]] == s.data;
    } else {
      assert s.data - {key} == s.data;
    }
  }

  /** What the operator sends for a group does to the view. */
  lemma GroupStep(op: AggregateOp, s: MemoryState, key: Row, a: Group, h: Group, h': Group)
    requires |key| == 1 && s.keyColumns == [0] && Valid(s)
    requires key in s.data ==> a.count > 0 && s.data[key] == [RowOf(op, key, a)]
    ensures var s' := Steps(s, GroupOutput(op, key, h, h'));
            Valid(s') && s'.data == Held(s.data, key, Remaining(op, key, key in s.data, a, h, h'))
  {
    var s1 := Steps(s, Retracted(op, key, h));
    StepsBoth(s, Retracted(op, key, h), Emission(op, key, h'));
    RetractStep(op, s, key, a, h);
    EmitStep(op, s1, key, h');
    HeldTwice(s.data, key, Kept(op, key, key in s.data, a, h), RowsOf(op, key, h'));
  }

  lemma HeldTwice(data: map<Row, seq<Row>>, key: Row, kept: seq<Row>, more: seq<Row>)
    ensures var data1 := Held(data, key, kept);
            && (if key in data1 then data1[key] else []) == kept
            && Held(data1, key, kept + more) == Held(data, key, kept + more)
  {
  }

  // ---------------------------------------------------------------------------
  // A batch, group by group
  // ---------------------------------------------------------------------------

  /** A grouped view has at most one row under a key. */
  lemma WantedRows(op: AggregateOp, s: MemoryState, rows: seq<Row>, key: Row)
    requires |op.groupBy| == 1 && s.keyColumns == [0] && |key| == 1
    ensures U.Wanted(s, AggregateRows(op, rows), key) == RowsOf(op, key, GroupStats(op, rows, key))
  {
    var g := GroupStats(op, rows, key);
    assert key == [key[0]];
    A.UnderKey(op, rows, key[0]);
    if g.count > 0 { assert RowOf(op, key, g) == [key[0], Shown(op, g)]; }
  }

  /** A filled key holds the one row of its group. */
  lemma StoredRow(op: AggregateOp, s: MemoryState, before: seq<Row>, key: Row)
    requires |op.groupBy| == 1 && s.keyColumns == [0] && U.Partly(s, AggregateRows(op, before)) && key in s.data
    ensures var a := GroupStats(op, before, key);
            |key| == 1 && a.count > 0 && s.data[key] == [RowOf(op, key, a)]
  {
    assert KeyOf(s, s.data[key][0]) == key && |key| == 1;
    WantedRows(op, s, before, key);
    assert U.FilledWith(s, AggregateRows(op, before), key);
    OnlyRow(s.data[key], U.Wanted(s, AggregateRows(op, before), key));
  }

  lemma OnlyRow(stored: seq<Row>, wanted: seq<Row>)
    requires multiset(stored) == multiset(wanted) && stored != [] && |wanted| <= 1
    ensures stored == wanted
  {
    assert |multiset(stored)| == |stored| && |multiset(wanted)| == |wanted|;
    assert stored[0] in multiset(wanted);
  }

  /** The rows under a key once the operator has sent what it has for it. */
  ghost function Left(op: AggregateOp, add: Combiner, groups: map<Row, Group>, s: MemoryState, before: seq<Row>,
                      changes: map<Row, Group>, k: Row): seq<Row>
  {
    var h := Known(groups, k);
    Remaining(op, k, k in s.data, GroupStats(op, before, k), h, add(h, Known(changes, k)))
  }

  ghost function LeftUnder(op: AggregateOp, add: Combiner, groups: map<Row, Group>, s: MemoryState, before: seq<Row>,
                           changes: map<Row, Group>): Row -> seq<Row>
  {
    k => Left(op, add, groups, s, before, changes, k)
  }

  /** The keys of `order` hold what is left under them, the others what they did. */
  ghost predicate SoFar(s: MemoryState, order: seq<Row>, left: Row -> seq<Row>, s': MemoryState) {
    && Valid(s') && s'.keyColumns == s.keyColumns
    && forall k :: U.Under(s', k) == if k in order then left(k) else U.Under(s, k)
  }

  lemma NextKey(s: MemoryState, init: seq<Row>, left: Row -> seq<Row>, s1: MemoryState, key: Row, s2: MemoryState)
    requires SoFar(s, init, left, s1) && Valid(s2) && s2.keyColumns == s.keyColumns
    requires s2.data == Held(s1.data, key, left(key))
    ensures SoFar(s, init + [key], left, s2)
  {
    forall k ensures U.Under(s2, k) == if k in init + [key] then left(k) else U.Under(s, k) {
      HeldUnder(s1, key, left(key), s2, k);
    }
  }

  lemma HeldUnder(s: MemoryState, key: Row, rows: seq<Row>, s': MemoryState, k: Row)
    requires s'.data == Held(s.data, key, rows)
    ensures U.Under(s', k) == if k == key then rows else U.Under(s, k)
  {
  }

  lemma {:induction false} GroupByGroup(op: AggregateOp, add: Combiner, groups: map<Row, Group>, s: MemoryState,
                                        before: seq<Row>, changes: map<Row, Group>, order: seq<Row>)
    requires |op.groupBy| == 1 && s.keyColumns == [0] && U.Partly(s, AggregateRows(op, before)) && Live(groups)
    requires Distinct(order) && forall i :: 0 <= i < |order| ==> |order[i]| == 1
    ensures SoFar(s, order, LeftUnder(op, add, groups, s, before, changes),
                  Steps(s, Outputs(op, add, groups, changes, order)))
  {
    if order != [] {
      var init, key, left := order[..|order| - 1], order[|order| - 1], LeftUnder(op, add, groups, s, before, changes);
      assert order == init + [key];
      GroupByGroup(op, add, groups, s, before, changes, init);
      RegroupAt(add, groups, changes, init, key);
      var s1, h := Steps(s, Outputs(op, add, groups, changes, init)), Known(groups, key);
      var h' := add(h, Known(changes, key));
      StepsBoth(s, Outputs(op, add, groups, changes, init), GroupOutput(op, key, h, h'));
      assert U.Under(s1, key) == U.Under(s, key);
      if key in s.data { StoredRow(op, s, before, key); }
      GroupStep(op, s1, key, GroupStats(op, before, key), h, h');
      NextKey(s, init, left, s1, key, Steps(s1, GroupOutput(op, key, h, h')));
    }
  }

  ghost predicate GroupUnharmed(op: AggregateOp, add: Combiner, groups: map<Row, Group>, s: MemoryState,
                                before: seq<Row>, after: seq<Row>, changes: map<Row, Group>, k: Row)
  {
    var h := Known(groups, k);
    Unharmed(op, k in s.data, GroupStats(op, before, k), GroupStats(op, after, k), h, add(h, Known(changes, k)))
  }

  lemma ChangedKey(op: AggregateOp, add: Combiner, groups: map<Row, Group>, s: MemoryState, before: seq<Row>,
                   after: seq<Row>, changes: map<Row, Group>, order: seq<Row>, s': MemoryState, k: Row)
    requires |op.groupBy| == 1 && s.keyColumns == [0] && U.Partly(s, AggregateRows(op, before))
    requires SoFar(s, order, LeftUnder(op, add, groups, s, before, changes), s') && k in order && |k| == 1
    ensures (k in s'.data ==> U.FilledWith(s', AggregateRows(op, after), k)) <==>
            GroupUnharmed(op, add, groups, s, before, after, changes, k)
  {
    var a, a', h := GroupStats(op, before, k), GroupStats(op, after, k), Known(groups, k);
    var h' := add(h, Known(changes, k));
    if k in s.data { StoredRow(op, s, before, k); }
    RemainingIsRight(op, k, k in s.data, a, a', h, h');
    assert U.Under(s', k) == Remaining(op, k, k in s.data, a, h, h');
    WantedRows(op, s', after, k);
  }

  lemma OtherKey(op: AggregateOp, add: Combiner, groups: map<Row, Group>, s: MemoryState, before: seq<Row>,
                 d: seq<Record>, after: seq<Row>, order: seq<Row>, s': MemoryState, k: Row)
    requires |op.groupBy| == 1 && s.keyColumns == [0] && U.Partly(s, AggregateRows(op, before))
    requires SoFar(s, order, LeftUnder(op, add, groups, s, before, Changes(op, d)), s') && k !in order && k in s'.data
    requires Moves(before, d, after) && k !in Changes(op, d)
    ensures U.FilledWith(s', AggregateRows(op, after), k)
  {
    assert U.Under(s', k) == U.Under(s, k) && k in s.data;
    StoredRow(op, s, before, k);
    ChangesAreStats(op, d, k);
    StatsMove(op, before, d, after, k);
    WantedRows(op, s, before, k);
    WantedRows(op, s', after, k);
    assert U.FilledWith(s, AggregateRows(op, before), k);
  }

  /** Any batch, whatever the operator has heard of the groups before: every filled key is right afterwards exactly
      when no group of the batch is harmed. */
  lemma AnyBatch(op: AggregateOp, groups: map<Row, Group>, s: MemoryState, before: seq<Row>, d: seq<Record>,
                 after: seq<Row>, order: seq<Row>)
    requires |op.groupBy| == 1 && s.keyColumns == [0] && U.Partly(s, AggregateRows(op, before)) && Live(groups)
    requires Moves(before, d, after) && Distinct(order) && forall k :: k in order <==> k in Changes(op, d)
    ensures var changes := Changes(op, d);
            U.Partly(Steps(s, Outputs(op, Adder(), groups, changes, order)), AggregateRows(op, after)) <==>
            forall k :: k in changes ==> GroupUnharmed(op, Adder(), groups, s, before, after, changes, k)
  {
    var changes := Changes(op, d);
    forall k | k in changes ensures |k| == 1 { ChangesAreStats(op, d, k); }
    forall i | 0 <= i < |order| ensures |order[i]| == 1 { assert order[i] in order; }
    GroupByGroup(op, Adder(), groups, s, before, changes, order);
    var s' := Steps(s, Outputs(op, Adder(), groups, changes, order));
    forall k | k in changes
      ensures (k in s'.data ==> U.FilledWith(s', AggregateRows(op, after), k)) <==>
              GroupUnharmed(op, Adder(), groups, s, before, after, changes, k)
    {
      ChangedKey(op, Adder(), groups, s, before, after, changes, order, s', k);
    }
    forall k | k !in changes && k in s'.data ensures U.FilledWith(s', AggregateRows(op, after), k) {
      OtherKey(op, Adder(), groups, s, before, d, after, order, s', k);
    }
  }

  // ---------------------------------------------------------------------------
  // What that means
  // ---------------------------------------------------------------------------

  lemma FirstHarm(op: AggregateOp, filled: bool, a: Group, a': Group, h: Group, h': Group)
    requires h.count == 0 && h'.count > 0 && a'.count > 0
    ensures Unharmed(op, filled, a, a', h, h') <==> !filled && Shown(op, h') == Shown(op, a')
  {
  }

  lemma OutputsOfOne(op: AggregateOp, add: Combiner, groups: map<Row, Group>, changes: map<Row, Group>,
                     order: seq<Row>)
    requires |order| == 1
    ensures Outputs(op, add, groups, changes, order) == StepOutput(op, add, groups, changes, order[0])
  {
    assert order[..0] == [];
  }

  lemma ChangesOfOne(op: AggregateOp, records: seq<Record>)
    requires |records| == 1
    ensures var changes, key := Changes(op, records), GroupOf(op, records[0].row);
            changes.Keys == {key} && changes[key] == Effect(op, records[0])
  {
    assert records[..0] == [];
  }

  lemma OnlyOne(order: seq<Row>, key: Row)
    requires Distinct(order) && forall k :: k in order <==> k == key
    ensures order == [key]
  {
    assert key in order;
    forall i | 0 <= i < |order| ensures order[i] == key { assert order[i] in order; }
    assert order[0] == order[|order| - 1];
  }

  /** An operator that has heard of other groups only sends what one that has heard of none does. */
  lemma AsIfNew(op: AggregateOp, add: Combiner, groups: map<Row, Group>, changes: map<Row, Group>, order: seq<Row>,
                key: Row)
    requires key !in groups && changes.Keys == {key}
    requires Distinct(order) && forall k :: k in order <==> k in changes
    ensures Outputs(op, add, groups, changes, order) == Outputs(op, add, map[], changes, order)
  {
    OnlyOne(order, key);
    OutputsOfOne(op, add, groups, changes, order);
    OutputsOfOne(op, add, map[], changes, order);
  }

  /** The first insert of a group that the operator hears of, over a table with rows: the view is right about its
      filled keys afterwards exactly when the group was not filled and one row shows what the whole group does. */
  lemma FirstInsert(op: AggregateOp, groups: map<Row, Group>, s: MemoryState, before: seq<Row>, row: Row,
                    records: seq<Record>, order: seq<Row>)
    requires |op.groupBy| == 1 && s.keyColumns == [0] && U.Partly(s, AggregateRows(op, before))
    requires GroupOf(op, row) !in groups && records == [Positive(row)]
    requires Distinct(order) && forall k :: k in order <==> k in Changes(op, records)
    ensures var key, out := GroupOf(op, row), Outputs(op, Adder(), groups, Changes(op, records), order);
            U.Partly(Steps(s, out), AggregateRows(op, before + [row])) <==>
            && key !in s.data
            && GroupCount(op, before + [row], key) > 0
            && Shown(op, Effect(op, records[0])) == Shown(op, GroupStats(op, before + [row], key))
  {
    ChangesOfOne(op, records);
    AsIfNew(op, Adder(), groups, Changes(op, records), order, GroupOf(op, row));
    FirstBatch(op, s, before, row, records, order);
  }

  lemma FirstBatch(op: AggregateOp, s: MemoryState, before: seq<Row>, row: Row, records: seq<Record>, order: seq<Row>)
    requires |op.groupBy| == 1 && s.keyColumns == [0] && U.Partly(s, AggregateRows(op, before))
    requires records == [Positive(row)] && Distinct(order) && forall k :: k in order <==> k in Changes(op, records)
    ensures var key, out := GroupOf(op, row), Outputs(op, Adder(), map[], Changes(op, records), order);
            && GroupCount(op, before + [row], key) > 0
            && (U.Partly(Steps(s, out), AggregateRows(op, before + [row])) <==>
                key !in s.data && Shown(op, Effect(op, records[0])) == Shown(op, GroupStats(op, before + [row], key)))
  {
    var key, g := GroupOf(op, row), Effect(op, records[0]);
    ChangesOfOne(op, records);
    assert records == Plus([row]);
    InsertsMove(before, [row]);
    FirstGroup(op, s, before, row, records, Known(map[], key), g);
    OneGroup(op, map[], s, before, records, before + [row], order, key,
             key !in s.data && Shown(op, g) == Shown(op, GroupStats(op, before + [row], key)));
  }

  /** A batch of one group. */
  lemma OneGroup(op: AggregateOp, groups: map<Row, Group>, s: MemoryState, before: seq<Row>, d: seq<Record>,
                 after: seq<Row>, order: seq<Row>, key: Row, ok: bool)
    requires |op.groupBy| == 1 && s.keyColumns == [0] && U.Partly(s, AggregateRows(op, before)) && Live(groups)
    requires Moves(before, d, after) && Distinct(order) && forall k :: k in order <==> k in Changes(op, d)
    requires Changes(op, d).Keys == {key}
    requires GroupUnharmed(op, Adder(), groups, s, before, after, Changes(op, d), key) <==> ok
    ensures U.Partly(Steps(s, Outputs(op, Adder(), groups, Changes(op, d), order)), AggregateRows(op, after)) <==> ok
  {
    AnyBatch(op, groups, s, before, d, after, order);
    assert key in Changes(op, d);
  }

  lemma FirstGroup(op: AggregateOp, s: MemoryState, before: seq<Row>, row: Row, records: seq<Record>, h: Group,
                   g: Group)
    requires |records| == 1 && records[0] == Positive(row) && Moves(before, records, before + [row])
    requires var changes, key := Changes(op, records), GroupOf(op, row);
             changes.Keys == {key} && h == Known(map[], key) && g == Known(changes, key) == Effect(op, records[0])
    ensures var changes, key, after := Changes(op, records), GroupOf(op, row), before + [row];
            && GroupCount(op, after, key) > 0
            && (GroupUnharmed(op, Adder(), map[], s, before, after, changes, key) <==>
                key !in s.data && Shown(op, g) == Shown(op, GroupStats(op, after, key)))
  {
    var key, after := GroupOf(op, row), before + [row];
    StatsMove(op, before, records, after, key);
    ChangesAreStats(op, records, key);
    FirstHarm(op, key in s.data, GroupStats(op, before, key), GroupStats(op, after, key), h, g);
    assert Adder()(h, g) == g;
  }

  /** More rows of a counted group do no harm exactly when the operator has heard of all its rows. */
  lemma CountHeard(op: AggregateOp, filled: bool, a: Group, h: Group, g: Group)
    requires op.func.Count? && g.count > 0 && h.count >= 0 && a.count >= 0 && (filled ==> a.count > 0)
    ensures Unharmed(op, filled, a, Added(a, g), h, Added(h, g)) <==> h.count == a.count
  {
  }

  lemma {:induction false} InsertsCount(op: AggregateOp, rows: seq<Row>, k: Row)
    ensures k in Changes(op, Plus(rows)) ==> Changes(op, Plus(rows))[k].count > 0
  {
    if rows != [] {
      var front := rows[..|rows| - 1];
      assert Plus(rows)[..|rows| - 1] == Plus(front);
      InsertsCount(op, front, k);
    }
  }

  lemma InsertsMove(before: seq<Row>, rows: seq<Row>)
    ensures Moves(before, Plus(rows), before + rows)
  {
    assert Plus(before + rows) == Plus(before) + Plus(rows);
  }

  /** Rows inserted under a COUNT that was filled from SQLite: it stays right for all filled groups exactly when the
      operator had heard of every row of each group that gets more. */
  lemma CountsStayRight(op: AggregateOp, groups: map<Row, Group>, s: MemoryState, before: seq<Row>, rows: seq<Row>,
                        order: seq<Row>)
    requires |op.groupBy| == 1 && s.keyColumns == [0] && U.Partly(s, AggregateRows(op, before)) && Live(groups)
    requires op.func.Count? && Distinct(order) && forall k :: k in order <==> k in Changes(op, Plus(rows))
    ensures var changes := Changes(op, Plus(rows));
            U.Partly(Steps(s, Outputs(op, Adder(), groups, changes, order)), AggregateRows(op, before + rows)) <==>
            forall k :: k in changes ==> Known(groups, k).count == GroupCount(op, before, k)
  {
    var d, after := Plus(rows), before + rows;
    InsertsMove(before, rows);
    AnyBatch(op, groups, s, before, d, after, order);
    forall k | k in Changes(op, d)
      ensures GroupUnharmed(op, Adder(), groups, s, before, after, Changes(op, d), k) <==>
              Known(groups, k).count == GroupCount(op, before, k)
    {
      CountedGroup(op, groups, s, before, d, after, k, Known(groups, k), Known(Changes(op, d), k));
      InsertsCount(op, rows, k);
    }
  }

  lemma CountedGroup(op: AggregateOp, groups: map<Row, Group>, s: MemoryState, before: seq<Row>, d: seq<Record>,
                     after: seq<Row>, k: Row, h: Group, g: Group)
    requires |op.groupBy| == 1 && s.keyColumns == [0] && U.Partly(s, AggregateRows(op, before)) && Live(groups)
    requires Moves(before, d, after) && op.func.Count? && k in Changes(op, d)
    requires h == Known(groups, k) && g == Known(Changes(op, d), k)
    ensures g.count > 0 ==>
              (GroupUnharmed(op, Adder(), groups, s, before, after, Changes(op, d), k) <==>
               h.count == GroupCount(op, before, k))
  {
    ChangesAreStats(op, d, k);
    StatsMove(op, before, d, after, k);
    if k in s.data { StoredRow(op, s, before, k); }
    if g.count > 0 { CountHeard(op, k in s.data, GroupStats(op, before, k), h, g); }
  }
}
