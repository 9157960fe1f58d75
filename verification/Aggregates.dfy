/** The grouping operator: running counts and sums per group against the aggregate they maintain. */
module Aggregates {
  import opened Values
  import opened ZSets

  datatype AggregateFunc = Count | Sum(col: nat) | Avg(col: nat) | Min(col: nat) | Max(col: nat)

  datatype AggregateOp = AggregateOp(groupBy: seq<nat>, func: AggregateFunc)

  datatype Group = Group(count: int, sum: int)

  /** Integer division as Rust does it, towards zero, by repeated subtraction. */
  function DivTowardZero(a: int, b: int): (q: int)
    requires b > 0
    decreases if a < 0 then -a else a
  {
    if a >= b then 1 + DivTowardZero(a - b, b)
    else if a <= -b then DivTowardZero(a + b, b) - 1
    else 0
  }

  function Contribution(op: AggregateOp, row: Row): int {
    match op.func
    case Sum(c) => if Column(row, c).Integer? then Column(row, c).n else 0
    case Avg(c) => if Column(row, c).Integer? then Column(row, c).n else 0
    case _ => 0
  }

  /** The aggregate column of a group with at least one row. MIN and MAX show the sum. */
  function Shown(op: AggregateOp, g: Group): Value
    requires g.count > 0
  {
    match op.func
    case Count => Integer(g.count)
    case Sum(_) => Integer(g.sum)
    case Avg(_) => Integer(DivTowardZero(g.sum, g.count))
    case Min(_) => Integer(g.sum)
    case Max(_) => Integer(g.sum)
  }

  function GroupOf(op: AggregateOp, row: Row): (g: Row)
    ensures |g| == |op.groupBy|
  {
    Columns(row, op.groupBy)
  }

  ghost function InGroup(op: AggregateOp, key: Row): Row -> int {
    x => if GroupOf(op, x) == key then 1 else 0
  }

  ghost function SumInGroup(op: AggregateOp, key: Row): Row -> int {
    x => if GroupOf(op, x) == key then Contribution(op, x) else 0
  }

  /** Row count and sum a delta (or a table) gives a group. */
  ghost function Stats(op: AggregateOp, h: seq<Record>, key: Row): Group {
    Group(Total(h, InGroup(op, key)), Total(h, SumInGroup(op, key)))
  }

  /** Statistics of a group; an unknown group counts nothing. */
  function Known(groups: map<Row, Group>, key: Row): Group {
    Group(if key in groups then groups[key].count else 0, if key in groups then groups[key].sum else 0)
  }

  function Added(a: Group, b: Group): Group {
    Group(a.count + b.count, a.sum + b.sum)
  }

  /** 1 if `r` is the output row of a group with statistics `g`, else 0. */
  function Shows(op: AggregateOp, g: Group, r: Row): int {
    if |r| == |op.groupBy| + 1 && g.count > 0 && r[|op.groupBy|] == Shown(op, g) then 1 else 0
  }

  function GroupPart(op: AggregateOp, r: Row): Row {
    if |r| <= |op.groupBy| then r else r[..|op.groupBy|]
  }

  // ---------------------------------------------------------------------------
  // Processing a delta
  // ---------------------------------------------------------------------------

  /** What one record adds to its group. */
  function Effect(op: AggregateOp, rec: Record): Group {
    var value := Contribution(op, rec.row);
    if rec.Positive? then Group(1, value) else Group(-1, -value)
  }

  /** Net change per group touched by the delta. */
  function Changes(op: AggregateOp, records: seq<Record>): map<Row, Group> {
    if records == [] then map[]
    else AddTo(Changes(op, records[..|records| - 1]), GroupOf(op, records[|records| - 1].row),
               Effect(op, records[|records| - 1]))
  }

  function AddTo(changes: map<Row, Group>, key: Row, g: Group): map<Row, Group> {
    changes[key := if key in changes then Added(changes[key], g) else g]
  }

  /** First loop of `process`. */
  method GroupChanges(op: AggregateOp, records: seq<Record>) returns (changes: map<Row, Group>)
    ensures changes == Changes(op, records)
  {
    changes := map[];
    for n := 0 to |records|
      invariant changes == Changes(op, records[..n])
    {
      assert records[..n + 1][..n] == records[..n];
      changes := AddTo(changes, GroupOf(op, records[n].row), Effect(op, records[n]));
    }
    assert records[..|records|] == records;
  }

  lemma StatsNext(op: AggregateOp, records: seq<Record>, key: Row)
    requires records != []
    ensures var init, last := records[..|records| - 1], records[|records| - 1];
            Stats(op, records, key) ==
            if GroupOf(op, last.row) == key then Added(Stats(op, init, key), Effect(op, last)) else Stats(op, init, key)
  {
  }

  lemma KnownAddTo(changes: map<Row, Group>, key: Row, g: Group, k: Row)
    ensures Known(AddTo(changes, key, g), k) == if k == key then Added(Known(changes, k), g) else Known(changes, k)
  {
  }

  lemma {:induction false} ChangesAreStats(op: AggregateOp, records: seq<Record>, key: Row)
    ensures Known(Changes(op, records), key) == Stats(op, records, key)
    ensures key in Changes(op, records) ==> |key| == |op.groupBy|
  {
    if records != [] {
      var init, last := records[..|records| - 1], records[|records| - 1];
      ChangesAreStats(op, init, key);
      StatsNext(op, records, key);
      KnownAddTo(Changes(op, init), GroupOf(op, last.row), Effect(op, last), key);
    }
  }

  function Retracted(op: AggregateOp, key: Row, g: Group): seq<Record> {
    if g.count > 0 then [Negative(key + [Shown(op, g)])] else []
  }

  function Emission(op: AggregateOp, key: Row, g: Group): seq<Record> {
    if g.count > 0 then [Positive(key + [Shown(op, g)])] else []
  }

  /** Retract the group's old output row, emit the new one. */
  function GroupOutput(op: AggregateOp, key: Row, g: Group, g': Group): seq<Record> {
    Retracted(op, key, g) + Emission(op, key, g')
  }

  function SetGroup(groups: map<Row, Group>, key: Row, g: Group): map<Row, Group> {
    if g.count > 0 then groups[key := g] else groups - {key}
  }

  /** A group that has lost its rows counts nothing. */
  function Clamp(g: Group): Group {
    Group(if g.count > 0 then g.count else 0, if g.count > 0 then g.sum else 0)
  }

  /** How statistics combine; a parameter below, so that only its name matters there. */
  type Combiner = (Group, Group) -> Group

  function Adder(): Combiner {
    (a, b) => Added(a, b)
  }

  /** One group of the second loop: its statistics and its output rows move together. */
  function StepGroup(add: Combiner, groups: map<Row, Group>, changes: map<Row, Group>, key: Row): map<Row, Group> {
    SetGroup(groups, key, add(Known(groups, key), Known(changes, key)))
  }

  function StepOutput(op: AggregateOp, add: Combiner, groups: map<Row, Group>, changes: map<Row, Group>,
                      key: Row): seq<Record>
  {
    GroupOutput(op, key, Known(groups, key), add(Known(groups, key), Known(changes, key)))
  }

  /** The statistics after handling the groups of `order` one after the other. */
  function Regroup(add: Combiner, groups: map<Row, Group>, changes: map<Row, Group>, order: seq<Row>): map<Row, Group> {
    if order == [] then groups
    else StepGroup(add, Regroup(add, groups, changes, order[..|order| - 1]), changes, order[|order| - 1])
  }

  /** The records emitted on the way. */
  function Outputs(op: AggregateOp, add: Combiner, groups: map<Row, Group>, changes: map<Row, Group>,
                   order: seq<Row>): seq<Record>
  {
    if order == [] then []
    else Outputs(op, add, groups, changes, order[..|order| - 1]) +
         StepOutput(op, add, Regroup(add, groups, changes, order[..|order| - 1]), changes, order[|order| - 1])
  }

  ghost predicate Distinct(order: seq<Row>) {
    forall i, j :: 0 <= i < j < |order| ==> order[i] != order[j]
  }

  method UpdateGroup(op: AggregateOp, add: Combiner, groups: map<Row, Group>, changes: map<Row, Group>, key: Row)
    returns (results: seq<Record>, groups': map<Row, Group>)
    ensures results == StepOutput(op, add, groups, changes, key)
    ensures groups' == StepGroup(add, groups, changes, key)
  {
    var g, change := Known(groups, key), Known(changes, key);
    var g' := add(g, change);
    results := [];
    if g.count > 0 {
      results := results + [Negative(key + [Shown(op, g)])];
    }
    if g'.count > 0 {
      results := results + [Positive(key + [Shown(op, g')])];
    }
    groups' := if g'.count > 0 then groups[key := g'] else groups - {key};
  }

  lemma OrderNext(op: AggregateOp, add: Combiner, groups: map<Row, Group>, changes: map<Row, Group>, order: seq<Row>,
                  key: Row)
    ensures Regroup(add, groups, changes, order + [key]) ==
            StepGroup(add, Regroup(add, groups, changes, order), changes, key)
    ensures Outputs(op, add, groups, changes, order + [key]) ==
            Outputs(op, add, groups, changes, order) +
            StepOutput(op, add, Regroup(add, groups, changes, order), changes, key)
  {
  }

  /** `process`: handles the changed groups in whatever `order` the hash map yields them. */
  method ProcessAggregate(op: AggregateOp, groups: map<Row, Group>, records: seq<Record>)
    returns (results: seq<Record>, groups': map<Row, Group>, order: seq<Row>)
    ensures Distinct(order) && (forall key :: key in order <==> key in Changes(op, records))
    ensures results == Outputs(op, Adder(), groups, Changes(op, records), order)
    ensures groups' == Regroup(Adder(), groups, Changes(op, records), order)
  {
    var add := Adder();
    var changes := GroupChanges(op, records);
    var todo := changes.Keys;
    results, groups', order := [], groups, [];
    while todo != {}
      invariant Distinct(order) && forall key :: key in order <==> key in changes.Keys && key !in todo
      invariant todo <= changes.Keys
      invariant results == Outputs(op, add, groups, changes, order)
      invariant groups' == Regroup(add, groups, changes, order)
      decreases |todo|
    {
      var key :| key in todo;
      var emitted;
      emitted, groups' := UpdateGroup(op, add, groups', changes, key);
      results := results + emitted;
      OrderNext(op, add, groups, changes, order, key);
      todo := todo - {key};
      order := order + [key];
    }
  }

  // ---------------------------------------------------------------------------
  // What was emitted
  // ---------------------------------------------------------------------------

  /** Only groups with rows are kept. */
  ghost predicate Live(groups: map<Row, Group>) {
    forall key :: key in groups ==> groups[key].count > 0
  }

  lemma KnownSet(groups: map<Row, Group>, key: Row, g: Group, k: Row)
    requires Live(groups)
    ensures Live(SetGroup(groups, key, g))
    ensures Known(SetGroup(groups, key, g), k) ==
            if k != key then Known(groups, k) else Clamp(g)
  {
  }

  lemma {:induction false} RegroupAt(add: Combiner, groups: map<Row, Group>, changes: map<Row, Group>,
                                     order: seq<Row>, key: Row)
    requires Live(groups) && Distinct(order)
    ensures Live(Regroup(add, groups, changes, order))
    ensures Known(Regroup(add, groups, changes, order), key) ==
            if key !in order then Known(groups, key)
            else Clamp(add(Known(groups, key), Known(changes, key)))
  {
    if order != [] {
      var init, last := order[..|order| - 1], order[|order| - 1];
      assert order == init + [last];
      RegroupAt(add, groups, changes, init, key);
      var rest := Regroup(add, groups, changes, init);
      KnownSet(rest, last, add(Known(rest, last), Known(changes, last)), key);
    }
  }

  lemma NetGroupOutput(op: AggregateOp, key: Row, g: Group, g': Group, r: Row)
    requires |key| == |op.groupBy|
    ensures Net(GroupOutput(op, key, g, g'), r) ==
            if GroupPart(op, r) == key then Shows(op, g', r) - Shows(op, g, r) else 0
    ensures forall j :: 0 <= j <= |GroupOutput(op, key, g, g')| ==>
              Net(GroupOutput(op, key, g, g')[..j], r) >= if GroupPart(op, r) == key then -Shows(op, g, r) else 0
  {
    var x, y := Retracted(op, key, g), Emission(op, key, g');
    NetRetracted(op, key, g, r);
    NetEmission(op, key, g', r);
    TotalAppend(x, y, Is(r));
    forall j | 0 <= j <= |x + y|
      ensures Net((x + y)[..j], r) >= if GroupPart(op, r) == key then -Shows(op, g, r) else 0
    {
      assert (x + y)[..j] == [] || (x + y)[..j] == x || (x + y)[..j] == x + y;
    }
  }

  lemma NetRetracted(op: AggregateOp, key: Row, g: Group, r: Row)
    requires |key| == |op.groupBy|
    ensures Net(Retracted(op, key, g), r) == if GroupPart(op, r) == key then -Shows(op, g, r) else 0
  {
    OutputRow(op, key, g, r);
    if g.count > 0 { TotalOne(Retracted(op, key, g)[0], Is(r)); }
  }

  lemma NetEmission(op: AggregateOp, key: Row, g: Group, r: Row)
    requires |key| == |op.groupBy|
    ensures Net(Emission(op, key, g), r) == if GroupPart(op, r) == key then Shows(op, g, r) else 0
  {
    OutputRow(op, key, g, r);
    if g.count > 0 { TotalOne(Emission(op, key, g)[0], Is(r)); }
  }

  lemma OutputRow(op: AggregateOp, key: Row, g: Group, r: Row)
    requires |key| == |op.groupBy|
    ensures g.count > 0 ==>
              (r == key + [Shown(op, g)] <==> GroupPart(op, r) == key && Shows(op, g, r) == 1)
    ensures g.count <= 0 ==> Shows(op, g, r) == 0
  {
  }

  /** Net output for `r` once the groups of `order` are handled. */
  ghost function Emitted(op: AggregateOp, add: Combiner, groups: map<Row, Group>, changes: map<Row, Group>,
                         order: seq<Row>, r: Row): int
  {
    var key := GroupPart(op, r);
    if key in order then Shows(op, add(Known(groups, key), Known(changes, key)), r) - Shows(op, Known(groups, key), r)
    else 0
  }

  lemma EmittedNext(op: AggregateOp, add: Combiner, groups: map<Row, Group>, changes: map<Row, Group>, init: seq<Row>,
                    key: Row, r: Row)
    requires key !in init
    ensures Emitted(op, add, groups, changes, init + [key], r) ==
            Emitted(op, add, groups, changes, init, r) +
            if GroupPart(op, r) == key
            then Shows(op, add(Known(groups, key), Known(changes, key)), r) - Shows(op, Known(groups, key), r) else 0
  {
  }

  lemma LastStep(op: AggregateOp, add: Combiner, groups: map<Row, Group>, changes: map<Row, Group>, init: seq<Row>,
                 key: Row)
    requires Live(groups) && Distinct(init + [key])
    ensures key !in init && Distinct(init)
    ensures Outputs(op, add, groups, changes, init + [key]) ==
            Outputs(op, add, groups, changes, init) +
            GroupOutput(op, key, Known(groups, key), add(Known(groups, key), Known(changes, key)))
  {
    var order := init + [key];
    assert forall i :: 0 <= i < |init| ==> order[i] == init[i];
    assert order[|init|] == key;
    OrderNext(op, add, groups, changes, init, key);
    RegroupAt(add, groups, changes, init, key);
  }

  /** Every output row changes by what its own group changed ... */
  lemma {:induction false} NetOutputs(op: AggregateOp, add: Combiner, groups: map<Row, Group>, changes: map<Row,
                                      Group>, order: seq<Row>, r: Row)
    requires Live(groups) && Distinct(order) && forall i :: 0 <= i < |order| ==> |order[i]| == |op.groupBy|
    ensures Net(Outputs(op, add, groups, changes, order), r) == Emitted(op, add, groups, changes, order, r)
  {
    if order != [] {
      var init, key := order[..|order| - 1], order[|order| - 1];
      assert order == init + [key];
      LastStep(op, add, groups, changes, init, key);
      NetOutputs(op, add, groups, changes, init, r);
      var g := Known(groups, key);
      NetGroupOutput(op, key, g, add(g, Known(changes, key)), r);
      TotalAppend(Outputs(op, add, groups, changes, init), GroupOutput(op, key, g, add(g, Known(changes, key))), Is(r));
      EmittedNext(op, add, groups, changes, init, key, r);
    }
  }

  lemma OverdrawTail(op: AggregateOp, groups: map<Row, Group>, key: Row, g': Group, x: seq<Record>, t: nat, r: Row)
    requires |key| == |op.groupBy| && t <= |GroupOutput(op, key, Known(groups, key), g')|
    requires Net(x, r) >= -Shows(op, Known(groups, GroupPart(op, r)), r)
    requires GroupPart(op, r) == key ==> Net(x, r) == 0
    ensures Net(x + GroupOutput(op, key, Known(groups, key), g')[..t], r) >=
            -Shows(op, Known(groups, GroupPart(op, r)), r)
  {
    NetGroupOutput(op, key, Known(groups, key), g', r);
    TotalAppend(x, GroupOutput(op, key, Known(groups, key), g')[..t], Is(r));
  }

  /** ... and is never retracted while not shown. */
  lemma {:induction false} OutputsNeverOverdraw(op: AggregateOp, add: Combiner, groups: map<Row, Group>,
                                                changes: map<Row, Group>,
                                                order: seq<Row>, j: nat, r: Row)
    requires Live(groups) && Distinct(order) && forall i :: 0 <= i < |order| ==> |order[i]| == |op.groupBy|
    requires j <= |Outputs(op, add, groups, changes, order)|
    ensures Net(Outputs(op, add, groups, changes, order)[..j], r) >= -Shows(op, Known(groups, GroupPart(op, r)), r)
  {
    if order != [] {
      var init, key := order[..|order| - 1], order[|order| - 1];
      assert order == init + [key];
      LastStep(op, add, groups, changes, init, key);
      var x, g' := Outputs(op, add, groups, changes, init), add(Known(groups, key), Known(changes, key));
      if j <= |x| {
        OutputsNeverOverdraw(op, add, groups, changes, init, j, r);
      }
      OutputsNeverOverdraw(op, add, groups, changes, init, |x|, r);
      assert GroupPart(op, r) == key ==> Net(x, r) == 0 by { NetOutputs(op, add, groups, changes, init, r); }
      OverdrawStep(op, groups, key, g', x, j, r);
    }
  }

  lemma OverdrawStep(op: AggregateOp, groups: map<Row, Group>, key: Row, g': Group, x: seq<Record>, j: nat, r: Row)
    requires |key| == |op.groupBy| && j <= |x + GroupOutput(op, key, Known(groups, key), g')|
    requires j <= |x| ==> Net(x[..j], r) >= -Shows(op, Known(groups, GroupPart(op, r)), r)
    requires Net(x[..|x|], r) >= -Shows(op, Known(groups, GroupPart(op, r)), r)
    requires GroupPart(op, r) == key ==> Net(x, r) == 0
    ensures Net((x + GroupOutput(op, key, Known(groups, key), g'))[..j], r) >=
            -Shows(op, Known(groups, GroupPart(op, r)), r)
  {
    var y := GroupOutput(op, key, Known(groups, key), g');
    if j <= |x| {
      assert (x + y)[..j] == x[..j];
    } else {
      assert x[..|x|] == x && (x + y)[..j] == x + y[..j - |x|];
      OverdrawTail(op, groups, key, g', x, j - |x|, r);
    }
  }

  // ---------------------------------------------------------------------------
  // The aggregate as a query
  // ---------------------------------------------------------------------------

  /** The groups of a table, each once, in order of first appearance. */
  function GroupsOf(op: AggregateOp, rows: seq<Row>): seq<Row> {
    if rows == [] then []
    else
      var seen, key := GroupsOf(op, rows[..|rows| - 1]), GroupOf(op, rows[|rows| - 1]);
      if key in seen then seen else seen + [key]
  }

  function GroupCount(op: AggregateOp, rows: seq<Row>, key: Row): nat {
    if rows == [] then 0
    else GroupCount(op, rows[..|rows| - 1], key) + if GroupOf(op, rows[|rows| - 1]) == key then 1 else 0
  }

  function GroupSum(op: AggregateOp, rows: seq<Row>, key: Row): int {
    if rows == [] then 0
    else GroupSum(op, rows[..|rows| - 1], key) +
         if GroupOf(op, rows[|rows| - 1]) == key then Contribution(op, rows[|rows| - 1]) else 0
  }

  function GroupStats(op: AggregateOp, rows: seq<Row>, key: Row): Group {
    Group(GroupCount(op, rows, key), GroupSum(op, rows, key))
  }

  /** One row per group of the table, recomputed from scratch. */
  function AggregateRows(op: AggregateOp, rows: seq<Row>): seq<Row> {
    var keys := GroupsOf(op, rows);
    seq(|keys|, i requires 0 <= i < |keys| =>
      var g := GroupStats(op, rows, keys[i]);
      keys[i] + [if g.count > 0 then Shown(op, g) else Null])
  }

  lemma {:induction false} GroupCountIsTotal(op: AggregateOp, rows: seq<Row>, key: Row)
    ensures GroupCount(op, rows, key) == Total(Plus(rows), InGroup(op, key))
  {
    if rows != [] {
      assert Plus(rows)[..|rows| - 1] == Plus(rows[..|rows| - 1]);
      GroupCountIsTotal(op, rows[..|rows| - 1], key);
    }
  }

  lemma {:induction false} GroupSumIsTotal(op: AggregateOp, rows: seq<Row>, key: Row)
    ensures GroupSum(op, rows, key) == Total(Plus(rows), SumInGroup(op, key))
  {
    if rows != [] {
      assert Plus(rows)[..|rows| - 1] == Plus(rows[..|rows| - 1]);
      GroupSumIsTotal(op, rows[..|rows| - 1], key);
    }
  }

  lemma {:induction false} EmptyGroupSumsToNothing(op: AggregateOp, rows: seq<Row>, key: Row)
    requires GroupCount(op, rows, key) == 0
    ensures GroupSum(op, rows, key) == 0
  {
    if rows != [] { EmptyGroupSumsToNothing(op, rows[..|rows| - 1], key); }
  }

  lemma {:induction false} GroupsAreCounted(op: AggregateOp, rows: seq<Row>, key: Row)
    ensures key in GroupsOf(op, rows) <==> GroupCount(op, rows, key) > 0
    ensures key in GroupsOf(op, rows) ==> |key| == |op.groupBy|
    ensures Distinct(GroupsOf(op, rows))
  {
    if rows != [] { GroupsAreCounted(op, rows[..|rows| - 1], key); }
  }

  lemma {:induction false} CountDistinct(rows: seq<Row>, r: Row)
    requires Distinct(rows)
    ensures multiset(rows)[r] == if r in rows then 1 else 0
  {
    if rows != [] {
      assert rows == rows[..|rows| - 1] + [rows[|rows| - 1]];
      CountDistinct(rows[..|rows| - 1], r);
    }
  }

  /** The aggregate holds exactly one row for every group with rows. */
  lemma CountAggregateRows(op: AggregateOp, rows: seq<Row>, r: Row)
    ensures multiset(AggregateRows(op, rows))[r] == Shows(op, GroupStats(op, rows, GroupPart(op, r)), r)
  {
    var keys, out := GroupsOf(op, rows), AggregateRows(op, rows);
    forall i | 0 <= i < |keys| ensures GroupStats(op, rows, keys[i]).count > 0 && |keys[i]| == |op.groupBy| {
      GroupsAreCounted(op, rows, keys[i]);
    }
    GroupsAreCounted(op, rows, GroupPart(op, r));
    forall i, j | 0 <= i < j < |out| ensures out[i] != out[j] {
      assert out[i][..|keys[i]|] == keys[i] && out[j][..|keys[j]|] == keys[j];
    }
    CountDistinct(out, r);
    var key := GroupPart(op, r);
    if |key| == |op.groupBy| { OutputRow(op, key, GroupStats(op, rows, key), r); }
    if r in out {
      var i :| 0 <= i < |out| && out[i] == r;
      OutputRow(op, keys[i], GroupStats(op, rows, keys[i]), r);
    } else if key in keys {
      var i :| 0 <= i < |keys| && keys[i] == key;
      assert out[i] != r;
    }
  }

  /** The running statistics are those of `rows`. */
  ghost predicate Tracks(op: AggregateOp, groups: map<Row, Group>, rows: seq<Row>) {
    forall key :: Known(groups, key) == GroupStats(op, rows, key)
  }

  /** A delta on the input maintains the aggregate, whichever order the groups are handled in. */
  lemma AggregateDelta(op: AggregateOp, groups: map<Row, Group>, before: seq<Row>, d: seq<Record>, after: seq<Row>,
                       order: seq<Row>)
    requires Live(groups) && Tracks(op, groups, before)
    requires Moves(before, d, after)
    requires Distinct(order) && forall key :: key in order <==> key in Changes(op, d)
    ensures Moves(AggregateRows(op, before), Outputs(op, Adder(), groups, Changes(op, d), order),
                  AggregateRows(op, after))
    ensures Applicable(AggregateRows(op, before), Outputs(op, Adder(), groups, Changes(op, d), order))
    ensures Live(Regroup(Adder(), groups, Changes(op, d), order))
    ensures Tracks(op, Regroup(Adder(), groups, Changes(op, d), order), after)
  {
    var changes := Changes(op, d);
    var out := Outputs(op, Adder(), groups, changes, order);
    forall i | 0 <= i < |order| ensures |order[i]| == |op.groupBy| {
      assert order[i] in order;
      ChangesAreStats(op, d, order[i]);
    }
    forall r ensures Net(Plus(AggregateRows(op, after)), r) == Net(Plus(AggregateRows(op, before)) + out, r) {
      NetAfterOutputs(op, groups, before, d, after, order, |out|, r);
    }
    forall j | 0 <= j <= |out| ensures NonNegative(Plus(AggregateRows(op, before)) + out[..j]) {
      forall r ensures Net(Plus(AggregateRows(op, before)) + out[..j], r) >= 0 {
        NetAfterOutputs(op, groups, before, d, after, order, j, r);
      }
    }
    forall key ensures Known(Regroup(Adder(), groups, changes, order), key) == GroupStats(op, after, key) {
      StatsMove(op, before, d, after, key);
      RegroupAt(Adder(), groups, changes, order, key);
      ChangesAreStats(op, d, key);
    }
    RegroupAt(Adder(), groups, changes, order, []);
  }

  lemma StatsMove(op: AggregateOp, before: seq<Row>, d: seq<Record>, after: seq<Row>, key: Row)
    requires Moves(before, d, after)
    ensures GroupStats(op, after, key) == Added(GroupStats(op, before, key), Stats(op, d, key))
    ensures Clamp(GroupStats(op, after, key)) == GroupStats(op, after, key)
  {
    GroupCountIsTotal(op, before, key);
    GroupCountIsTotal(op, after, key);
    GroupSumIsTotal(op, before, key);
    GroupSumIsTotal(op, after, key);
    if GroupCount(op, after, key) == 0 { EmptyGroupSumsToNothing(op, after, key); }
    SameNetTotal(Plus(after), Plus(before) + d, InGroup(op, key));
    SameNetTotal(Plus(after), Plus(before) + d, SumInGroup(op, key));
    TotalAppend(Plus(before), d, InGroup(op, key));
    TotalAppend(Plus(before), d, SumInGroup(op, key));
  }

  lemma NetAfterOutputs(op: AggregateOp, groups: map<Row, Group>, before: seq<Row>, d: seq<Record>, after: seq<Row>,
                        order: seq<Row>, j: nat, r: Row)
    requires Live(groups) && Known(groups, GroupPart(op, r)) == GroupStats(op, before, GroupPart(op, r))
    requires Moves(before, d, after)
    requires Distinct(order) && forall key :: key in order <==> key in Changes(op, d)
    requires forall i :: 0 <= i < |order| ==> |order[i]| == |op.groupBy|
    requires j <= |Outputs(op, Adder(), groups, Changes(op, d), order)|
    ensures var out := Outputs(op, Adder(), groups, Changes(op, d), order);
            Net(Plus(AggregateRows(op, before)) + out[..j], r) >= 0 &&
            Net(Plus(AggregateRows(op, before)) + out, r) == Net(Plus(AggregateRows(op, after)), r)
  {
    var key, out := GroupPart(op, r), Outputs(op, Adder(), groups, Changes(op, d), order);
    OutputsNeverOverdraw(op, Adder(), groups, Changes(op, d), order, j, r);
    CountAggregateRows(op, before, r);
    CountAggregateRows(op, after, r);
    assert Net(out, r) == Shows(op, GroupStats(op, after, key), r) - Shows(op, GroupStats(op, before, key), r) by {
      NetOutputs(op, Adder(), groups, Changes(op, d), order, r);
      EmittedIsMove(op, groups, before, d, after, order, r);
    }
    OutputsOnRows(AggregateRows(op, before), out, AggregateRows(op, after), j, r);
  }

  lemma OutputsOnRows(a: seq<Row>, out: seq<Record>, b: seq<Row>, j: nat, r: Row)
    requires j <= |out| && Net(out[..j], r) >= -(multiset(a)[r] as int)
    requires Net(out, r) + multiset(a)[r] == multiset(b)[r]
    ensures Net(Plus(a) + out[..j], r) >= 0 && Net(Plus(a) + out, r) == Net(Plus(b), r)
  {
    NetPermuted(a, a, out[..j], r);
    NetPermuted(a, a, out, r);
    NetOfPlus(b, r);
  }

  lemma EmittedIsMove(op: AggregateOp, groups: map<Row, Group>, before: seq<Row>, d: seq<Record>, after: seq<Row>,
                      order: seq<Row>, r: Row)
    requires Known(groups, GroupPart(op, r)) == GroupStats(op, before, GroupPart(op, r))
    requires Moves(before, d, after)
    requires forall key :: key in order <==> key in Changes(op, d)
    ensures Emitted(op, Adder(), groups, Changes(op, d), order, r) ==
            Shows(op, GroupStats(op, after, GroupPart(op, r)), r) -
            Shows(op, GroupStats(op, before, GroupPart(op, r)), r)
  {
    var key := GroupPart(op, r);
    StatsAfter(op, groups, before, d, after, key);
    EmittedBetween(op, Adder(), groups, Changes(op, d), order, r, GroupStats(op, before, key),
                   GroupStats(op, after, key));
  }

  lemma EmittedBetween(op: AggregateOp, add: Combiner, groups: map<Row, Group>, changes: map<Row, Group>,
                       order: seq<Row>,
                       r: Row, g: Group, g': Group)
    requires Known(groups, GroupPart(op, r)) == g
    requires GroupPart(op, r) in order ==> add(g, Known(changes, GroupPart(op, r))) == g'
    requires GroupPart(op, r) !in order ==> g' == g
    ensures Emitted(op, add, groups, changes, order, r) == Shows(op, g', r) - Shows(op, g, r)
  {
  }

  lemma StatsAfter(op: AggregateOp, groups: map<Row, Group>, before: seq<Row>, d: seq<Record>, after: seq<Row>,
                   key: Row)
    requires Known(groups, key) == GroupStats(op, before, key) && Moves(before, d, after)
    ensures Adder()(GroupStats(op, before, key), Known(Changes(op, d), key)) == GroupStats(op, after, key)
    ensures key !in Changes(op, d) ==> GroupStats(op, after, key) == GroupStats(op, before, key)
  {
    ChangesAreStats(op, d, key);
    StatsMove(op, before, d, after, key);
  }

  lemma {:induction false} NothingToSum(op: AggregateOp, rows: seq<Row>, key: Row)
    requires op.func.Min? || op.func.Max? || op.func.Count?
    ensures GroupSum(op, rows, key) == 0
  {
    if rows != [] { NothingToSum(op, rows[..|rows| - 1], key); }
  }
}
