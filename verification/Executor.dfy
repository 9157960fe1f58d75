/** The executor: writes to base tables propagate through the graph, and every materialized node
    stays equal to its query over the current tables. */
module Executor {
  import opened Values
  import opened ZSets
  import opened MemoryStates
  import opened Operators
  import opened Joins
  import opened Aggregates
  import opened Graphs
  import B = Building

  // ---------------------------------------------------------------------------
  // What each node should contain
  // ---------------------------------------------------------------------------

  /** An operator as a query over the full contents of its inputs. */
  function Eval(op: Op, left: seq<Row>, right: seq<Row>): seq<Row> {
    match op
    case Base => []
    case Identity => left
    case Filter(keep) => FlatMap(left, FilterStep(keep))
    case Project(emit) => FlatMap(left, ProjectStep(emit))
    case Join(join) => Maintained(join, left, right)
    case Aggregate(agg) => AggregateRows(agg, left)
  }

  /** The query of a node, run from scratch on the base tables. */
  function Answer(nodes: seq<Node>, tables: seq<seq<Row>>, i: nat): seq<Row>
    requires WellFormed(nodes) && |tables| == |nodes| && i < |nodes|
    decreases i
  {
    var ps := nodes[i].parents;
    match nodes[i].op
    case Base => tables[i]
    case Join(_) => Eval(nodes[i].op, Answer(nodes, tables, ps[0]), Answer(nodes, tables, ps[1]))
    case _ => Eval(nodes[i].op, Answer(nodes, tables, ps[0]), [])
  }

  /** Which rows a node's query has: those of a filter pass it, those of a projection and of a join show the named
      columns one by one. */
  ghost predicate RowOfQuery(nodes: seq<Node>, tables: seq<seq<Row>>, i: nat, x: Row)
    requires WellFormed(nodes) && |tables| == |nodes| && i < |nodes|
  {
    var ps := nodes[i].parents;
    match nodes[i].op
    case Base => x in tables[i]
    case Identity => x in Answer(nodes, tables, ps[0])
    case Filter(keep) => x in Answer(nodes, tables, ps[0]) && keep(x)
    case Project(emit) => exists y :: y in Answer(nodes, tables, ps[0]) && ShowsColumns(x, y, emit)
    case Join(join) => JoinShows(join, Answer(nodes, tables, ps[0]), Answer(nodes, tables, ps[1]), x)
    case Aggregate(agg) => x in AggregateRows(agg, Answer(nodes, tables, ps[0]))
  }

  ghost predicate JoinShows(join: JoinOp, lefts: seq<Row>, rights: seq<Row>, x: Row) {
    if join.joinType.Left? then exists i :: 0 <= i < |lefts| && LeftShows(join, lefts[i], rights, x)
    else exists i, j :: 0 <= i < |lefts| && 0 <= j < |rights| &&
                        SameKey(join, lefts[i], rights[j]) && IsPair(join, lefts[i], rights[j], x)
  }

  lemma FilteredRow(rows: seq<Row>, keep: Row -> bool, x: Row)
    ensures x in FlatMap(rows, FilterStep(keep)) <==> x in rows && keep(x)
  {
    FilterQuery(rows, keep, x);
    assert x in rows <==> multiset(rows)[x] > 0;
    assert x in FlatMap(rows, FilterStep(keep)) <==> multiset(FlatMap(rows, FilterStep(keep)))[x] > 0;
  }

  lemma ProjectedRow(rows: seq<Row>, emit: seq<nat>, x: Row)
    ensures x in FlatMap(rows, ProjectStep(emit)) <==> exists y :: y in rows && ShowsColumns(x, y, emit)
  {
    FlatMapRow(rows, ProjectStep(emit), x);
    forall i | 0 <= i < |rows| ensures x in ProjectStep(emit)(rows[i]) <==> ShowsColumns(x, rows[i], emit) {
      ColumnsExactly(rows[i], emit, x);
    }
    if y :| y in rows && ShowsColumns(x, y, emit) {
      var i :| 0 <= i < |rows| && rows[i] == y;
      assert x in ProjectStep(emit)(rows[i]);
    }
  }

  lemma AnswerRow(nodes: seq<Node>, tables: seq<seq<Row>>, i: nat, x: Row)
    requires WellFormed(nodes) && |tables| == |nodes| && i < |nodes|
    ensures x in Answer(nodes, tables, i) <==> RowOfQuery(nodes, tables, i, x)
  {
    var ps := nodes[i].parents;
    match nodes[i].op
    case Filter(keep) => FilteredRow(Answer(nodes, tables, ps[0]), keep, x);
    case Project(emit) => ProjectedRow(Answer(nodes, tables, ps[0]), emit, x);
    case Join(join) =>
      var lefts, rights := Answer(nodes, tables, ps[0]), Answer(nodes, tables, ps[1]);
      if join.joinType.Left? { LeftRow(join, lefts, rights, x); } else { InnerRow(join, lefts, rights, x); }
    case _ =>
  }

  ghost predicate StateOk(state: Option<MemoryState>, rows: seq<Row>) {
    state.Some? ==> Holds(state.value, rows)
  }

  /** The running statistics of an aggregate are those of its input. */
  ghost predicate GroupsOk(op: Op, groups: map<Row, Group>, input: seq<Row>) {
    op.Aggregate? ==> Live(groups) && Tracks(op.agg, groups, input)
  }

  type States = seq<Option<MemoryState>>
  type AllGroups = seq<map<Row, Group>>

  /** A join looks its partners up in the materialized states of its inputs. */
  ghost predicate JoinReady(nodes: seq<Node>, states: States, c: nat)
    requires WellFormed(nodes) && |states| == |nodes| && c < |nodes|
  {
    nodes[c].op.Join? ==>
      var join, l, r := nodes[c].op.join, states[nodes[c].parents[0]], states[nodes[c].parents[1]];
      l.Some? && l.value.keyColumns == [join.leftKey] && r.Some? && r.value.keyColumns == [join.rightKey]
  }

  // ---------------------------------------------------------------------------
  // One operator
  // ---------------------------------------------------------------------------

  /** The state of the input that did not move; a left join's padded rows must not move either. */
  ghost predicate OtherSideReady(join: JoinOp, m: nat, before: seq<Row>, after: seq<Row>, rest: seq<Row>,
                                 other: Option<MemoryState>) {
    && other.Some? && Holds(other.value, rest)
    && other.value.keyColumns == [if m == 0 then join.rightKey else join.leftKey]
    && (join.joinType.Left? && m == 1 ==>
          multiset(Padding(join, rest, before)) == multiset(Padding(join, rest, after)))
  }

  /** What a correct delta of input `m` looks like: it leads from `ins[m]` to `after`. */
  ghost predicate InputMoved(op: Op, m: nat, d: seq<Record>, ins: seq<seq<Row>>, after: seq<Row>,
                             other: Option<MemoryState>, groups: map<Row, Group>) {
    && |ins| == 2 && m < 2 && (m == 1 ==> op.Join?) && Moves(ins[m], d, after) && Applicable(ins[m], d)
    && (op.Join? ==> OtherSideReady(op.join, m, ins[m], after, ins[1 - m], other))
    && GroupsOk(op, groups, ins[0])
  }

  ghost predicate OutputMoved(op: Op, out: seq<Record>, ins: seq<seq<Row>>, outs: seq<seq<Row>>, groups: map<Row,
                              Group>)
    requires |ins| == |outs| == 2
  {
    && Moves(Eval(op, ins[0], ins[1]), out, Eval(op, outs[0], outs[1]))
    && Applicable(Eval(op, ins[0], ins[1]), out)
    && GroupsOk(op, groups, outs[0])
  }

  lemma RowwiseMoved(op: Op, d: seq<Record>, ins: seq<seq<Row>>, outs: seq<seq<Row>>, groups: map<Row, Group>,
                     e: Row -> seq<Row>)
    requires |ins| == |outs| == 2 && Moves(ins[0], d, outs[0]) && Applicable(ins[0], d)
    requires (op.Filter? && e == FilterStep(op.keep)) || (op.Project? && e == ProjectStep(op.emit))
    ensures OutputMoved(op, Expand(d, e), ins, outs, groups)
  {
    LinearMoves(ins[0], d, outs[0], e, e);
    LinearApplicable(ins[0], d, e, e);
  }

  lemma JoinMoved(join: JoinOp, m: nat, d: seq<Record>, other: MemoryState, ins: seq<seq<Row>>, after: seq<Row>,
                  groups: map<Row, Group>)
    requires InputMoved(Join(join), m, d, ins, after, Some(other), groups)
    ensures OutputMoved(Join(join), Expand(d, JoinStep(join, m == 0, other)), ins, ins[m := after], groups)
  {
    var out := Expand(d, JoinStep(join, m == 0, other));
    if m == 0 {
      MaintainedLeftDelta(join, ins[0], d, after, other, ins[1]);
      JoinOutput(join, out, ins, ins[m := after], groups);
    } else {
      MaintainedRightDelta(join, ins[1], d, after, other, ins[0]);
      JoinOutput(join, out, ins, ins[m := after], groups);
    }
  }

  lemma JoinOutput(join: JoinOp, out: seq<Record>, ins: seq<seq<Row>>, outs: seq<seq<Row>>, groups: map<Row, Group>)
    requires |ins| == |outs| == 2
    requires Moves(Maintained(join, ins[0], ins[1]), out, Maintained(join, outs[0], outs[1]))
    requires Applicable(Maintained(join, ins[0], ins[1]), out)
    ensures OutputMoved(Join(join), out, ins, outs, groups)
  {
  }

  lemma AggregateMoved(agg: AggregateOp, d: seq<Record>, ins: seq<seq<Row>>, outs: seq<seq<Row>>,
                       groups: map<Row, Group>, order: seq<Row>)
    requires |ins| == |outs| == 2 && Moves(ins[0], d, outs[0]) && GroupsOk(Aggregate(agg), groups, ins[0])
    requires Distinct(order) && forall key :: key in order <==> key in Changes(agg, d)
    ensures OutputMoved(Aggregate(agg), Outputs(agg, Adder(), groups, Changes(agg, d), order), ins, outs,
                        Regroup(Adder(), groups, Changes(agg, d), order))
  {
    AggregateDelta(agg, groups, ins[0], d, outs[0], order);
    var changes := Changes(agg, d);
    AggregateOutput(agg, Outputs(agg, Adder(), groups, changes, order), ins, outs,
                    Regroup(Adder(), groups, changes, order));
  }

  lemma AggregateOutput(agg: AggregateOp, out: seq<Record>, ins: seq<seq<Row>>, outs: seq<seq<Row>>,
                        groups: map<Row, Group>)
    requires |ins| == |outs| == 2 && Live(groups) && Tracks(agg, groups, outs[0])
    requires Moves(AggregateRows(agg, ins[0]), out, AggregateRows(agg, outs[0]))
    requires Applicable(AggregateRows(agg, ins[0]), out)
    ensures OutputMoved(Aggregate(agg), out, ins, outs, groups)
  {
  }

  /** What an operator other than an aggregate sends on. */
  function Output(op: Op, m: nat, records: seq<Record>, other: Option<MemoryState>): seq<Record> {
    match op
    case Filter(keep) => Expand(records, FilterStep(keep))
    case Project(emit) => Expand(records, ProjectStep(emit))
    case Join(join) => if other.Some? then Expand(records, JoinStep(join, m == 0, other.value)) else []
    case _ => records
  }

  /** Every operator turns a change of one input into the change of its query. */
  method Process(op: Op, m: nat, records: seq<Record>, other: Option<MemoryState>, groups: map<Row, Group>,
                 ghost ins: seq<seq<Row>>, ghost after: seq<Row>)
    returns (out: seq<Record>, groups': map<Row, Group>)
    ensures !op.Aggregate? ==> out == Output(op, m, records, other) && groups' == groups
    ensures InputMoved(op, m, records, ins, after, other, groups) && !op.Base? ==>
              OutputMoved(op, out, ins, ins[m := after], groups')
  {
    groups' := groups;
    ghost var moved := InputMoved(op, m, records, ins, after, other, groups);
    match op {
      case Base =>
        out := records;
      case Identity =>
        out := ProcessIdentity(records);
        ExpandIdentity(records);
      case Filter(keep) =>
        out := ProcessFilter(keep, records);
        if moved { RowwiseMoved(op, records, ins, ins[m := after], groups, FilterStep(keep)); }
      case Project(emit) =>
        out := ProcessProject(emit, records);
        if moved { RowwiseMoved(op, records, ins, ins[m := after], groups, ProjectStep(emit)); }
      case Join(join) =>
        var lookups;
        out, lookups := ProcessJoin(join, m == 0, records, other);
        if moved { JoinMoved(join, m, records, other.value, ins, after, groups); }
      case Aggregate(agg) =>
        ghost var order;
        out, groups', order := ProcessAggregate(agg, groups, records);
        if moved { AggregateMoved(agg, records, ins, ins[m := after], groups, order); }
    }
  }

  // ---------------------------------------------------------------------------
  // Only bags matter
  // ---------------------------------------------------------------------------

  lemma HoldsPermuted(s: MemoryState, a: seq<Row>, b: seq<Row>)
    requires Holds(s, a) && multiset(a) == multiset(b)
    ensures Holds(s, b)
  {
    assert |multiset(a)| == |a| && |multiset(b)| == |b|;
  }

  lemma GroupStatsPermuted(agg: AggregateOp, a: seq<Row>, b: seq<Row>, key: Row)
    requires multiset(a) == multiset(b)
    ensures GroupStats(agg, a, key) == GroupStats(agg, b, key)
  {
    forall r ensures Net(Plus(a), r) == Net(Plus(b), r) {
      NetOfPlus(a, r);
      NetOfPlus(b, r);
    }
    GroupCountIsTotal(agg, a, key);
    GroupCountIsTotal(agg, b, key);
    GroupSumIsTotal(agg, a, key);
    GroupSumIsTotal(agg, b, key);
    SameNetTotal(Plus(a), Plus(b), InGroup(agg, key));
    SameNetTotal(Plus(a), Plus(b), SumInGroup(agg, key));
  }

  lemma GroupsPermuted(op: Op, groups: map<Row, Group>, a: seq<Row>, b: seq<Row>)
    requires GroupsOk(op, groups, a) && multiset(a) == multiset(b)
    ensures GroupsOk(op, groups, b)
  {
    if op.Aggregate? {
      forall key ensures Known(groups, key) == GroupStats(op.agg, b, key) { GroupStatsPermuted(op.agg, a, b, key); }
    }
  }

  lemma EvalPermuted(op: Op, l: seq<Row>, r: seq<Row>, l': seq<Row>, r': seq<Row>)
    requires multiset(l) == multiset(l') && multiset(r) == multiset(r')
    ensures multiset(Eval(op, l, r)) == multiset(Eval(op, l', r'))
  {
    match op {
      case Filter(keep) => FlatMapPermuted(l, l', FilterStep(keep));
      case Project(emit) => FlatMapPermuted(l, l', ProjectStep(emit));
      case Join(join) => MaintainedPermuted(join, l, r, l', r');
      case Aggregate(agg) => AggregatePermuted(agg, l, l');
      case _ =>
    }
  }

  lemma AggregatePermuted(agg: AggregateOp, l: seq<Row>, l': seq<Row>)
    requires multiset(l) == multiset(l')
    ensures multiset(AggregateRows(agg, l)) == multiset(AggregateRows(agg, l'))
  {
    forall x ensures multiset(AggregateRows(agg, l))[x] == multiset(AggregateRows(agg, l'))[x] {
      CountAggregateRows(agg, l, x);
      CountAggregateRows(agg, l', x);
      GroupStatsPermuted(agg, l, l', GroupPart(agg, x));
    }
  }

  // ---------------------------------------------------------------------------
  // A write under way
  // ---------------------------------------------------------------------------

  /** What each node has seen of its two inputs so far (the second is unused unless it is a join). */
  type Seen = seq<seq<seq<Row>>>

  datatype World = World(nodes: seq<Node>, states: States, groups: AllGroups, tables: seq<seq<Row>>, seen: Seen)

  ghost predicate Sized(w: World) {
    && WellFormed(w.nodes) && |w.states| == |w.groups| == |w.tables| == |w.seen| == |w.nodes|
    && forall i :: 0 <= i < |w.seen| ==> |w.seen[i]| == 2
  }

  /** What a node contains, given what it has seen. */
  ghost function Content(w: World, i: nat): seq<Row>
    requires Sized(w) && i < |w.nodes|
  {
    if w.nodes[i].op.Base? then w.tables[i]
    else Eval(w.nodes[i].op, w.seen[i][0], if w.nodes[i].op.Join? then w.seen[i][1] else [])
  }

  /** The node's state and statistics are those of what it has seen. */
  ghost predicate Fine(w: World, i: nat)
    requires Sized(w) && i < |w.nodes|
  {
    StateOk(w.states[i], Content(w, i)) && Prepared(w, i)
  }

  ghost predicate Prepared(w: World, i: nat)
    requires Sized(w) && i < |w.nodes|
  {
    GroupsOk(w.nodes[i].op, w.groups[i], w.seen[i][0]) && JoinReady(w.nodes, w.states, i)
  }

  /** The node has seen all its input `m` contains. */
  ghost predicate AtRest(w: World, c: nat, m: nat)
    requires Sized(w) && c < |w.nodes| && m < |w.nodes[c].parents|
  {
    multiset(w.seen[c][m]) == multiset(Content(w, w.nodes[c].parents[m]))
  }

  /** With each node all the nodes above it. */
  ghost predicate UpClosed(nodes: seq<Node>, good: set<nat>)
    requires WellFormed(nodes)
  {
    && (forall i :: i in good ==> i < |nodes|)
    && (forall a, i :: i in good && 0 <= a < |nodes| && Reaches(nodes, a, i) ==> a in good)
  }

  /** The good nodes: closed upwards, their joins fit for a write to `b`. */
  ghost predicate Goods(nodes: seq<Node>, b: nat, good: set<nat>)
    requires WellFormed(nodes)
  {
    UpClosed(nodes, good) && forall c :: c in good && nodes[c].op.Join? ==> Fit(nodes, b, c)
  }

  /** The nodes above whose children are not all served yet lie between `b` and `from`. */
  ghost predicate OnPath(nodes: seq<Node>, b: nat, path: set<nat>, from: nat)
    requires WellFormed(nodes)
  {
    && Reaches(nodes, b, from) && from !in path
    && forall p :: p in path ==> Reaches(nodes, b, p) && Reaches(nodes, p, from)
  }

  /** Input `m` of `c`: still at `old_` if it comes from `from` and `c` is not served, else at rest
      unless it comes from the path. */
  ghost predicate Edge(w: World, path: set<nat>, from: nat, served: seq<nat>, old_: seq<Row>, c: nat, m: nat)
    requires Sized(w) && c < |w.nodes| && m < |w.nodes[c].parents|
  {
    var p := w.nodes[c].parents[m];
    if p == from && c !in served then multiset(w.seen[c][m]) == multiset(old_)
    else p !in path ==> AtRest(w, c, m)
  }

  ghost predicate Edges(w: World, good: set<nat>, path: set<nat>, from: nat, served: seq<nat>, old_: seq<Row>)
    requires Sized(w) && UpClosed(w.nodes, good)
  {
    forall c, m :: c in good && 0 <= m < |w.nodes[c].parents| ==> Edge(w, path, from, served, old_, c, m)
  }

  /** A delta has arrived at `from`: its content is the new one, its state and its children are at `old_`. */
  ghost predicate Arrived(w: World, good: set<nat>, path: set<nat>, from: nat, d: seq<Record>, old_: seq<Row>)
    requires Sized(w) && UpClosed(w.nodes, good) && from in good
  {
    && (forall i :: i in good && i != from ==> Fine(w, i)) && Prepared(w, from)
    && StateOk(w.states[from], old_) && Applicable(old_, d) && Moves(old_, d, Content(w, from))
    && Edges(w, good, path, from, [], old_)
  }

  /** The children in `served` and everything below them have seen the delta. */
  ghost predicate Serving(w: World, good: set<nat>, path: set<nat>, from: nat, served: seq<nat>, old_: seq<Row>)
    requires Sized(w) && UpClosed(w.nodes, good)
  {
    (forall i :: i in good ==> Fine(w, i)) && Edges(w, good, path, from, served, old_)
  }

  /** Good nodes are fine, and all their inputs but those from the path at rest. */
  ghost predicate Settled(w: World, good: set<nat>, path: set<nat>)
    requires Sized(w) && UpClosed(w.nodes, good)
  {
    && (forall i :: i in good ==> Fine(w, i))
    && (forall c, m :: c in good && 0 <= m < |w.nodes[c].parents| && w.nodes[c].parents[m] !in path ==> AtRest(w, c, m))
  }

  ghost predicate SameShape(a: Option<MemoryState>, b: Option<MemoryState>) {
    (a.Some? <==> b.Some?) && (a.Some? ==> a.value.keyColumns == b.value.keyColumns)
  }

  /** Only `from` and what is below it has been touched, and only inputs fed from there. */
  ghost predicate Confined(from: nat, w: World, w': World)
    requires Sized(w) && from < |w.nodes|
  {
    && Sized(w') && w'.nodes == w.nodes && w'.tables == w.tables && w'.groups[from] == w.groups[from]
    && (forall i :: 0 <= i < |w.nodes| ==> SameShape(w.states[i], w'.states[i]))
    && (forall i :: 0 <= i < |w.nodes| && !Reaches(w.nodes, from, i) ==>
          w'.states[i] == w.states[i] && w'.groups[i] == w.groups[i])
    && (forall c, m :: 0 <= c < |w.nodes| && 0 <= m < |w.nodes[c].parents| &&
                       !Reaches(w.nodes, from, w.nodes[c].parents[m]) ==>
          w'.seen[c][m] == w.seen[c][m])
  }

  // ---------------------------------------------------------------------------
  // What is not below a node stays as it is
  // ---------------------------------------------------------------------------

  lemma ParentsNotBelow(nodes: seq<Node>, from: nat, i: nat, m: nat)
    requires WellFormed(nodes) && i < |nodes| && m < |nodes[i].parents| && (i == from || !Reaches(nodes, from, i))
    ensures !Reaches(nodes, from, nodes[i].parents[m])
  {
    NotAboveParent(nodes, i, m);
    if Reaches(nodes, from, nodes[i].parents[m]) { ReachesTransitive(nodes, from, nodes[i].parents[m], i); }
  }

  lemma ContentKept(w: World, w': World, from: nat, i: nat)
    requires Sized(w) && from < |w.nodes| && Confined(from, w, w') && i < |w.nodes|
    requires i == from || !Reaches(w.nodes, from, i)
    ensures Content(w', i) == Content(w, i)
    ensures forall m :: 0 <= m < |w.nodes[i].parents| ==> w'.seen[i][m] == w.seen[i][m]
  {
    forall m | 0 <= m < |w.nodes[i].parents| ensures w'.seen[i][m] == w.seen[i][m] {
      ParentsNotBelow(w.nodes, from, i, m);
    }
  }

  lemma FineKept(w: World, w': World, from: nat, i: nat)
    requires Sized(w) && from < |w.nodes| && Confined(from, w, w') && i < |w.nodes|
    requires !Reaches(w.nodes, from, i) && Fine(w, i)
    ensures Fine(w', i)
  {
    ContentKept(w, w', from, i);
  }

  lemma RestKept(w: World, w': World, from: nat, c: nat, m: nat)
    requires Sized(w) && from < |w.nodes| && Confined(from, w, w') && c < |w.nodes| && m < |w.nodes[c].parents|
    requires !Reaches(w.nodes, from, w.nodes[c].parents[m])
    ensures AtRest(w', c, m) <==> AtRest(w, c, m)
  {
    ContentKept(w, w', from, w.nodes[c].parents[m]);
  }

  lemma ConfinedOnward(w: World, w1: World, w': World, from: nat, c: nat)
    requires Sized(w) && from < |w.nodes| && c < |w.nodes| && from < c && Reaches(w.nodes, from, c)
    requires Confined(from, w, w1) && Confined(c, w1, w')
    ensures Confined(from, w, w')
  {
    if Reaches(w.nodes, c, from) { ReachesUp(w.nodes, c, from); }
    forall i | 0 <= i < |w.nodes| && !Reaches(w.nodes, from, i) ensures !Reaches(w.nodes, c, i) {
      if Reaches(w.nodes, c, i) { ReachesTransitive(w.nodes, from, c, i); }
    }
  }

  // ---------------------------------------------------------------------------
  // One node and its children
  // ---------------------------------------------------------------------------

  lemma NoMove(a: seq<Row>, b: seq<Row>)
    requires Moves(a, [], b)
    ensures multiset(a) == multiset(b)
  {
    forall r ensures multiset(a)[r] == multiset(b)[r] {
      assert Net(Plus(b), r) == Net(Plus(a) + [], r);
      assert Plus(a) + [] == Plus(a);
      NetOfPlus(a, r);
      NetOfPlus(b, r);
    }
  }

  lemma NothingArrived(w: World, good: set<nat>, path: set<nat>, from: nat, old_: seq<Row>)
    requires Sized(w) && UpClosed(w.nodes, good) && from in good && Arrived(w, good, path, from, [], old_)
    ensures Settled(w, good, path)
  {
    NoMove(old_, Content(w, from));
    if w.states[from].Some? { HoldsPermuted(w.states[from].value, old_, Content(w, from)); }
    forall c, m | c in good && 0 <= m < |w.nodes[c].parents| && w.nodes[c].parents[m] !in path ensures AtRest(w, c, m) {
      assert Edge(w, path, from, [], old_, c, m);
    }
  }

  function Updated(states: States, from: nat, d: seq<Record>): (s: States)
    requires from < |states|
    ensures |s| == |states|
  {
    if states[from].Some? then states[from := Some(Steps(states[from].value, d))] else states
  }

  lemma SourceUpdated(w: World, good: set<nat>, path: set<nat>, from: nat, d: seq<Record>, old_: seq<Row>)
    requires Sized(w) && UpClosed(w.nodes, good) && from < |w.nodes|
    requires from in good ==> Arrived(w, good, path, from, d, old_)
    ensures Confined(from, w, w.(states := Updated(w.states, from, d)))
    ensures from in good ==> Serving(w.(states := Updated(w.states, from, d)), good, path, from, [], old_)
  {
    var w1 := w.(states := Updated(w.states, from, d));
    if from in good {
      if w.states[from].Some? { StepsHolds(w.states[from].value, d, old_, Content(w, from)); }
      forall i | i in good ensures Fine(w1, i) {
        assert i != from ==> Fine(w, i);
      }
      forall c, m | c in good && 0 <= m < |w.nodes[c].parents| ensures Edge(w1, path, from, [], old_, c, m) {
        assert Edge(w, path, from, [], old_, c, m);
      }
    }
  }

  /** A good join on the way of a write to `b` has its other input off the path. */
  lemma OtherInputOff(nodes: seq<Node>, b: nat, good: set<nat>, path: set<nat>, from: nat, c: nat, m: nat)
    requires WellFormed(nodes) && Goods(nodes, b, good) && OnPath(nodes, b, path, from)
    requires c in good && nodes[c].op.Join? && m < 2 && nodes[c].parents[m] == from
    ensures nodes[c].parents[1 - m] != from && nodes[c].parents[1 - m] !in path
    ensures nodes[c].op.join.joinType.Left? ==> m == 0
  {
    assert Fit(nodes, b, c);
    assert Reaches(nodes, from, from);
  }

  lemma GoodParent(nodes: seq<Node>, good: set<nat>, c: nat, m: nat)
    requires WellFormed(nodes) && UpClosed(nodes, good) && c in good && m < |nodes[c].parents|
    ensures nodes[c].parents[m] in good
  {
    NotAboveParent(nodes, c, m);
  }

  lemma OtherInputReady(w: World, b: nat, good: set<nat>, path: set<nat>, from: nat, served: seq<nat>, old_: seq<Row>,
                        c: nat, m: nat)
    requires Sized(w) && Goods(w.nodes, b, good) && OnPath(w.nodes, b, path, from)
    requires Serving(w, good, path, from, served, old_)
    requires c in good && w.nodes[c].op.Join? && m < 2 && w.nodes[c].parents[m] == from
    ensures OtherSideReady(w.nodes[c].op.join, m, w.seen[c][m], Content(w, from), w.seen[c][1 - m],
                           w.states[w.nodes[c].parents[1 - m]])
  {
    var q := w.nodes[c].parents[1 - m];
    OtherInputOff(w.nodes, b, good, path, from, c, m);
    GoodParent(w.nodes, good, c, 1 - m);
    assert Edge(w, path, from, served, old_, c, 1 - m);
    assert Fine(w, q) && Fine(w, c);
    HoldsPermuted(w.states[q].value, Content(w, q), w.seen[c][1 - m]);
  }

  lemma ChildInputMoved(w: World, b: nat, good: set<nat>, path: set<nat>, from: nat, served: seq<nat>, old_: seq<Row>,
                        d: seq<Record>, c: nat, m: nat, other: Option<MemoryState>)
    requires Sized(w) && Goods(w.nodes, b, good) && OnPath(w.nodes, b, path, from) && from < |w.nodes|
    requires Serving(w, good, path, from, served, old_) && Moves(old_, d, Content(w, from)) && Applicable(old_, d)
    requires c in good && c !in served && m < |w.nodes[c].parents| && w.nodes[c].parents[m] == from
    requires w.nodes[c].op.Join? ==> other == w.states[w.nodes[c].parents[1 - m]]
    ensures InputMoved(w.nodes[c].op, m, d, w.seen[c], Content(w, from), other, w.groups[c])
  {
    assert Edge(w, path, from, served, old_, c, m);
    assert Fine(w, c);
    MovesPermuted(old_, w.seen[c][m], d, Content(w, from), Content(w, from));
    ApplicablePermuted(old_, w.seen[c][m], d);
    if w.nodes[c].op.Join? { OtherInputReady(w, b, good, path, from, served, old_, c, m); }
  }

  /** The child has been sent `from`'s new content on input `m`. */
  ghost function Sent(w: World, from: nat, c: nat, m: nat, gc: map<Row, Group>): World
    requires Sized(w) && from < |w.nodes| && c < |w.nodes| && m < 2
  {
    w.(groups := w.groups[c := gc], seen := w.seen[c := w.seen[c][m := Content(w, from)]])
  }

  lemma SentElsewhere(w: World, from: nat, c: nat, m: nat, gc: map<Row, Group>, i: nat)
    requires Sized(w) && from < |w.nodes| && c < |w.nodes| && m < 2 && i < |w.nodes| && i != c
    ensures Sized(Sent(w, from, c, m, gc)) && Content(Sent(w, from, c, m, gc), i) == Content(w, i)
    ensures Fine(w, i) ==> Fine(Sent(w, from, c, m, gc), i)
  {
  }

  lemma SentMoves(w: World, from: nat, c: nat, m: nat, gc: map<Row, Group>, out: seq<Record>)
    requires Sized(w) && from < |w.nodes| && c < |w.nodes| && m < |w.nodes[c].parents| && Fine(w, c)
    requires OutputMoved(w.nodes[c].op, out, w.seen[c], w.seen[c][m := Content(w, from)], gc)
    ensures var w1 := Sent(w, from, c, m, gc);
            && Sized(w1) && Prepared(w1, c) && StateOk(w1.states[c], Content(w, c))
            && Applicable(Content(w, c), out) && Moves(Content(w, c), out, Content(w1, c))
  {
    var w1 := Sent(w, from, c, m, gc);
    assert Content(w, c) == Eval(w.nodes[c].op, w.seen[c][0], w.seen[c][1]);
    assert Content(w1, c) == Eval(w.nodes[c].op, w1.seen[c][0], w1.seen[c][1]);
  }

  lemma ChildArrived(w: World, good: set<nat>, path: set<nat>, from: nat, served: seq<nat>, old_: seq<Row>,
                     c: nat, m: nat, gc: map<Row, Group>, out: seq<Record>)
    requires Sized(w) && UpClosed(w.nodes, good) && from < |w.nodes| && Serving(w, good, path, from, served, old_)
    requires c in good && c !in path && m < |w.nodes[c].parents| && w.nodes[c].parents[m] == from
    requires OutputMoved(w.nodes[c].op, out, w.seen[c], w.seen[c][m := Content(w, from)], gc)
    ensures Sized(Sent(w, from, c, m, gc))
    ensures Arrived(Sent(w, from, c, m, gc), good, path + {from}, c, out, Content(w, c))
  {
    var w1 := Sent(w, from, c, m, gc);
    assert Fine(w, c);
    SentMoves(w, from, c, m, gc, out);
    forall i | i in good && i != c ensures Fine(w1, i) { SentElsewhere(w, from, c, m, gc, i); }
    forall x, n | x in good && 0 <= n < |w.nodes[x].parents|
      ensures Edge(w1, path + {from}, c, [], Content(w, c), x, n)
    {
      assert Edge(w, path, from, served, old_, x, n);
      NotAboveParent(w.nodes, x, n);
      var p := w.nodes[x].parents[n];
      if p != c { SentElsewhere(w, from, c, m, gc, p); }
    }
  }

  lemma ChildServed(w: World, w2: World, b: nat, good: set<nat>, path: set<nat>, from: nat, served: seq<nat>,
                    old_: seq<Row>, c: nat, m: nat, gc: map<Row, Group>)
    requires Sized(w) && Goods(w.nodes, b, good) && OnPath(w.nodes, b, path, from) && from < |w.nodes|
    requires Serving(w, good, path, from, served, old_)
    requires c in good && m < |w.nodes[c].parents| && w.nodes[c].parents[m] == from
    requires Sized(Sent(w, from, c, m, gc)) && Confined(c, Sent(w, from, c, m, gc), w2)
    requires Settled(w2, good, path + {from})
    ensures Serving(w2, good, path, from, served + [c], old_)
  {
    SentOnce(w, w2, b, good, path, from, c, m, gc);
    forall x, n | x in good && 0 <= n < |w.nodes[x].parents| ensures Edge(w2, path, from, served + [c], old_, x, n) {
      assert Edge(w, path, from, served, old_, x, n);
      assert w2.nodes[x].parents[n] !in path + {from} ==> AtRest(w2, x, n);
      ServedEdge(w, w2, path, from, served, old_, c, m, gc, x, n);
    }
  }

  lemma SentOnce(w: World, w2: World, b: nat, good: set<nat>, path: set<nat>, from: nat, c: nat, m: nat, gc: map<Row,
                 Group>)
    requires Sized(w) && Goods(w.nodes, b, good) && OnPath(w.nodes, b, path, from) && from < |w.nodes|
    requires c in good && m < |w.nodes[c].parents| && w.nodes[c].parents[m] == from
    requires Sized(Sent(w, from, c, m, gc)) && Confined(c, Sent(w, from, c, m, gc), w2)
    ensures !Reaches(w.nodes, c, from) && Content(w2, from) == Content(w, from)
    ensures forall n :: 0 <= n < |w.nodes[c].parents| && w.nodes[c].parents[n] == from ==> n == m
  {
    OneInput(w.nodes, b, good, path, from, c, m);
    NotAboveParent(w.nodes, c, m);
    SenderKept(w, Sent(w, from, c, m, gc), w2, from, c, m, gc);
  }

  lemma OneInput(nodes: seq<Node>, b: nat, good: set<nat>, path: set<nat>, from: nat, c: nat, m: nat)
    requires WellFormed(nodes) && Goods(nodes, b, good) && OnPath(nodes, b, path, from)
    requires c in good && m < |nodes[c].parents| && nodes[c].parents[m] == from
    ensures forall n :: 0 <= n < |nodes[c].parents| && nodes[c].parents[n] == from ==> n == m
  {
    if nodes[c].op.Join? { OtherInputOff(nodes, b, good, path, from, c, m); }
  }

  lemma SenderKept(w: World, w1: World, w2: World, from: nat, c: nat, m: nat, gc: map<Row, Group>)
    requires Sized(w) && from < c < |w.nodes| && m < 2 && w1 == Sent(w, from, c, m, gc) && Sized(w1)
    requires !Reaches(w.nodes, c, from) && Confined(c, w1, w2)
    ensures Content(w2, from) == Content(w, from)
  {
    SentElsewhere(w, from, c, m, gc, from);
    ContentKept(w1, w2, c, from);
  }

  lemma ServedEdge(w: World, w2: World, path: set<nat>, from: nat, served: seq<nat>, old_: seq<Row>,
                   c: nat, m: nat, gc: map<Row, Group>, x: nat, n: nat)
    requires Sized(w) && from < |w.nodes| && c < |w.nodes| && m < |w.nodes[c].parents| && w.nodes[c].parents[m] == from
    requires Sized(Sent(w, from, c, m, gc)) && Confined(c, Sent(w, from, c, m, gc), w2)
    requires !Reaches(w.nodes, c, from) && from !in path && Content(w2, from) == Content(w, from)
    requires x < |w.nodes| && n < |w.nodes[x].parents| && Edge(w, path, from, served, old_, x, n)
    requires x == c && w.nodes[x].parents[n] == from ==> n == m
    requires w.nodes[x].parents[n] !in path + {from} ==> AtRest(w2, x, n)
    ensures Edge(w2, path, from, served + [c], old_, x, n)
  {
    var w1 := Sent(w, from, c, m, gc);
    if w.nodes[x].parents[n] == from {
      assert w2.seen[x][n] == w1.seen[x][n];
    }
  }

  lemma BadChildServed(w: World, w2: World, good: set<nat>, path: set<nat>, from: nat, served: seq<nat>,
                       old_: seq<Row>, c: nat, gc: map<Row, Group>)
    requires Sized(w) && UpClosed(w.nodes, good) && Serving(w, good, path, from, served, old_)
    requires c < |w.nodes| && c !in good && Confined(c, w.(groups := w.groups[c := gc]), w2)
    ensures Serving(w2, good, path, from, served + [c], old_)
  {
    var w1 := w.(groups := w.groups[c := gc]);
    forall i | i in good ensures Fine(w2, i) {
      assert Fine(w, i);
      assert Content(w1, i) == Content(w, i);
      FineKept(w1, w2, c, i);
    }
    forall x, n | x in good && 0 <= n < |w.nodes[x].parents| ensures Edge(w2, path, from, served + [c], old_, x, n) {
      assert Edge(w, path, from, served, old_, x, n);
      GoodParent(w.nodes, good, x, n);
      var p := w.nodes[x].parents[n];
      assert Content(w1, p) == Content(w, p);
      RestKept(w1, w2, c, x, n);
    }
  }

  lemma AllServed(w: World, good: set<nat>, path: set<nat>, from: nat, old_: seq<Row>)
    requires Sized(w) && UpClosed(w.nodes, good) && from < |w.nodes|
    requires Serving(w, good, path, from, w.nodes[from].children, old_)
    ensures Settled(w, good, path)
  {
    forall c, m | c in good && 0 <= m < |w.nodes[c].parents| && w.nodes[c].parents[m] !in path ensures AtRest(w, c, m) {
      assert Edge(w, path, from, w.nodes[from].children, old_, c, m);
      assert ParentsLinked(w.nodes, c);
    }
  }

  /** A good child is listed once. */
  lemma NotServedYet(nodes: seq<Node>, b: nat, good: set<nat>, path: set<nat>, from: nat, k: nat)
    requires WellFormed(nodes) && Goods(nodes, b, good) && OnPath(nodes, b, path, from) && from < |nodes|
    requires k < |nodes[from].children| && nodes[from].children[k] in good
    ensures nodes[from].children[k] !in nodes[from].children[..k]
  {
    var c := nodes[from].children[k];
    assert ChildrenLinked(nodes, from);
    if nodes[c].op.Join? && nodes[c].parents[0] == from { OtherInputOff(nodes, b, good, path, from, c, 0); }
    assert nodes[c].parents != [from, from];
  }

  // ---------------------------------------------------------------------------
  // What is sent where, in a graph without aggregates
  // ---------------------------------------------------------------------------

  datatype Sending = Sending(node: nat, records: seq<Record>)

  datatype Run = Run(states: States, log: seq<Sending>)

  ghost predicate NoAggregates(nodes: seq<Node>) {
    forall i :: 0 <= i < |nodes| ==> !nodes[i].op.Aggregate?
  }

  /** Position of the sender among the child's inputs, 0 if absent. */
  function IndexOf(xs: seq<nat>, x: nat): (i: nat)
    ensures x in xs ==> i < |xs| && xs[i] == x
    ensures x !in xs ==> i == 0
  {
    if x !in xs then 0 else if xs[0] == x then 0 else 1 + IndexOf(xs[1..], x)
  }

  /** The state an operator is given: a join's other input, else the node's own. */
  function StateFor(nodes: seq<Node>, states: States, c: nat, m: nat): Option<MemoryState>
    requires WellFormed(nodes) && |states| == |nodes| && c < |nodes| && m < 2
  {
    if |nodes[c].parents| > 1 then states[nodes[c].parents[1 - m]] else states[c]
  }

  /** Depth first: the node's own state, then each child and everything below it. */
  function Flow(nodes: seq<Node>, states: States, from: nat, d: seq<Record>): (r: Run)
    requires WellFormed(nodes) && |states| == |nodes| && from < |nodes|
    ensures |r.states| == |nodes|
    decreases |nodes| - from, |nodes[from].children| + 1
  {
    if d == [] then Run(states, [])
    else
      var r := FlowChildren(nodes, Updated(states, from, d), from, 0, d);
      Run(r.states, [Sending(from, d)] + r.log)
  }

  function FlowChildren(nodes: seq<Node>, states: States, from: nat, k: nat, d: seq<Record>): (r: Run)
    requires WellFormed(nodes) && |states| == |nodes| && from < |nodes| && k <= |nodes[from].children|
    ensures |r.states| == |nodes|
    decreases |nodes| - from, |nodes[from].children| - k
  {
    if k == |nodes[from].children| then Run(states, [])
    else
      ReachesChild(nodes, from, k);
      var c := nodes[from].children[k];
      var m := IndexOf(nodes[c].parents, from);
      var r := Flow(nodes, states, c, Output(nodes[c].op, m, d, StateFor(nodes, states, c, m)));
      var rest := FlowChildren(nodes, r.states, from, k + 1, d);
      Run(rest.states, r.log + rest.log)
  }

  // ---------------------------------------------------------------------------
  // Answers under a write
  // ---------------------------------------------------------------------------

  /** A query over tables that were not written has the same answer. */
  lemma {:induction false} AnswerApart(nodes: seq<Node>, tables: seq<seq<Row>>, b: nat, rows: seq<Row>, i: nat)
    requires WellFormed(nodes) && |tables| == |nodes| && b < |nodes| && i < |nodes| && !Reaches(nodes, b, i)
    ensures Answer(nodes, tables[b := rows], i) == Answer(nodes, tables, i)
    decreases i
  {
    forall k | 0 <= k < |nodes[i].parents|
      ensures Answer(nodes, tables[b := rows], nodes[i].parents[k]) == Answer(nodes, tables, nodes[i].parents[k])
    {
      AnswerApart(nodes, tables, b, rows, nodes[i].parents[k]);
    }
  }

  /** Over empty tables every query is empty. */
  lemma {:induction false} AnswerEmpty(nodes: seq<Node>, tables: seq<seq<Row>>, i: nat)
    requires WellFormed(nodes) && |tables| == |nodes| && i < |nodes|
    requires forall j :: 0 <= j < |tables| ==> tables[j] == []
    ensures Answer(nodes, tables, i) == []
    decreases i
  {
    forall k | 0 <= k < |nodes[i].parents| ensures Answer(nodes, tables, nodes[i].parents[k]) == [] {
      AnswerEmpty(nodes, tables, nodes[i].parents[k]);
    }
  }

  /** Before a write every node has seen the queries of its inputs. */
  ghost function SeenAll(nodes: seq<Node>, tables: seq<seq<Row>>): (v: Seen)
    requires WellFormed(nodes) && |tables| == |nodes|
    ensures |v| == |nodes| && forall i :: 0 <= i < |v| ==> |v[i]| == 2
  {
    seq(|nodes|, i requires 0 <= i < |nodes| => [InputAnswer(nodes, tables, i, 0), InputAnswer(nodes, tables, i, 1)])
  }

  ghost function InputAnswer(nodes: seq<Node>, tables: seq<seq<Row>>, i: nat, m: nat): seq<Row>
    requires WellFormed(nodes) && |tables| == |nodes| && i < |nodes|
  {
    if m < |nodes[i].parents| then Answer(nodes, tables, nodes[i].parents[m]) else []
  }

  /** The node holds its query over the tables. */
  ghost predicate NodeOk(nodes: seq<Node>, states: States, groups: AllGroups, tables: seq<seq<Row>>, i: nat)
    requires WellFormed(nodes) && |states| == |groups| == |tables| == |nodes| && i < |nodes|
  {
    && StateOk(states[i], Answer(nodes, tables, i))
    && GroupsOk(nodes[i].op, groups[i], InputAnswer(nodes, tables, i, 0)) && JoinReady(nodes, states, i)
  }

  /** So do all nodes above it. */
  ghost predicate OkAbove(nodes: seq<Node>, states: States, groups: AllGroups, tables: seq<seq<Row>>, i: nat)
    requires WellFormed(nodes) && |states| == |groups| == |tables| == |nodes|
  {
    forall a :: 0 <= a < |nodes| && Reaches(nodes, a, i) ==> NodeOk(nodes, states, groups, tables, a)
  }

  ghost function GoodNodes(nodes: seq<Node>, states: States, groups: AllGroups, tables: seq<seq<Row>>, b: nat): set<nat>
    requires WellFormed(nodes) && |states| == |groups| == |tables| == |nodes|
  {
    set i | 0 <= i < |nodes| && OkAbove(nodes, states, groups, tables, i) && FitAbove(nodes, b, i)
  }

  lemma GoodNodesAreGood(nodes: seq<Node>, states: States, groups: AllGroups, tables: seq<seq<Row>>, b: nat)
    requires WellFormed(nodes) && |states| == |groups| == |tables| == |nodes|
    ensures Goods(nodes, b, GoodNodes(nodes, states, groups, tables, b))
  {
    var good := GoodNodes(nodes, states, groups, tables, b);
    forall a, i | i in good && 0 <= a < |nodes| && Reaches(nodes, a, i) ensures a in good {
      forall x | 0 <= x < |nodes| && Reaches(nodes, x, a)
        ensures NodeOk(nodes, states, groups, tables, x) && (nodes[x].op.Join? ==> Fit(nodes, b, x))
      {
        ReachesTransitive(nodes, x, a, i);
      }
    }
    forall c | c in good && nodes[c].op.Join? ensures Fit(nodes, b, c) {
      assert Reaches(nodes, c, c);
    }
  }

  lemma SeenContent(w: World, tables: seq<seq<Row>>, i: nat)
    requires Sized(w) && |tables| == |w.nodes| && w.seen == SeenAll(w.nodes, tables) && i < |w.nodes|
    requires w.nodes[i].op.Base? ==> w.tables[i] == tables[i]
    ensures Content(w, i) == Answer(w.nodes, tables, i)
  {
  }

  /** Before the write reaches anything, the base table is the only node whose content has moved. */
  lemma WriteArrives(w: World, tables: seq<seq<Row>>, good: set<nat>, b: nat, d: seq<Record>)
    requires Sized(w) && |tables| == |w.nodes| && b < |w.nodes| && w.nodes[b].op.Base?
    requires w.seen == SeenAll(w.nodes, tables) && w.tables == tables[b := w.tables[b]]
    requires UpClosed(w.nodes, good) && b in good
    requires forall i :: i in good ==> NodeOk(w.nodes, w.states, w.groups, tables, i)
    requires Moves(tables[b], d, w.tables[b]) && Applicable(tables[b], d)
    ensures Arrived(w, good, {}, b, d, tables[b])
  {
    forall i | i in good && i != b ensures Fine(w, i) {
      assert NodeOk(w.nodes, w.states, w.groups, tables, i);
      SeenContent(w, tables, i);
    }
    assert NodeOk(w.nodes, w.states, w.groups, tables, b);
    forall c, m | c in good && 0 <= m < |w.nodes[c].parents| ensures Edge(w, {}, b, [], tables[b], c, m) {
      var p := w.nodes[c].parents[m];
      assert w.seen[c][m] == Answer(w.nodes, tables, p);
      if p != b { SeenContent(w, tables, p); }
    }
  }

  /** With all inputs at rest every good node contains its query. */
  lemma {:induction false} RestIsAnswer(w: World, good: set<nat>, i: nat)
    requires Sized(w) && UpClosed(w.nodes, good) && Settled(w, good, {}) && i in good
    ensures multiset(Content(w, i)) == multiset(Answer(w.nodes, w.tables, i))
    ensures forall m :: 0 <= m < |w.nodes[i].parents| ==>
              multiset(w.seen[i][m]) == multiset(Answer(w.nodes, w.tables, w.nodes[i].parents[m]))
    decreases i
  {
    var ps := w.nodes[i].parents;
    forall m | 0 <= m < |ps| ensures multiset(w.seen[i][m]) == multiset(Answer(w.nodes, w.tables, ps[m])) {
      GoodParent(w.nodes, good, i, m);
      RestIsAnswer(w, good, ps[m]);
      assert AtRest(w, i, m);
    }
    if w.nodes[i].op.Join? {
      EvalPermuted(w.nodes[i].op, w.seen[i][0], w.seen[i][1],
                   Answer(w.nodes, w.tables, ps[0]), Answer(w.nodes, w.tables, ps[1]));
    } else if !w.nodes[i].op.Base? {
      EvalPermuted(w.nodes[i].op, w.seen[i][0], [], Answer(w.nodes, w.tables, ps[0]), []);
    }
  }

  lemma SettledIsOk(w: World, good: set<nat>, i: nat)
    requires Sized(w) && UpClosed(w.nodes, good) && Settled(w, good, {}) && i in good
    ensures NodeOk(w.nodes, w.states, w.groups, w.tables, i)
  {
    RestIsAnswer(w, good, i);
    assert Fine(w, i);
    if w.states[i].Some? {
      HoldsPermuted(w.states[i].value, Content(w, i), Answer(w.nodes, w.tables, i));
    }
    if w.nodes[i].op.Aggregate? {
      GroupsPermuted(w.nodes[i].op, w.groups[i], w.seen[i][0], InputAnswer(w.nodes, w.tables, i, 0));
    }
  }

  // ---------------------------------------------------------------------------
  // The executor
  // ---------------------------------------------------------------------------

  /** Every join's inputs are materialized by its key columns. */
  ghost predicate Plan(nodes: seq<Node>, keys: seq<Option<seq<nat>>>)
    requires WellFormed(nodes) && |keys| == |nodes|
  {
    forall c :: 0 <= c < |nodes| && nodes[c].op.Join? ==>
      keys[nodes[c].parents[0]] == Some([nodes[c].op.join.leftKey]) &&
      keys[nodes[c].parents[1]] == Some([nodes[c].op.join.rightKey])
  }

  lemma Applied(rows: seq<Row>, d: seq<Record>) returns (rows': seq<Row>)
    requires Applicable(rows, d)
    ensures Moves(rows, d, rows')
  {
    assert NonNegative(Plus(rows) + d) by { assert d[..|d|] == d; }
    rows' := Settle(Plus(rows) + d);
    forall r ensures Net(Plus(rows'), r) == Net(Plus(rows) + d, r) {
      assert Total(Plus(rows'), Is(r)) == Total(Plus(rows) + d, Is(r));
    }
  }

  class LocalExecutor {
    var nodes: seq<Node>
    var states: States
    var groups: AllGroups
    var baseTables: map<string, nat>
    /** The base tables the writes so far have built up (empty for other nodes). */
    ghost var tables: seq<seq<Row>>

    ghost predicate Structured()
      reads this
    {
      && WellFormed(nodes) && |states| == |groups| == |tables| == |nodes|
      && forall t :: t in baseTables ==> baseTables[t] < |nodes| && nodes[baseTables[t]].op.Base?
    }

    /** The node and all above it hold exactly their queries over the current tables. */
    ghost predicate Right(i: nat)
      requires Structured()
      reads this
    {
      OkAbove(nodes, states, groups, tables, i)
    }

    ghost predicate Valid()
      reads this
    {
      Structured() && forall i :: 0 <= i < |nodes| ==> NodeOk(nodes, states, groups, tables, i)
    }

    ghost function Now(seen: Seen): World
      reads this
    {
      World(nodes, states, groups, tables, seen)
    }

    constructor (nodes: seq<Node>, keys: seq<Option<seq<nat>>>, baseTables: map<string, nat>)
      requires WellFormed(nodes) && |keys| == |nodes|
      requires forall t :: t in baseTables ==> baseTables[t] < |nodes| && nodes[baseTables[t]].op.Base?
      ensures Structured() && this.nodes == nodes && this.baseTables == baseTables && (Plan(nodes, keys) ==> Valid())
      ensures forall i :: 0 <= i < |tables| ==> tables[i] == []
      ensures forall i :: 0 <= i < |nodes| ==> (states[i].Some? <==> keys[i].Some?)
      ensures forall i :: 0 <= i < |nodes| && keys[i].Some? ==> states[i].value.keyColumns == keys[i].value
    {
      this.nodes, this.baseTables := nodes, baseTables;
      this.states := seq(|nodes|, i requires 0 <= i < |keys| =>
        if keys[i].Some? then Some(MemoryState(keys[i].value, map[], 0)) else None);
      this.groups := seq(|nodes|, i => map[]);
      this.tables := seq(|nodes|, i => []);
      new;
      if Plan(nodes, keys) {
        forall i | 0 <= i < |nodes| ensures NodeOk(nodes, states, groups, tables, i) {
          AnswerEmpty(nodes, tables, i);
          if keys[i].Some? { HoldsEmpty(keys[i].value); }
          if nodes[i].op.Aggregate? { AnswerEmpty(nodes, tables, nodes[i].parents[0]); }
        }
      }
    }

    /** A write whose deletes name rows of the table keeps right every node that was right and all of whose
        joins are fit for it; if they all are, every materialized view stays equal to its query. */
    method ApplyWrite(table: string, records: seq<Record>)
      requires Structured()
      modifies `states, `groups, `tables
      ensures Structured() && |tables| == |old(tables)|
      ensures forall i :: 0 <= i < |nodes| ==> SameShape(old(states)[i], states[i])
      ensures table !in baseTables ==> states == old(states) && groups == old(groups) && tables == old(tables)
      ensures table in baseTables && !Applicable(old(tables)[baseTables[table]], records) ==>
                var b := baseTables[table];
                && tables == old(tables)
                && forall i :: 0 <= i < |nodes| && old(Right(i)) && !Reaches(nodes, b, i) ==> Right(i)
      ensures table in baseTables && Applicable(old(tables)[baseTables[table]], records) ==>
                var b := baseTables[table];
                && tables == old(tables)[b := tables[b]] && Moves(old(tables)[b], records, tables[b])
                && forall i :: 0 <= i < |nodes| && old(Right(i)) && FitAbove(nodes, b, i) ==> Right(i)
    {
      if table in baseTables {
        Deliver(baseTables[table], records);
      }
    }

    method Deliver(base: nat, records: seq<Record>)
      requires Structured() && base < |nodes| && nodes[base].op.Base?
      modifies `states, `groups, `tables
      ensures Structured() && |tables| == |old(tables)|
      ensures forall i :: 0 <= i < |nodes| ==> SameShape(old(states)[i], states[i])
      ensures !Applicable(old(tables)[base], records) ==>
                && tables == old(tables)
                && forall i :: 0 <= i < |nodes| && old(Right(i)) && !Reaches(nodes, base, i) ==> Right(i)
      ensures Applicable(old(tables)[base], records) ==>
                && tables == old(tables)[base := tables[base]] && Moves(old(tables)[base], records, tables[base])
                && forall i :: 0 <= i < |nodes| && old(Right(i)) && FitAbove(nodes, base, i) ==> Right(i)
    {
      ghost var t0, w := tables, Now(SeenAll(nodes, tables));
      ghost var good := {};
      if Applicable(t0[base], records) {
        good := GoodNodes(nodes, states, groups, t0, base);
        GoodNodesAreGood(nodes, states, groups, t0, base);
        ghost var rows := Applied(t0[base], records);
        tables := t0[base := rows];
        if base in good { WriteArrives(Now(SeenAll(nodes, t0)), t0, good, base, records); }
      }
      ghost var seen, log := Propagate(base, records, SeenAll(nodes, t0), good, {}, base, t0[base]);
      if Applicable(t0[base], records) {
        AllStillRight(w, Now(seen), good, base);
      } else {
        forall i | 0 <= i < |nodes| && old(Right(i)) && !Reaches(nodes, base, i) ensures Right(i) {
          UntouchedRight(w, Now(seen), base, i);
        }
      }
    }

    /** A lookup returns the bag of all rows of the view's query with that key; it misses exactly
        when there is none (or the node is not materialized). */
    method LookupView(node: nat, key: Row) returns (r: Option<seq<Row>>)
      requires Structured() && node < |nodes| && NodeOk(nodes, states, groups, tables, node)
      ensures states[node].None? ==> r.None?
      ensures states[node].Some? ==>
                (r.None? <==> RowsWith(Answer(nodes, tables, node), states[node].value.keyColumns, key) == [])
      ensures states[node].Some? && r.Some? ==>
                multiset(r.value) == multiset(RowsWith(Answer(nodes, tables, node), states[node].value.keyColumns, key))
      ensures states[node].Some? && r.Some? ==>
                forall x :: x in r.value <==>
                            RowOfQuery(nodes, tables, node, x) && HasValues(x, states[node].value.keyColumns, key)
    {
      if states[node].None? { return None; }
      LookupIsSelection(states[node].value, Answer(nodes, tables, node), key);
      forall x ensures x in multiset(RowsWith(Answer(nodes, tables, node), states[node].value.keyColumns, key)) <==>
                       RowOfQuery(nodes, tables, node, x) && HasValues(x, states[node].value.keyColumns, key)
      {
        RowsWithExactly(Answer(nodes, tables, node), states[node].value.keyColumns, key, x);
        AnswerRow(nodes, tables, node, x);
        assert x in Answer(nodes, tables, node) <==> multiset(Answer(nodes, tables, node))[x] > 0;
      }
      match Lookup(states[node].value, key) {
        case Found(rows) => r := Some(rows);
        case Empty => r := Some([]);
        case Missing => r := None;
      }
    }

    constructor Empty()
      ensures Structured() && nodes == [] && baseTables == map[]
    {
      nodes, states, groups, baseTables, tables := [], [], [], map[], [];
    }

    /** A base table is always a new node, and its name is bound to it, also if it was bound before: writes to
        the table no longer reach the node that had it. */
    method AddBaseTable(name: string) returns (idx: nat)
      requires Structured()
      modifies this
      ensures Structured() && idx == |old(nodes)| && nodes == old(nodes) + [Node(Base, [], [])]
      ensures B.Added(old(nodes), Base, [], nodes)
      ensures states == old(states) + [None] && groups == old(groups) + [map[]] && tables == old(tables) + [[]]
      ensures baseTables == old(baseTables)[name := idx]
      ensures Right(idx) && forall i :: 0 <= i < idx ==> (Right(i) <==> old(Right(i)))
    {
      idx := |nodes|;
      B.AddedIsWellFormed(nodes, Base, [], nodes + [Node(Base, [], [])]);
      nodes, states, groups := nodes + [Node(Base, [], [])], states + [None], groups + [map[]];
      tables := tables + [[]];
      baseTables := baseTables[name := idx];
      forall i | 0 <= i < idx ensures Right(i) <==> old(Right(i)) {
        RightExtended(old(nodes), old(states), old(groups), old(tables), nodes, states, groups, tables, i);
      }
      forall a | 0 <= a < |nodes| && Reaches(nodes, a, idx) ensures a == idx {}
    }

    /** A new operator is right exactly when its inputs are, a join finds them materialized on its keys, and a
        grouping, whose statistics start empty, has no input rows yet. */
    method AddOperator(op: Op, parents: seq<nat>) returns (idx: nat)
      requires Structured() && !op.Base? && B.FitsArity(op, parents)
      requires forall k :: 0 <= k < |parents| ==> parents[k] < |nodes|
      modifies this
      ensures Structured() && idx == |old(nodes)| && B.Added(old(nodes), op, parents, nodes)
      ensures states == old(states) + [None] && groups == old(groups) + [map[]] && tables == old(tables) + [[]]
      ensures baseTables == old(baseTables)
      ensures forall i :: 0 <= i < idx ==> (Right(i) <==> old(Right(i)))
      ensures Right(idx) <==>
              && (forall k :: 0 <= k < |parents| ==> Right(parents[k])) && JoinReady(nodes, states, idx)
              && (op.Aggregate? ==> Answer(nodes, tables, parents[0]) == [])
    {
      nodes, idx := B.AddOperator(nodes, op, parents);
      states, groups := states + [None], groups + [map[]];
      tables := tables + [[]];
      forall i | 0 <= i < idx ensures Right(i) <==> old(Right(i)) {
        RightExtended(old(nodes), old(states), old(groups), old(tables), nodes, states, groups, tables, i);
      }
      RightFromParents(nodes, states, groups, tables, idx);
    }

    /** Materializing starts from an empty state, also for a node that already has rows: the executor is
        right afterwards exactly when that node's query is empty and the joins still find their keys. */
    method Materialize(node: nat, keyColumns: seq<nat>)
      requires Structured() && node < |nodes|
      modifies `states
      ensures Structured() && states == old(states)[node := Some(MemoryState(keyColumns, map[], 0))]
      ensures old(Valid()) ==>
                (Valid() <==> Answer(nodes, tables, node) == [] &&
                              forall c :: 0 <= c < |nodes| ==> JoinReady(nodes, states, c))
      ensures forall i :: 0 <= i < |nodes| && old(Right(i)) && !Reaches(nodes, node, i) ==> Right(i)
    {
      ghost var s0 := states;
      states := states[node := Some(MemoryState(keyColumns, map[], 0))];
      HoldsEmpty(keyColumns);
      forall i | 0 <= i < |nodes| && old(Right(i)) && !Reaches(nodes, node, i) ensures Right(i) {
        KeptElsewhere(nodes, s0, groups, tables, node, states[node], i);
      }
      if old(Valid()) {
        MaterializedValid(nodes, s0, groups, tables, node, keyColumns);
      }
    }

    method Propagate(from: nat, records: seq<Record>, ghost seen: Seen, ghost good: set<nat>, ghost path: set<nat>,
                     ghost b: nat, ghost old_: seq<Row>)
      returns (ghost seen': Seen, ghost log: seq<Sending>)
      requires Sized(Now(seen)) && from < |nodes| && Goods(nodes, b, good)
      requires from in good ==> OnPath(nodes, b, path, from) && Arrived(Now(seen), good, path, from, records, old_)
      modifies `states, `groups
      ensures Confined(from, old(Now(seen)), Now(seen'))
      ensures from in good ==> Settled(Now(seen'), good, path)
      ensures NoAggregates(nodes) ==> Run(states, log) == Flow(nodes, old(states), from, records)
      decreases |nodes| - from, 2
    {
      seen', log := seen, [];
      if records == [] {
        if from in good { NothingArrived(Now(seen), good, path, from, old_); }
        return;
      }
      ghost var w := Now(seen);
      UpdateSource(from, records, seen, good, path, b, old_);
      seen', log := ServeChildren(from, records, w, seen, good, path, b, old_);
      log := [Sending(from, records)] + log;
      EndServing(w, Now(seen'), good, path, b, from, records, old_);
    }

    /** The loop over the children. */
    method ServeChildren(from: nat, records: seq<Record>, ghost w: World, ghost seen: Seen, ghost good: set<nat>,
                         ghost path: set<nat>, ghost b: nat, ghost old_: seq<Row>)
      returns (ghost seen': Seen, ghost log: seq<Sending>)
      requires from < |nodes| && ServedUpTo(w, Now(seen), good, path, b, from, records, old_, 0)
      modifies `states, `groups
      ensures ServedUpTo(w, Now(seen'), good, path, b, from, records, old_, |nodes[from].children|)
      ensures NoAggregates(nodes) ==> Run(states, log) == FlowChildren(nodes, old(states), from, 0, records)
      decreases |nodes| - from, 1
    {
      seen', log := seen, [];
      ghost var whole := FlowChildren(nodes, states, from, 0, records);
      assert [] + whole.log == whole.log;
      for k := 0 to |nodes[from].children|
        invariant ServedUpTo(w, Now(seen'), good, path, b, from, records, old_, k)
        invariant NoAggregates(nodes) ==> whole == Then(log, FlowChildren(nodes, states, from, k, records))
      {
        ghost var s := states;
        ghost var more;
        seen', more := PropagateToChild(from, k, records, w, seen', good, path, b, old_);
        if NoAggregates(nodes) { ThenNext(log, nodes, s, from, k, records); }
        log := log + more;
      }
    }

    method UpdateSource(from: nat, records: seq<Record>, ghost seen: Seen, ghost good: set<nat>, ghost path: set<nat>,
                        ghost b: nat, ghost old_: seq<Row>)
      requires Sized(Now(seen)) && from < |nodes| && Goods(nodes, b, good)
      requires from in good ==> OnPath(nodes, b, path, from) && Arrived(Now(seen), good, path, from, records, old_)
      modifies `states
      ensures states == Updated(old(states), from, records)
      ensures ServedUpTo(old(Now(seen)), Now(seen), good, path, b, from, records, old_, 0)
    {
      StartServing(Now(seen), good, path, b, from, records, old_);
      if states[from].Some? {
        var s' := ProcessRecords(states[from].value, records);
        states := states[from := Some(s')];
      }
    }

    method PropagateToChild(from: nat, k: nat, records: seq<Record>, ghost w0: World, ghost seen: Seen,
                            ghost good: set<nat>, ghost path: set<nat>, ghost b: nat, ghost old_: seq<Row>)
      returns (ghost seen': Seen, ghost log: seq<Sending>)
      requires from < |nodes| && k < |nodes[from].children|
      requires ServedUpTo(w0, Now(seen), good, path, b, from, records, old_, k)
      modifies `states, `groups
      ensures ServedUpTo(w0, Now(seen'), good, path, b, from, records, old_, k + 1)
      ensures NoAggregates(nodes) ==> Run(states, log) == FlowChild(nodes, old(states), from, k, records)
      decreases |nodes| - from, 0
    {
      ReachesChild(nodes, from, k);
      var c := nodes[from].children[k];
      var m := IndexOf(nodes[c].parents, from);
      ghost var w := Now(seen);
      var out, gc := ProcessChild(from, k, m, records, w0, seen, good, path, b, old_);
      groups := groups[c := gc];
      ghost var w1 := AtChild(w, good, from, c, m, gc);
      seen', log := Propagate(c, out, w1.seen, good, path + {from}, b, Content(w, c));
      AfterChild(w0, w, Now(seen'), good, path, b, from, records, old_, k, m, gc);
    }

    method ProcessChild(from: nat, k: nat, m: nat, records: seq<Record>, ghost w0: World, ghost seen: Seen,
                        ghost good: set<nat>, ghost path: set<nat>, ghost b: nat, ghost old_: seq<Row>)
      returns (out: seq<Record>, gc: map<Row, Group>)
      requires from < |nodes| && k < |nodes[from].children| && nodes[from].children[k] < |nodes|
      requires m < |nodes[nodes[from].children[k]].parents| && nodes[nodes[from].children[k]].parents[m] == from
      requires ServedUpTo(w0, Now(seen), good, path, b, from, records, old_, k)
      ensures var c, w := nodes[from].children[k], Now(seen);
              var w1 := AtChild(w, good, from, c, m, gc);
              && Sized(w1)
              && (c in good ==>
                    OnPath(nodes, b, path + {from}, c) && Arrived(w1, good, path + {from}, c, out, Content(w, c)))
      ensures var c := nodes[from].children[k];
              !nodes[c].op.Aggregate? ==>
                out == Output(nodes[c].op, m, records, StateFor(nodes, states, c, m)) && gc == groups[c]
    {
      var c := nodes[from].children[k];
      var other := if |nodes[c].parents| > 1 then states[nodes[c].parents[1 - m]] else states[c];
      ghost var w := Now(seen);
      BeforeChild(w0, w, good, path, b, from, records, old_, k, m, other);
      out, gc := Process(nodes[c].op, m, records, other, groups[c], seen[c], Content(w, from));
      MidChild(w0, w, good, path, b, from, records, old_, k, m, gc, out);
    }
  }

  /** The world as the child is sent the delta; for a node that is not good nothing is tracked. */
  ghost function AtChild(w: World, good: set<nat>, from: nat, c: nat, m: nat, gc: map<Row, Group>): World
    requires Sized(w) && from < |w.nodes| && c < |w.nodes| && m < 2
  {
    if c in good then Sent(w, from, c, m, gc) else w.(groups := w.groups[c := gc])
  }

  /** Loop invariant: since `w0` only what is below `from` was touched, and its first `k` children are served. */
  ghost predicate ServedUpTo(w0: World, w: World, good: set<nat>, path: set<nat>, b: nat, from: nat, d: seq<Record>,
                             old_: seq<Row>, k: nat)
  {
    && Sized(w0) && from < |w0.nodes| && Confined(from, w0, w) && Goods(w.nodes, b, good)
    && k <= |w.nodes[from].children|
    && (from in good ==>
          && OnPath(w.nodes, b, path, from) && Applicable(old_, d) && Moves(old_, d, Content(w, from))
          && Serving(w, good, path, from, w.nodes[from].children[..k], old_))
  }

  lemma StartServing(w: World, good: set<nat>, path: set<nat>, b: nat, from: nat, d: seq<Record>, old_: seq<Row>)
    requires Sized(w) && from < |w.nodes| && Goods(w.nodes, b, good)
    requires from in good ==> OnPath(w.nodes, b, path, from) && Arrived(w, good, path, from, d, old_)
    ensures ServedUpTo(w, w.(states := Updated(w.states, from, d)), good, path, b, from, d, old_, 0)
  {
    SourceUpdated(w, good, path, from, d, old_);
    assert w.nodes[from].children[..0] == [];
    assert Content(w.(states := Updated(w.states, from, d)), from) == Content(w, from);
  }

  lemma EndServing(w0: World, w: World, good: set<nat>, path: set<nat>, b: nat, from: nat, d: seq<Record>,
                   old_: seq<Row>)
    requires Sized(w0) && from < |w0.nodes| && |w0.nodes| == |w.nodes|
    requires ServedUpTo(w0, w, good, path, b, from, d, old_, |w.nodes[from].children|)
    ensures from in good ==> Settled(w, good, path)
  {
    assert w.nodes[from].children[..|w.nodes[from].children|] == w.nodes[from].children;
    if from in good { AllServed(w, good, path, from, old_); }
  }

  lemma BeforeChild(w0: World, w: World, good: set<nat>, path: set<nat>, b: nat, from: nat, d: seq<Record>,
                    old_: seq<Row>, k: nat, m: nat, other: Option<MemoryState>)
    requires ServedUpTo(w0, w, good, path, b, from, d, old_, k) && k < |w.nodes[from].children|
    requires w.nodes[from].children[k] < |w.nodes|
    requires m < |w.nodes[w.nodes[from].children[k]].parents| && w.nodes[w.nodes[from].children[k]].parents[m] == from
    requires var c := w.nodes[from].children[k];
             w.nodes[c].op.Join? ==> other == w.states[w.nodes[c].parents[1 - m]]
    ensures var c := w.nodes[from].children[k];
            c in good ==> InputMoved(w.nodes[c].op, m, d, w.seen[c], Content(w, from), other, w.groups[c])
  {
    var c := w.nodes[from].children[k];
    if c in good {
      GoodParent(w.nodes, good, c, m);
      NotServedYet(w.nodes, b, good, path, from, k);
      ChildInputMoved(w, b, good, path, from, w.nodes[from].children[..k], old_, d, c, m, other);
    }
  }

  lemma MidChild(w0: World, w: World, good: set<nat>, path: set<nat>, b: nat, from: nat, d: seq<Record>,
                 old_: seq<Row>, k: nat, m: nat, gc: map<Row, Group>, out: seq<Record>)
    requires ServedUpTo(w0, w, good, path, b, from, d, old_, k) && k < |w.nodes[from].children|
    requires w.nodes[from].children[k] < |w.nodes|
    requires m < |w.nodes[w.nodes[from].children[k]].parents| && w.nodes[w.nodes[from].children[k]].parents[m] == from
    requires var c := w.nodes[from].children[k];
             c in good ==> OutputMoved(w.nodes[c].op, out, w.seen[c], w.seen[c][m := Content(w, from)], gc)
    ensures var c := w.nodes[from].children[k];
            var w1 := AtChild(w, good, from, c, m, gc);
            && Sized(w1)
            && (c in good ==>
                  OnPath(w.nodes, b, path + {from}, c) && Arrived(w1, good, path + {from}, c, out, Content(w, c)))
  {
    var c := w.nodes[from].children[k];
    if c in good {
      GoodParent(w.nodes, good, c, m);
      PathGrows(w.nodes, b, path, from, k);
      ChildArrived(w, good, path, from, w.nodes[from].children[..k], old_, c, m, gc, out);
    }
  }

  lemma AfterChild(w0: World, w: World, w2: World, good: set<nat>, path: set<nat>, b: nat, from: nat, d: seq<Record>,
                   old_: seq<Row>, k: nat, m: nat, gc: map<Row, Group>)
    requires ServedUpTo(w0, w, good, path, b, from, d, old_, k) && k < |w.nodes[from].children|
    requires w.nodes[from].children[k] < |w.nodes|
    requires m < |w.nodes[w.nodes[from].children[k]].parents| && w.nodes[w.nodes[from].children[k]].parents[m] == from
    requires var c := w.nodes[from].children[k];
             var w1 := AtChild(w, good, from, c, m, gc);
             Sized(w1) && Confined(c, w1, w2) && (c in good ==> Settled(w2, good, path + {from}))
    ensures ServedUpTo(w0, w2, good, path, b, from, d, old_, k + 1)
  {
    StillConfined(w0, w, w2, good, from, k, m, gc);
    if from in good {
      ContentKept(w0, w, from, from);
      ContentKept(w0, w2, from, from);
      ServingNext(w, w2, good, path, b, from, old_, k, m, gc);
    }
  }

  lemma ServingNext(w: World, w2: World, good: set<nat>, path: set<nat>, b: nat, from: nat, old_: seq<Row>,
                    k: nat, m: nat, gc: map<Row, Group>)
    requires Sized(w) && Goods(w.nodes, b, good) && OnPath(w.nodes, b, path, from) && from in good
    requires k < |w.nodes[from].children| && w.nodes[from].children[k] < |w.nodes|
    requires Serving(w, good, path, from, w.nodes[from].children[..k], old_)
    requires m < |w.nodes[w.nodes[from].children[k]].parents| && w.nodes[w.nodes[from].children[k]].parents[m] == from
    requires var c := w.nodes[from].children[k];
             var w1 := AtChild(w, good, from, c, m, gc);
             Sized(w1) && Confined(c, w1, w2) && (c in good ==> Settled(w2, good, path + {from}))
    ensures Serving(w2, good, path, from, w.nodes[from].children[..k + 1], old_)
  {
    var c, served := w.nodes[from].children[k], w.nodes[from].children[..k];
    TakeNext(w.nodes[from].children, k);
    OneMoreServed(w, w2, good, path, b, from, old_, served, c, m, gc);
  }

  lemma TakeNext(xs: seq<nat>, k: nat)
    requires k < |xs|
    ensures xs[..k + 1] == xs[..k] + [xs[k]]
  {
  }

  lemma OneMoreServed(w: World, w2: World, good: set<nat>, path: set<nat>, b: nat, from: nat, old_: seq<Row>,
                      served: seq<nat>, c: nat, m: nat, gc: map<Row, Group>)
    requires Sized(w) && Goods(w.nodes, b, good) && OnPath(w.nodes, b, path, from) && from in good
    requires c < |w.nodes| && Serving(w, good, path, from, served, old_)
    requires m < |w.nodes[c].parents| && w.nodes[c].parents[m] == from
    requires var w1 := AtChild(w, good, from, c, m, gc);
             Sized(w1) && Confined(c, w1, w2) && (c in good ==> Settled(w2, good, path + {from}))
    ensures Serving(w2, good, path, from, served + [c], old_)
  {
    if c in good {
      ChildServed(w, w2, b, good, path, from, served, old_, c, m, gc);
    } else {
      BadChildServed(w, w2, good, path, from, served, old_, c, gc);
    }
  }

  lemma StillConfined(w0: World, w: World, w2: World, good: set<nat>, from: nat, k: nat, m: nat, gc: map<Row, Group>)
    requires Sized(w0) && from < |w0.nodes| && Confined(from, w0, w) && k < |w.nodes[from].children|
    requires w.nodes[from].children[k] < |w.nodes|
    requires m < |w.nodes[w.nodes[from].children[k]].parents| && w.nodes[w.nodes[from].children[k]].parents[m] == from
    requires var c := w.nodes[from].children[k];
             var w1 := AtChild(w, good, from, c, m, gc);
             Sized(w1) && Confined(c, w1, w2)
    ensures Confined(from, w0, w2)
  {
    var c := w.nodes[from].children[k];
    ReachesChild(w.nodes, from, k);
    var w1 := AtChild(w, good, from, c, m, gc);
    SentConfined(w, w1, from, c, m, gc);
    ConfinedOnward(w, w1, w2, from, c);
    ConfinedTwice(w0, w, w2, from);
  }

  function Then(log: seq<Sending>, r: Run): Run {
    Run(r.states, log + r.log)
  }

  lemma ThenNext(log: seq<Sending>, nodes: seq<Node>, states: States, from: nat, k: nat, d: seq<Record>)
    requires WellFormed(nodes) && |states| == |nodes| && from < |nodes| && k < |nodes[from].children|
    ensures var r := FlowChild(nodes, states, from, k, d);
            |r.states| == |nodes| &&
            Then(log, FlowChildren(nodes, states, from, k, d)) ==
            Then(log + r.log, FlowChildren(nodes, r.states, from, k + 1, d))
  {
    var r := FlowChild(nodes, states, from, k, d);
    var rest := FlowChildren(nodes, r.states, from, k + 1, d);
    assert log + (r.log + rest.log) == log + r.log + rest.log;
  }

  function FlowChild(nodes: seq<Node>, states: States, from: nat, k: nat, d: seq<Record>): Run
    requires WellFormed(nodes) && |states| == |nodes| && from < |nodes| && k < |nodes[from].children|
  {
    ReachesChild(nodes, from, k);
    var c := nodes[from].children[k];
    var m := IndexOf(nodes[c].parents, from);
    Flow(nodes, states, c, Output(nodes[c].op, m, d, StateFor(nodes, states, c, m)))
  }

  lemma ConfinedTwice(w: World, w1: World, w': World, from: nat)
    requires Sized(w) && from < |w.nodes| && Confined(from, w, w1) && Confined(from, w1, w')
    ensures Confined(from, w, w')
  {
  }

  lemma SentConfined(w: World, w1: World, from: nat, c: nat, m: nat, gc: map<Row, Group>)
    requires Sized(w) && from < c < |w.nodes| && m < |w.nodes[c].parents| && w.nodes[c].parents[m] == from
    requires Reaches(w.nodes, from, c)
    requires w1 == Sent(w, from, c, m, gc) || w1 == w.(groups := w.groups[c := gc])
    ensures Confined(from, w, w1)
  {
  }

  lemma PathGrows(nodes: seq<Node>, b: nat, path: set<nat>, from: nat, k: nat)
    requires WellFormed(nodes) && from < |nodes| && k < |nodes[from].children| && OnPath(nodes, b, path, from)
    ensures OnPath(nodes, b, path + {from}, nodes[from].children[k])
  {
    ReachesChild(nodes, from, k);
    var c := nodes[from].children[k];
    ReachesTransitive(nodes, b, from, c);
    forall p | p in path ensures Reaches(nodes, p, c) && p != c {
      ReachesTransitive(nodes, p, from, c);
      ReachesUp(nodes, p, from);
    }
  }

  /** A node that was right and whose joins are fit is right again once the write has gone through. */
  lemma StillRight(w: World, w': World, good: set<nat>, b: nat, i: nat)
    requires Sized(w) && Sized(w') && b < |w.nodes| && w.nodes[b].op.Base? && w'.nodes == w.nodes
    requires UpClosed(w.nodes, good) && i in good
    requires forall a :: a in good ==> NodeOk(w.nodes, w.states, w.groups, w.tables, a)
    requires w'.tables == w.tables[b := w'.tables[b]]
    requires b in good ==> Settled(w', good, {})
    requires forall a :: 0 <= a < |w.nodes| && !Reaches(w.nodes, b, a) ==>
               w'.states[a] == w.states[a] && w'.groups[a] == w.groups[a]
    requires forall a :: 0 <= a < |w.nodes| ==> SameShape(w.states[a], w'.states[a])
    ensures OkAbove(w'.nodes, w'.states, w'.groups, w'.tables, i)
  {
    forall a | 0 <= a < |w.nodes| && Reaches(w.nodes, a, i)
      ensures NodeOk(w'.nodes, w'.states, w'.groups, w'.tables, a)
    {
      if b in good {
        SettledIsOk(w', good, a);
      } else {
        UntouchedOk(w, w', b, a);
      }
    }
  }

  lemma AllStillRight(w: World, w': World, good: set<nat>, b: nat)
    requires Sized(w) && Sized(w') && b < |w.nodes| && w.nodes[b].op.Base? && w'.nodes == w.nodes
    requires UpClosed(w.nodes, good)
    requires forall a :: a in good ==> NodeOk(w.nodes, w.states, w.groups, w.tables, a)
    requires w'.tables == w.tables[b := w'.tables[b]]
    requires b in good ==> Settled(w', good, {})
    requires forall a :: 0 <= a < |w.nodes| && !Reaches(w.nodes, b, a) ==>
               w'.states[a] == w.states[a] && w'.groups[a] == w.groups[a]
    requires forall a :: 0 <= a < |w.nodes| ==> SameShape(w.states[a], w'.states[a])
    ensures forall i :: i in good ==> OkAbove(w'.nodes, w'.states, w'.groups, w'.tables, i)
  {
    forall i | i in good ensures OkAbove(w'.nodes, w'.states, w'.groups, w'.tables, i) {
      StillRight(w, w', good, b, i);
    }
  }

  lemma UntouchedOk(w: World, w': World, b: nat, a: nat)
    requires Sized(w) && Sized(w') && b < |w.nodes| && w'.nodes == w.nodes && a < |w.nodes| && !Reaches(w.nodes, b, a)
    requires NodeOk(w.nodes, w.states, w.groups, w.tables, a) && w'.tables == w.tables[b := w'.tables[b]]
    requires w'.states[a] == w.states[a] && w'.groups[a] == w.groups[a]
    requires forall x :: 0 <= x < |w.nodes| ==> SameShape(w.states[x], w'.states[x])
    ensures NodeOk(w'.nodes, w'.states, w'.groups, w'.tables, a)
  {
    AnswerApart(w.nodes, w.tables, b, w'.tables[b], a);
    if |w.nodes[a].parents| > 0 {
      ParentsNotBelow(w.nodes, b, a, 0);
      AnswerApart(w.nodes, w.tables, b, w'.tables[b], w.nodes[a].parents[0]);
    }
  }

  /** What is not below a node stays right whatever is sent through it. */
  lemma UntouchedRight(w: World, w': World, from: nat, i: nat)
    requires Sized(w) && from < |w.nodes| && i < |w.nodes| && Confined(from, w, w') && !Reaches(w.nodes, from, i)
    requires OkAbove(w.nodes, w.states, w.groups, w.tables, i)
    ensures OkAbove(w'.nodes, w'.states, w'.groups, w'.tables, i)
  {
    forall a | 0 <= a < |w.nodes| && Reaches(w.nodes, a, i)
      ensures NodeOk(w'.nodes, w'.states, w'.groups, w'.tables, a)
    {
      if Reaches(w.nodes, from, a) { ReachesTransitive(w.nodes, from, a, i); }
      UntouchedOk(w, w', from, a);
    }
  }

  // ---------------------------------------------------------------------------
  // A graph that grows
  // ---------------------------------------------------------------------------

  /** More nodes; the old ones keep operator and inputs. */
  ghost predicate Grown(nodes: seq<Node>, nodes': seq<Node>) {
    && |nodes| <= |nodes'|
    && forall i :: 0 <= i < |nodes| ==> nodes'[i].op == nodes[i].op && nodes'[i].parents == nodes[i].parents
  }

  lemma {:induction false} ReachesGrown(nodes: seq<Node>, nodes': seq<Node>, a: nat, b: nat)
    requires Ordered(nodes) && Ordered(nodes') && Grown(nodes, nodes') && b < |nodes|
    ensures Reaches(nodes', a, b) <==> Reaches(nodes, a, b)
    decreases b
  {
    forall k | 0 <= k < |nodes[b].parents|
      ensures Reaches(nodes', a, nodes[b].parents[k]) <==> Reaches(nodes, a, nodes[b].parents[k])
    {
      ReachesGrown(nodes, nodes', a, nodes[b].parents[k]);
    }
  }

  lemma {:induction false} AnswerGrown(nodes: seq<Node>, nodes': seq<Node>, tables: seq<seq<Row>>,
                                       tables': seq<seq<Row>>, i: nat)
    requires WellFormed(nodes) && WellFormed(nodes') && Grown(nodes, nodes') && i < |nodes| == |tables|
    requires |tables'| == |nodes'| && tables'[..|nodes|] == tables
    ensures Answer(nodes', tables', i) == Answer(nodes, tables, i)
    decreases i
  {
    forall k | 0 <= k < |nodes[i].parents|
      ensures Answer(nodes', tables', nodes[i].parents[k]) == Answer(nodes, tables, nodes[i].parents[k])
    {
      AnswerGrown(nodes, nodes', tables, tables', nodes[i].parents[k]);
    }
    assert tables'[i] == tables'[..|nodes|][i];
  }

  /** Everything an executor holds, and it with more nodes. */
  ghost predicate Extended(nodes: seq<Node>, states: States, groups: AllGroups, tables: seq<seq<Row>>,
                           nodes': seq<Node>, states': States, groups': AllGroups, tables': seq<seq<Row>>) {
    && WellFormed(nodes) && |states| == |groups| == |tables| == |nodes|
    && WellFormed(nodes') && |states'| == |groups'| == |tables'| == |nodes'|
    && Grown(nodes, nodes') && states'[..|nodes|] == states && groups'[..|nodes|] == groups
    && tables'[..|nodes|] == tables
  }

  lemma NodeOkExtended(nodes: seq<Node>, states: States, groups: AllGroups, tables: seq<seq<Row>>,
                       nodes': seq<Node>, states': States, groups': AllGroups, tables': seq<seq<Row>>, i: nat)
    requires Extended(nodes, states, groups, tables, nodes', states', groups', tables') && i < |nodes|
    ensures NodeOk(nodes', states', groups', tables', i) <==> NodeOk(nodes, states, groups, tables, i)
  {
    AnswerGrown(nodes, nodes', tables, tables', i);
    assert states'[i] == states'[..|nodes|][i] && groups'[i] == groups'[..|nodes|][i];
    forall k | 0 <= k < |nodes[i].parents|
      ensures Answer(nodes', tables', nodes[i].parents[k]) == Answer(nodes, tables, nodes[i].parents[k])
      ensures states'[nodes[i].parents[k]] == states[nodes[i].parents[k]]
    {
      AnswerGrown(nodes, nodes', tables, tables', nodes[i].parents[k]);
      assert states'[nodes[i].parents[k]] == states'[..|nodes|][nodes[i].parents[k]];
    }
  }

  lemma RightExtended(nodes: seq<Node>, states: States, groups: AllGroups, tables: seq<seq<Row>>,
                      nodes': seq<Node>, states': States, groups': AllGroups, tables': seq<seq<Row>>, i: nat)
    requires Extended(nodes, states, groups, tables, nodes', states', groups', tables') && i < |nodes|
    ensures OkAbove(nodes', states', groups', tables', i) <==> OkAbove(nodes, states, groups, tables, i)
  {
    forall a | 0 <= a < |nodes'| && Reaches(nodes', a, i) ensures a < |nodes| { ReachesUp(nodes', a, i); }
    forall a | 0 <= a < |nodes|
      ensures Reaches(nodes', a, i) <==> Reaches(nodes, a, i)
      ensures NodeOk(nodes', states', groups', tables', a) <==> NodeOk(nodes, states, groups, tables, a)
    {
      ReachesGrown(nodes, nodes', a, i);
      NodeOkExtended(nodes, states, groups, tables, nodes', states', groups', tables', a);
    }
  }

  lemma RightFromParents(nodes: seq<Node>, states: States, groups: AllGroups, tables: seq<seq<Row>>, i: nat)
    requires WellFormed(nodes) && |states| == |groups| == |tables| == |nodes| && i < |nodes|
    requires !nodes[i].op.Base? && states[i] == None && groups[i] == map[]
    ensures OkAbove(nodes, states, groups, tables, i) <==>
            && (forall k :: 0 <= k < |nodes[i].parents| ==> OkAbove(nodes, states, groups, tables, nodes[i].parents[k]))
            && JoinReady(nodes, states, i)
            && (nodes[i].op.Aggregate? ==> Answer(nodes, tables, nodes[i].parents[0]) == [])
  {
    if nodes[i].op.Aggregate? { NothingTracked(nodes[i].op.agg, Answer(nodes, tables, nodes[i].parents[0])); }
    assert Reaches(nodes, i, i);
    forall k, a | 0 <= k < |nodes[i].parents| && 0 <= a < |nodes| && Reaches(nodes, a, nodes[i].parents[k])
      ensures Reaches(nodes, a, i)
    {
    }
  }

  /** Empty statistics are those of no rows only. */
  lemma NothingTracked(agg: AggregateOp, rows: seq<Row>)
    ensures Tracks(agg, map[], rows) <==> rows == []
  {
    if rows != [] {
      var key := GroupOf(agg, rows[|rows| - 1]);
      assert GroupCount(agg, rows, key) > 0;
      assert Known(map[], key).count == 0;
    }
  }

  lemma KeptElsewhere(nodes: seq<Node>, states: States, groups: AllGroups, tables: seq<seq<Row>>, node: nat,
                      state: Option<MemoryState>, i: nat)
    requires WellFormed(nodes) && |states| == |groups| == |tables| == |nodes| && node < |nodes| && i < |nodes|
    requires !Reaches(nodes, node, i) && OkAbove(nodes, states, groups, tables, i)
    ensures OkAbove(nodes, states[node := state], groups, tables, i)
  {
    forall a | 0 <= a < |nodes| && Reaches(nodes, a, i)
      ensures NodeOk(nodes, states[node := state], groups, tables, a)
    {
      assert a != node;
      assert NodeOk(nodes, states, groups, tables, a);
      forall k | 0 <= k < |nodes[a].parents| ensures nodes[a].parents[k] != node {
        NotAboveParent(nodes, a, k);
        if nodes[a].parents[k] == node { ReachesTransitive(nodes, node, a, i); }
      }
    }
  }

  lemma MaterializedValid(nodes: seq<Node>, states: States, groups: AllGroups, tables: seq<seq<Row>>, node: nat,
                          keyColumns: seq<nat>)
    requires WellFormed(nodes) && |states| == |groups| == |tables| == |nodes| && node < |nodes|
    requires forall i :: 0 <= i < |nodes| ==> NodeOk(nodes, states, groups, tables, i)
    ensures var now := states[node := Some(MemoryState(keyColumns, map[], 0))];
            (forall i :: 0 <= i < |nodes| ==> NodeOk(nodes, now, groups, tables, i)) <==>
            Answer(nodes, tables, node) == [] && forall c :: 0 <= c < |nodes| ==> JoinReady(nodes, now, c)
  {
    var now := states[node := Some(MemoryState(keyColumns, map[], 0))];
    HoldsEmpty(keyColumns);
    forall i | 0 <= i < |nodes|
      ensures NodeOk(nodes, now, groups, tables, i) <==>
              (i == node ==> Answer(nodes, tables, node) == []) && JoinReady(nodes, now, i)
    {
      assert NodeOk(nodes, states, groups, tables, i);
    }
    if forall i :: 0 <= i < |nodes| ==> NodeOk(nodes, now, groups, tables, i) {
      assert NodeOk(nodes, now, groups, tables, node);
      forall c | 0 <= c < |nodes| ensures JoinReady(nodes, now, c) { assert NodeOk(nodes, now, groups, tables, c); }
    }
  }
}
