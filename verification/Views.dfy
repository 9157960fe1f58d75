/** Views in a graph that grows: what their queries depend on, and how a text adds one. */
module Views {
  import opened Values
  import opened MemoryStates
  import opened Graphs
  import opened Executor
  import B = Building

  // ---------------------------------------------------------------------------
  // Queries over the tables above a node
  // ---------------------------------------------------------------------------

  ghost predicate BaseAbove(nodes: seq<Node>, k: nat, i: nat)
    requires Ordered(nodes)
  {
    k < |nodes| && nodes[k].op.Base? && Reaches(nodes, k, i)
  }

  /** Only the base tables above a node matter to its query, and not the order of their rows. */
  lemma {:induction false} AnswerPermuted(nodes: seq<Node>, tables: seq<seq<Row>>, tables': seq<seq<Row>>, i: nat)
    requires WellFormed(nodes) && |tables| == |tables'| == |nodes| && i < |nodes|
    requires forall k: nat :: BaseAbove(nodes, k, i) ==> multiset(tables[k]) == multiset(tables'[k])
    ensures multiset(Answer(nodes, tables, i)) == multiset(Answer(nodes, tables', i))
    decreases i
  {
    var ps := nodes[i].parents;
    forall m, k: nat | 0 <= m < |ps| && BaseAbove(nodes, k, ps[m]) ensures multiset(tables[k]) == multiset(tables'[k]) {
      assert BaseAbove(nodes, k, i);
    }
    match nodes[i].op
    case Base => assert BaseAbove(nodes, i, i);
    case Join(_) =>
      AnswerPermuted(nodes, tables, tables', ps[0]);
      AnswerPermuted(nodes, tables, tables', ps[1]);
      EvalPermuted(nodes[i].op, Answer(nodes, tables, ps[0]), Answer(nodes, tables, ps[1]),
                   Answer(nodes, tables', ps[0]), Answer(nodes, tables', ps[1]));
    case _ =>
      AnswerPermuted(nodes, tables, tables', ps[0]);
      EvalPermuted(nodes[i].op, Answer(nodes, tables, ps[0]), [], Answer(nodes, tables', ps[0]), []);
  }

  lemma RightItself(nodes: seq<Node>, states: States, groups: AllGroups, tables: seq<seq<Row>>, i: nat)
    requires WellFormed(nodes) && |states| == |groups| == |tables| == |nodes| && i < |nodes|
    requires OkAbove(nodes, states, groups, tables, i)
    ensures NodeOk(nodes, states, groups, tables, i)
  {
    assert Reaches(nodes, i, i);
  }

  lemma RowsWithPermuted(a: seq<Row>, b: seq<Row>, cols: seq<nat>, key: Row)
    requires multiset(a) == multiset(b)
    ensures multiset(RowsWith(a, cols, key)) == multiset(RowsWith(b, cols, key))
    ensures RowsWith(a, cols, key) == [] <==> RowsWith(b, cols, key) == []
  {
    forall r ensures multiset(RowsWith(a, cols, key))[r] == multiset(RowsWith(b, cols, key))[r] {
      RowsWithBag(a, cols, key, r);
      RowsWithBag(b, cols, key, r);
    }
    assert multiset(RowsWith(a, cols, key)) == multiset(RowsWith(b, cols, key));
    assert |multiset(RowsWith(a, cols, key))| == |RowsWith(a, cols, key)|;
  }

  // ---------------------------------------------------------------------------
  // Fit for every table above
  // ---------------------------------------------------------------------------

  /** The joins above the node are fit for a write to any base table above it. */
  ghost predicate FitsAll(nodes: seq<Node>, i: nat)
    requires WellFormed(nodes)
  {
    forall b: nat :: BaseAbove(nodes, b, i) ==> FitAbove(nodes, b, i)
  }

  /** A write that does not come by asks nothing. */
  lemma NotBelowFits(nodes: seq<Node>, b: nat, i: nat)
    requires WellFormed(nodes) && b < |nodes| && i < |nodes| && !Reaches(nodes, b, i)
    ensures FitAbove(nodes, b, i)
  {
    forall c | 0 <= c < |nodes| && nodes[c].op.Join? && Reaches(nodes, c, i) ensures Fit(nodes, b, c) {
      forall m | 0 <= m < |nodes[c].parents| ensures !Reaches(nodes, b, nodes[c].parents[m]) {
        NotAboveParent(nodes, c, m);
        if Reaches(nodes, b, nodes[c].parents[m]) {
          ReachesTransitive(nodes, b, nodes[c].parents[m], c);
          ReachesTransitive(nodes, b, c, i);
        }
      }
    }
  }

  lemma FitGrown(nodes: seq<Node>, nodes': seq<Node>, b: nat, c: nat)
    requires WellFormed(nodes) && WellFormed(nodes') && Grown(nodes, nodes') && c < |nodes| && nodes[c].op.Join?
    ensures Fit(nodes', b, c) <==> Fit(nodes, b, c)
  {
    var l, r := nodes[c].parents[0], nodes[c].parents[1];
    ReachesGrown(nodes, nodes', b, l);
    ReachesGrown(nodes, nodes', b, r);
    ReachesGrown(nodes, nodes', l, r);
    ReachesGrown(nodes, nodes', r, l);
  }

  lemma AboveGrown(nodes: seq<Node>, nodes': seq<Node>, k: nat, i: nat)
    requires WellFormed(nodes) && WellFormed(nodes') && Grown(nodes, nodes') && i < |nodes|
    ensures BaseAbove(nodes', k, i) <==> BaseAbove(nodes, k, i)
  {
    ReachesGrown(nodes, nodes', k, i);
    if Reaches(nodes', k, i) { ReachesUp(nodes', k, i); }
  }

  lemma FitAboveGrown(nodes: seq<Node>, nodes': seq<Node>, b: nat, i: nat)
    requires WellFormed(nodes) && WellFormed(nodes') && Grown(nodes, nodes') && i < |nodes|
    ensures FitAbove(nodes', b, i) <==> FitAbove(nodes, b, i)
  {
    forall c: nat ensures c < |nodes'| && Reaches(nodes', c, i) <==> c < |nodes| && Reaches(nodes, c, i) {
      ReachesGrown(nodes, nodes', c, i);
      if Reaches(nodes', c, i) { ReachesUp(nodes', c, i); }
    }
    forall c: nat | c < |nodes| && nodes[c].op.Join? ensures Fit(nodes', b, c) <==> Fit(nodes, b, c) {
      FitGrown(nodes, nodes', b, c);
    }
  }

  lemma FitsGrown(nodes: seq<Node>, nodes': seq<Node>, i: nat)
    requires WellFormed(nodes) && WellFormed(nodes') && Grown(nodes, nodes') && i < |nodes|
    ensures FitsAll(nodes', i) <==> FitsAll(nodes, i)
  {
    forall b: nat
      ensures BaseAbove(nodes', b, i) <==> BaseAbove(nodes, b, i)
      ensures FitAbove(nodes', b, i) <==> FitAbove(nodes, b, i)
    {
      AboveGrown(nodes, nodes', b, i);
      FitAboveGrown(nodes, nodes', b, i);
    }
  }

  // ---------------------------------------------------------------------------
  // The graph, and which nodes are materialized on which columns
  // ---------------------------------------------------------------------------

  type Keys = seq<Option<seq<nat>>>

  datatype Graph = Graph(nodes: seq<Node>, keys: Keys)

  function KeyColumnsOf(state: Option<MemoryState>): Option<seq<nat>> {
    match state case None => None case Some(s) => Some(s.keyColumns)
  }

  function KeyedBy(states: States): (keys: Keys)
    ensures |keys| == |states|
  {
    seq(|states|, i requires 0 <= i < |states| => KeyColumnsOf(states[i]))
  }

  ghost function GraphOf(e: LocalExecutor): Graph
    reads e
  {
    Graph(e.nodes, KeyedBy(e.states))
  }

  ghost predicate Proper(g: Graph) {
    WellFormed(g.nodes) && |g.keys| == |g.nodes|
  }

  lemma SameKeys(states: States, states': States)
    requires |states| == |states'| && forall i :: 0 <= i < |states| ==> SameShape(states[i], states'[i])
    ensures KeyedBy(states') == KeyedBy(states)
  {
    forall i | 0 <= i < |states| ensures KeyedBy(states')[i] == KeyedBy(states)[i] {
      assert SameShape(states[i], states'[i]);
    }
  }

  function Adding(nodes: seq<Node>, op: Op, parents: seq<nat>): seq<Node> {
    seq(|nodes|, p requires 0 <= p < |nodes| => B.Listing(nodes[p], p, parents, |nodes|)) + [Node(op, parents, [])]
  }

  lemma AddingIsAdded(nodes: seq<Node>, op: Op, parents: seq<nat>, nodes': seq<Node>)
    ensures B.Added(nodes, op, parents, nodes') <==> nodes' == Adding(nodes, op, parents)
  {
    if B.Added(nodes, op, parents, nodes') {
      forall p | 0 <= p < |nodes'| ensures nodes'[p] == Adding(nodes, op, parents)[p] {}
    }
  }

  function Enlarged(g: Graph, op: Op, parents: seq<nat>): Graph {
    Graph(Adding(g.nodes, op, parents), g.keys + [None])
  }

  /** With the base nodes of `k` tables. */
  function WithTables(g: Graph, k: nat): (g': Graph)
    ensures |g'.nodes| == |g.nodes| + k
  {
    if k == 0 then g else Enlarged(WithTables(g, k - 1), Base, [])
  }

  lemma MoreKeys(states: States, state: Option<MemoryState>)
    ensures KeyedBy(states + [state]) == KeyedBy(states) + [KeyColumnsOf(state)]
  {
  }

  // ---------------------------------------------------------------------------
  // Building a view
  // ---------------------------------------------------------------------------

  /** What the converter does to the graph for one text. */
  datatype Build =
    | Grow(op: Op, parents: seq<nat>)
    | Keep(node: nat, keyColumns: seq<nat>)

  /** Inputs exist, with `n` nodes there. */
  predicate Legal(build: seq<Build>, n: nat)
    decreases build
  {
    build != [] ==> LegalOne(build[0], n) && Legal(build[1..], n + if build[0].Grow? then 1 else 0)
  }

  predicate LegalOne(b: Build, n: nat) {
    match b
    case Grow(op, parents) =>
      !op.Base? && B.FitsArity(op, parents) && forall k :: 0 <= k < |parents| ==> parents[k] < n
    case Keep(node, _) => node < n
  }

  function Growth(build: seq<Build>): nat
    decreases build
  {
    if build == [] then 0 else (if build[0].Grow? then 1 else 0) + Growth(build[1..])
  }

  function BuiltOne(g: Graph, b: Build): Graph {
    match b
    case Grow(op, parents) => Enlarged(g, op, parents)
    case Keep(node, keyColumns) => if node < |g.keys| then g.(keys := g.keys[node := Some(keyColumns)]) else g
  }

  /** The graph after what one text builds. */
  function BuiltAll(g: Graph, build: seq<Build>): (g': Graph)
    ensures |g'.nodes| == |g.nodes| + Growth(build)
    decreases build
  {
    if build == [] then g else BuiltAll(BuiltOne(g, build[0]), build[1..])
  }

  /** Only nodes from `n` on are used and materialized. */
  predicate Apart(build: seq<Build>, n: nat) {
    forall j :: 0 <= j < |build| ==> ApartOne(build[j], n)
  }

  predicate ApartOne(b: Build, n: nat) {
    match b
    case Grow(_, parents) => forall k :: 0 <= k < |parents| ==> parents[k] >= n
    case Keep(node, _) => node >= n
  }

  /** The nodes from `n` on have only each other as inputs, no rows and empty states. */
  ghost predicate Fresh(nodes: seq<Node>, states: States, groups: AllGroups, tables: seq<seq<Row>>, n: nat)
    requires |states| == |groups| == |tables| == |nodes|
  {
    forall i :: n <= i < |nodes| ==>
      && (forall k :: 0 <= k < |nodes[i].parents| ==> nodes[i].parents[k] >= n)
      && tables[i] == [] && groups[i] == map[]
      && (states[i].Some? ==> states[i].value == MemoryState(states[i].value.keyColumns, map[], 0))
  }

  lemma {:induction false} FreshAnswer(nodes: seq<Node>, states: States, groups: AllGroups, tables: seq<seq<Row>>,
                                       n: nat, i: nat)
    requires WellFormed(nodes) && |states| == |groups| == |tables| == |nodes| && n <= i < |nodes|
    requires Fresh(nodes, states, groups, tables, n)
    ensures Answer(nodes, tables, i) == []
    decreases i
  {
    forall k | 0 <= k < |nodes[i].parents| ensures Answer(nodes, tables, nodes[i].parents[k]) == [] {
      FreshAnswer(nodes, states, groups, tables, n, nodes[i].parents[k]);
    }
  }

  ghost predicate JoinKeyed(nodes: seq<Node>, keys: Keys, c: nat)
    requires WellFormed(nodes) && |keys| == |nodes| && c < |nodes|
  {
    nodes[c].op.Join? ==>
      && keys[nodes[c].parents[0]] == Some([nodes[c].op.join.leftKey])
      && keys[nodes[c].parents[1]] == Some([nodes[c].op.join.rightKey])
  }

  /** Joins above the node find their inputs materialized on their keys. */
  ghost predicate Keyed(g: Graph, i: nat)
    requires Proper(g)
  {
    forall c :: 0 <= c < |g.nodes| && Reaches(g.nodes, c, i) ==> JoinKeyed(g.nodes, g.keys, c)
  }

  lemma KeyedIsReady(nodes: seq<Node>, states: States, c: nat)
    requires WellFormed(nodes) && |states| == |nodes| && c < |nodes|
    ensures JoinReady(nodes, states, c) <==> JoinKeyed(nodes, KeyedBy(states), c)
  {
  }

  lemma {:induction false} FreshStaysFresh(nodes: seq<Node>, n: nat, a: nat, i: nat)
    requires WellFormed(nodes) && n <= i < |nodes| && Reaches(nodes, a, i)
    requires forall j, k :: n <= j < |nodes| && 0 <= k < |nodes[j].parents| ==> nodes[j].parents[k] >= n
    ensures a >= n
    decreases i
  {
    if a != i {
      var k :| 0 <= k < |nodes[i].parents| && Reaches(nodes, a, nodes[i].parents[k]);
      FreshStaysFresh(nodes, n, a, nodes[i].parents[k]);
    }
  }

  /** Over empty tables a new node is right exactly when the joins above it are keyed. */
  lemma FreshRight(nodes: seq<Node>, states: States, groups: AllGroups, tables: seq<seq<Row>>, n: nat, i: nat)
    requires WellFormed(nodes) && |states| == |groups| == |tables| == |nodes| && n <= i < |nodes|
    requires Fresh(nodes, states, groups, tables, n)
    ensures OkAbove(nodes, states, groups, tables, i) <==> Keyed(Graph(nodes, KeyedBy(states)), i)
  {
    forall a | 0 <= a < |nodes| && Reaches(nodes, a, i)
      ensures NodeOk(nodes, states, groups, tables, a) <==> JoinKeyed(nodes, KeyedBy(states), a)
    {
      KeyedIsReady(nodes, states, a);
      FreshStaysFresh(nodes, n, a, i);
      FreshAnswer(nodes, states, groups, tables, n, a);
      if states[a].Some? { HoldsEmpty(states[a].value.keyColumns); }
      if nodes[a].op.Aggregate? {
        FreshAnswer(nodes, states, groups, tables, n, nodes[a].parents[0]);
        NothingTracked(nodes[a].op.agg, []);
      }
    }
  }

  predicate NoBases(nodes: seq<Node>, n: nat) {
    forall i :: n <= i < |nodes| ==> !nodes[i].op.Base?
  }

  lemma NoBasesGrown(nodes: seq<Node>, nodes': seq<Node>, n: nat)
    requires NoBases(nodes, n) && Grown(nodes, nodes') && NoBases(nodes', |nodes|)
    ensures NoBases(nodes', n)
  {
  }

  /** What happened to an executor while a view was built: old nodes and their states stay. */
  twostate predicate Built(e: LocalExecutor, n: nat)
    requires old(e.Structured())
    reads e
  {
    && e.Structured() && e.baseTables == old(e.baseTables) && n <= |old(e.nodes)|
    && Grown(old(e.nodes), e.nodes) && Fresh(e.nodes, e.states, e.groups, e.tables, n)
    && e.tables[..|old(e.tables)|] == old(e.tables)
    && NoBases(e.nodes, |old(e.nodes)|)
    && forall i :: 0 <= i < n && old(e.Right(i)) ==> e.Right(i)
  }

  lemma FreshAdded(nodes: seq<Node>, states: States, groups: AllGroups, tables: seq<seq<Row>>, n: nat,
                   op: Op, parents: seq<nat>, nodes': seq<Node>)
    requires |states| == |groups| == |tables| == |nodes| && n <= |nodes| && Fresh(nodes, states, groups, tables, n)
    requires B.Added(nodes, op, parents, nodes') && forall k :: 0 <= k < |parents| ==> parents[k] >= n
    ensures Fresh(nodes', states + [None], groups + [map[]], tables + [[]], n) && Grown(nodes, nodes')
  {
    forall i | n <= i < |nodes'|
      ensures forall k :: 0 <= k < |nodes'[i].parents| ==> nodes'[i].parents[k] >= n
      ensures (tables + [[]])[i] == [] && (groups + [map[]])[i] == map[]
    {
      if i < |nodes| { assert nodes'[i] == B.Listing(nodes[i], i, parents, |nodes|); }
    }
  }

  lemma AddedNoBase(nodes: seq<Node>, op: Op, parents: seq<nat>, nodes': seq<Node>)
    requires B.Added(nodes, op, parents, nodes') && !op.Base?
    ensures NoBases(nodes', |nodes|)
  {
  }

  method GrowOne(e: LocalExecutor, op: Op, parents: seq<nat>, ghost n: nat)
    requires e.Structured() && n <= |e.nodes| && Fresh(e.nodes, e.states, e.groups, e.tables, n)
    requires !op.Base? && B.FitsArity(op, parents)
    requires forall k :: 0 <= k < |parents| ==> n <= parents[k] < |e.nodes|
    modifies e
    ensures Built(e, n) && GraphOf(e) == Enlarged(old(GraphOf(e)), op, parents)
  {
    var idx := e.AddOperator(op, parents);
    MoreKeys(old(e.states), None);
    AddingIsAdded(old(e.nodes), op, parents, e.nodes);
    AddedNoBase(old(e.nodes), op, parents, e.nodes);
    FreshAdded(old(e.nodes), old(e.states), old(e.groups), old(e.tables), n, op, parents, e.nodes);
  }

  method KeepOne(e: LocalExecutor, node: nat, keyColumns: seq<nat>, ghost n: nat)
    requires e.Structured() && n <= node < |e.nodes| && Fresh(e.nodes, e.states, e.groups, e.tables, n)
    modifies e
    ensures Built(e, n) && GraphOf(e) == BuiltOne(old(GraphOf(e)), Keep(node, keyColumns))
  {
    e.Materialize(node, keyColumns);
    assert KeyedBy(e.states) == KeyedBy(old(e.states))[node := Some(keyColumns)];
    forall i | 0 <= i < n ensures !Reaches(e.nodes, node, i) {
      if Reaches(e.nodes, node, i) { ReachesUp(e.nodes, node, i); }
    }
  }

  lemma GrownTwice(a: seq<Node>, b: seq<Node>, c: seq<Node>)
    requires Grown(a, b) && Grown(b, c)
    ensures Grown(a, c)
  {
  }

  lemma BuildNext(build: seq<Build>, j: nat, g: Graph, size: nat)
    requires j < |build| && Legal(build[j..], size)
    ensures LegalOne(build[j], size) && Legal(build[j + 1..], size + if build[j].Grow? then 1 else 0)
    ensures BuiltAll(g, build[j..]) == BuiltAll(BuiltOne(g, build[j]), build[j + 1..])
  {
    assert build[j..][0] == build[j] && build[j..][1..] == build[j + 1..];
  }

  method BuildOne(e: LocalExecutor, b: Build, ghost n: nat)
    requires e.Structured() && n <= |e.nodes| && Fresh(e.nodes, e.states, e.groups, e.tables, n)
    requires LegalOne(b, |e.nodes|) && ApartOne(b, n)
    modifies e
    ensures Built(e, n) && GraphOf(e) == BuiltOne(old(GraphOf(e)), b)
  {
    match b {
      case Grow(op, parents) => GrowOne(e, op, parents, n);
      case Keep(node, keyColumns) => KeepOne(e, node, keyColumns, n);
    }
  }

  /** The operators and states of one text, one after the other. */
  method BuildView(e: LocalExecutor, build: seq<Build>, ghost n: nat)
    requires e.Structured() && n <= |e.nodes| && Fresh(e.nodes, e.states, e.groups, e.tables, n)
    requires Legal(build, |e.nodes|) && Apart(build, n)
    modifies e
    ensures Built(e, n) && GraphOf(e) == BuiltAll(old(GraphOf(e)), build)
  {
    var j := 0;
    while j < |build|
      invariant 0 <= j <= |build| && Built(e, n)
      invariant Legal(build[j..], |e.nodes|) && BuiltAll(GraphOf(e), build[j..]) == BuiltAll(old(GraphOf(e)), build)
    {
      BuildNext(build, j, GraphOf(e), |e.nodes|);
      assert ApartOne(build[j], n);
      ghost var before, tables := e.nodes, e.tables;
      BuildOne(e, build[j], n);
      GrownTwice(old(e.nodes), before, e.nodes);
      NoBasesGrown(before, e.nodes, |old(e.nodes)|);
      assert e.tables[..|old(e.tables)|] == e.tables[..|tables|][..|old(e.tables)|];
      j := j + 1;
    }
  }
}
