/** What a program does to the connection, statement by statement and SELECT by SELECT, and what that means for
    the views it prepares. */
module Scripts {
  import opened Graphs
  import opened Executor
  import opened Tables
  import opened Views
  import B = Building
  import C = Capture
  import W = Wires

  /** A command on the connection, or a SELECT being prepared: the tables its text names, what the converter
      builds, and the tables of the view if it is accepted. */
  datatype Event =
    | Do(cmd: C.Command)
    | Prepare(named: seq<string>, build: seq<Build>, tables: set<string>, ok: bool, sessionOk: bool)

  /** What of a connection and its dataflow is a function of the events so far: the database, the tables with
      views, whether a session is open, the content the dataflow knows, its graph, and the table each base node
      was added for. */
  datatype Moment = Moment(
    db: C.S.Db<C.Content>, viewed: set<string>, session: bool, told: C.Content, graph: Graph, names: map<nat, string>)

  /** The nodes from `n` on are those of the tables, in order. */
  function NamesWith(names: map<nat, string>, named: seq<string>, n: nat): map<nat, string> {
    if named == [] then names
    else NamesWith(names, named[..|named| - 1], n)[n + |named| - 1 := named[|named| - 1]]
  }

  /** What naming the tables makes of graph and names. */
  ghost predicate Naming(g: Graph, names: map<nat, string>, named: seq<string>, g': Graph, names': map<nat, string>) {
    g' == WithTables(g, |named|) && names' == NamesWith(names, named, |g.nodes|)
  }

  lemma NamingNext(g: Graph, names: map<nat, string>, named: seq<string>, j: nat, g': Graph, names': map<nat, string>,
                   idx: nat)
    requires j < |named| && Naming(g, names, named[..j], g', names') && idx == |g.nodes| + j
    ensures Naming(g, names, named[..j + 1], Enlarged(g', Base, []), names'[idx := named[j]])
  {
    assert named[..j + 1][..j] == named[..j];
  }

  function Next(m: Moment, event: Event): Moment {
    match event
    case Do(cmd) =>
      var db := C.Steps(m.db, C.Statements(cmd));
      m.(db := db, told := C.ToldAfter(cmd, m.db, db, m.session, m.told))
    case Prepare(named, build, tables, ok, _) =>
      m.(viewed := m.viewed + if ok then tables else {}, session := m.session || ok,
         told := if ok && !m.session then m.db.content else m.told,
         graph := BuiltAll(WithTables(m.graph, |named|), build), names := NamesWith(m.names, named, |m.graph.nodes|))
  }

  /** A database with any content, and nothing prepared. */
  function Beginning(content: C.Content): Moment {
    Moment(C.S.Closed(content), {}, false, content, Graph([], []), map[])
  }

  function After(m: Moment, events: seq<Event>): Moment
    decreases events
  {
    if events == [] then m else After(Next(m, events[0]), events[1..])
  }

  /** Sessions see what statements change and can be opened, the first one with nothing uncommitted; texts build
      on the nodes of the tables they name. */
  ghost predicate Doable(event: Event, m: Moment) {
    match event
    case Do(cmd) => C.CoveredAll(m.db, C.Statements(cmd)) && cmd.reopened
    case Prepare(named, build, _, ok, sessionOk) =>
      && Legal(build, |m.graph.nodes| + |named|) && Apart(build, |m.graph.nodes|)
      && (ok && !m.session ==> sessionOk && C.Untouched(m.db))
  }

  ghost predicate Runnable(events: seq<Event>, m: Moment)
    decreases events
  {
    events != [] ==> Doable(events[0], m) && Runnable(events[1..], Next(m, events[0]))
  }

  /** The moment before event `j`, counted from the second event on. */
  lemma AfterShifted(m: Moment, events: seq<Event>, j: nat)
    requires 0 < j <= |events|
    ensures After(m, events[..j]) == After(Next(m, events[0]), events[1..][..j - 1])
  {
    assert events[..j][1..] == events[1..][..j - 1];
  }

  // ---------------------------------------------------------------------------
  // Tables that texts name
  // ---------------------------------------------------------------------------

  predicate NamedBy(events: seq<Event>, t: string) {
    exists j :: 0 <= j < |events| && events[j].Prepare? && t in events[j].named
  }

  lemma NamedByOne(event: Event)
    requires event.Prepare?
    ensures forall t :: NamedBy([event], t) <==> t in event.named
  {
    forall t | t in event.named ensures NamedBy([event], t) { assert t in [event][0].named; }
  }

  lemma NamedFirst(events: seq<Event>, t: string)
    requires events != []
    ensures NamedBy(events, t) <==> NamedBy([events[0]], t) || NamedBy(events[1..], t)
  {
    var first, rest := [events[0]], events[1..];
    if NamedBy(first, t) { assert events[0] == first[0]; }
    if NamedBy(rest, t) {
      var i :| 0 <= i < |rest| && rest[i].Prepare? && t in rest[i].named;
      assert events[i + 1] == rest[i];
    }
    if NamedBy(events, t) {
      var i :| 0 <= i < |events| && events[i].Prepare? && t in events[i].named;
      if i == 0 { assert first[0] == events[0]; } else { assert rest[i - 1] == events[i]; }
    }
  }

  lemma NamingBoth(a: seq<W.Step>, b: seq<W.Step>, t: string)
    ensures W.Naming(a + b, t) <==> W.Naming(a, t) || W.Naming(b, t)
  {
    if W.Naming(a, t) {
      var i :| 0 <= i < |a| && a[i].Name? && a[i].table == t;
      assert (a + b)[i] == a[i];
    }
    if W.Naming(b, t) {
      var i :| 0 <= i < |b| && b[i].Name? && b[i].table == t;
      assert (a + b)[|a| + i] == b[i];
    }
    if W.Naming(a + b, t) {
      var i :| 0 <= i < |a + b| && (a + b)[i].Name? && (a + b)[i].table == t;
      if i < |a| { assert a[i] == (a + b)[i]; } else { assert b[i - |a|] == (a + b)[i]; }
    }
  }

  /** The steps name the tables the texts name. */
  ghost predicate NamesOf(trace: seq<W.Step>, events: seq<Event>) {
    forall t :: W.Naming(trace, t) <==> NamedBy(events, t)
  }

  lemma NamesOfBoth(first: seq<W.Step>, rest: seq<W.Step>, events: seq<Event>)
    requires events != [] && NamesOf(first, [events[0]]) && NamesOf(rest, events[1..])
    ensures NamesOf(first + rest, events)
  {
    forall t ensures W.Naming(first + rest, t) <==> NamedBy(events, t) {
      NamingBoth(first, rest, t);
      NamedFirst(events, t);
    }
  }

  /** Some text names a table whose node is above. */
  ghost predicate TakenAbove(nodes: seq<Node>, names: map<nat, string>, events: seq<Event>, i: nat)
    requires Ordered(nodes)
  {
    exists k: nat :: BaseAbove(nodes, k, i) && k in names && NamedBy(events, names[k])
  }

  lemma TakenFirst(nodes: seq<Node>, names: map<nat, string>, events: seq<Event>, i: nat)
    requires Ordered(nodes) && events != []
    ensures TakenAbove(nodes, names, events, i) <==>
            TakenAbove(nodes, names, [events[0]], i) || TakenAbove(nodes, names, events[1..], i)
  {
    forall k: nat | BaseAbove(nodes, k, i) && k in names
      ensures NamedBy(events, names[k]) <==> NamedBy([events[0]], names[k]) || NamedBy(events[1..], names[k])
    {
      NamedFirst(events, names[k]);
    }
  }

  /** Nodes keep the tables they were named for. */
  ghost predicate SameNames(names: map<nat, string>, names': map<nat, string>) {
    forall k :: k in names ==> k in names' && names'[k] == names[k]
  }

  ghost predicate NamedAbove(nodes: seq<Node>, names: map<nat, string>, i: nat)
    requires Ordered(nodes)
  {
    forall k: nat :: BaseAbove(nodes, k, i) ==> k in names
  }

  lemma TakenGrown(nodes: seq<Node>, names: map<nat, string>, nodes': seq<Node>, names': map<nat, string>,
                   events: seq<Event>, i: nat)
    requires WellFormed(nodes) && WellFormed(nodes') && Grown(nodes, nodes') && i < |nodes|
    requires SameNames(names, names') && NamedAbove(nodes, names, i)
    ensures TakenAbove(nodes', names', events, i) <==> TakenAbove(nodes, names, events, i)
  {
    forall k: nat ensures BaseAbove(nodes', k, i) <==> BaseAbove(nodes, k, i) {
      AboveGrown(nodes, nodes', k, i);
    }
    if TakenAbove(nodes, names, events, i) {
      var k: nat :| BaseAbove(nodes, k, i) && k in names && NamedBy(events, names[k]);
      assert BaseAbove(nodes', k, i) && k in names' && NamedBy(events, names'[k]);
    }
    if TakenAbove(nodes', names', events, i) {
      var k: nat :| BaseAbove(nodes', k, i) && k in names' && NamedBy(events, names'[k]);
      assert BaseAbove(nodes, k, i) && k in names && NamedBy(events, names[k]);
    }
  }

  lemma TakenNext(nodes: seq<Node>, names: map<nat, string>, nodes': seq<Node>, names': map<nat, string>,
                  events: seq<Event>, i: nat)
    requires WellFormed(nodes) && WellFormed(nodes') && Grown(nodes, nodes') && i < |nodes| && events != []
    requires SameNames(names, names') && NamedAbove(nodes, names, i)
    ensures TakenAbove(nodes, names, events, i) <==>
            TakenAbove(nodes, names, [events[0]], i) || TakenAbove(nodes', names', events[1..], i)
  {
    TakenFirst(nodes, names, events, i);
    TakenGrown(nodes, names, nodes', names', events[1..], i);
  }

  // ---------------------------------------------------------------------------
  // Views that answer
  // ---------------------------------------------------------------------------

  /** The last of its name among the tables of a text: it is the one the name stays with. */
  predicate LastNamed(tables: seq<string>, j: nat)
    requires j < |tables|
  {
    forall i :: j < i < |tables| ==> tables[i] != tables[j]
  }

  /** The node of a text's table, from `n` on, hears of its table and is right about it: the name stays with it,
      the table has views, and nothing has been told of it. */
  ghost predicate Starts(viewed: set<string>, told: C.Content, named: seq<string>, n: nat, k: nat) {
    && n <= k < n + |named| && LastNamed(named, k - n)
    && named[k - n] in viewed && TableBag(told, named[k - n]) == multiset{}
  }

  /** A node of a text whose nodes start at `n`: its joins are keyed and fit, and all its tables start. */
  ghost predicate Answers(g: Graph, viewed: set<string>, told: C.Content, named: seq<string>, n: nat, i: nat) {
    && Proper(g) && i < |g.nodes| && Keyed(g, i) && FitsAll(g.nodes, i)
    && forall k: nat :: BaseAbove(g.nodes, k, i) ==> Starts(viewed, told, named, n, k)
  }

  /** The text prepared at event `j` adds node `i`, and the node answers from then on. */
  ghost predicate AnswersFrom(events: seq<Event>, start: Moment, j: nat, i: nat)
    requires j < |events|
  {
    var before, now := After(start, events[..j]), After(start, events[..j + 1]);
    && events[j].Prepare? && |before.graph.nodes| <= i
    && Answers(now.graph, now.viewed, C.Restrict(now.told, now.viewed), events[j].named, |before.graph.nodes|, i)
  }

  /** A later text names a table above the node. */
  ghost predicate TakenLater(events: seq<Event>, start: Moment, j: nat, i: nat)
    requires j < |events| && AnswersFrom(events, start, j, i)
  {
    var now := After(start, events[..j + 1]);
    TakenAbove(now.graph.nodes, now.names, events[j + 1..], i)
  }

  lemma AnswersShifted(events: seq<Event>, start: Moment, j: nat, i: nat)
    requires 0 < j < |events| && AnswersFrom(events, start, j, i)
    ensures AnswersFrom(events[1..], Next(start, events[0]), j - 1, i)
    ensures TakenLater(events, start, j, i) <==> TakenLater(events[1..], Next(start, events[0]), j - 1, i)
  {
    AfterShifted(start, events, j);
    AfterShifted(start, events, j + 1);
    assert events[1..][j - 1 + 1..] == events[j + 1..];
  }

  lemma AnswersFirst(events: seq<Event>, start: Moment, i: nat)
    requires events != []
    ensures var now := Next(start, events[0]);
            && After(start, events[..0]) == start && After(start, events[..1]) == now
            && (AnswersFrom(events, start, 0, i) <==>
                events[0].Prepare? && |start.graph.nodes| <= i &&
                Answers(now.graph, now.viewed, C.Restrict(now.told, now.viewed), events[0].named,
                        |start.graph.nodes|, i))
  {
    assert events[..0] == [] && events[..1][1..] == [] && events[..1] != [];
  }

  // ---------------------------------------------------------------------------
  // Graphs of a run
  // ---------------------------------------------------------------------------

  lemma EnlargedProper(g: Graph, op: Op, parents: seq<nat>)
    requires Proper(g) && B.FitsArity(op, parents) && forall k :: 0 <= k < |parents| ==> parents[k] < |g.nodes|
    ensures Proper(Enlarged(g, op, parents))
  {
    AddingIsAdded(g.nodes, op, parents, Adding(g.nodes, op, parents));
    B.AddedIsWellFormed(g.nodes, op, parents, Adding(g.nodes, op, parents));
  }

  lemma {:induction false} TablesProper(g: Graph, k: nat)
    requires Proper(g)
    ensures Proper(WithTables(g, k))
  {
    if k > 0 {
      TablesProper(g, k - 1);
      EnlargedProper(WithTables(g, k - 1), Base, []);
    }
  }

  lemma {:induction false} BuiltProper(g: Graph, build: seq<Build>, size: nat)
    requires Proper(g) && size == |g.nodes| && Legal(build, size)
    ensures Proper(BuiltAll(g, build))
    decreases build
  {
    if build != [] {
      match build[0]
      case Grow(op, parents) =>
        EnlargedProper(g, op, parents);
        BuiltProper(BuiltOne(g, build[0]), build[1..], size + 1);
      case Keep(_, _) =>
        BuiltProper(BuiltOne(g, build[0]), build[1..], size);
    }
  }

  /** Every graph of a run is one the executor's laws are about. */
  lemma {:induction false} RunProper(m: Moment, events: seq<Event>)
    requires Proper(m.graph) && Runnable(events, m)
    ensures Proper(After(m, events).graph)
    decreases events
  {
    if events != [] {
      match events[0] {
        case Do(_) =>
        case Prepare(named, build, _, _, _) =>
          TablesProper(m.graph, |named|);
          BuiltProper(WithTables(m.graph, |named|), build, |m.graph.nodes| + |named|);
      }
      RunProper(Next(m, events[0]), events[1..]);
    }
  }
}
