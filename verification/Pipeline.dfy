/** From a statement to a cached read: captured changes drive the dataflow, and a lookup answers the query
    over the content that was last handed over, as long as no other text has taken its tables. */
module Pipeline {
  import opened Values
  import opened ZSets
  import opened MemoryStates
  import opened Operators
  import opened Graphs
  import opened Executor
  import opened Tables
  import opened Views
  import opened Scripts
  import B = Building
  import C = Capture
  import W = Wires

  lemma {:induction false} DeliveredPrefix(m: C.Content, changes: seq<C.Change>, n: nat)
    requires n < |changes| && C.Delivered(m, changes).Some?
    ensures C.Delivered(m, changes[..n]).Some?
    ensures var before := C.Delivered(m, changes[..n]).value;
            && C.Get(before, changes[n].key) == changes[n].before != changes[n].after
            && C.Delivered(m, changes[..n + 1]) == Some(C.Put(before, changes[n].key, changes[n].after))
    decreases |changes|
  {
    var front := changes[..|changes| - 1];
    if n == |front| {
      assert changes[..n + 1] == changes;
    } else {
      DeliveredPrefix(m, front, n);
      assert front[..n] == changes[..n] && front[..n + 1] == changes[..n + 1];
    }
  }

  function Tells(changes: seq<C.Change>): (steps: seq<W.Step>)
    ensures W.OnlyTells(steps)
  {
    seq(|changes|, i requires 0 <= i < |changes| => W.Tell(changes[i]))
  }

  function Names(tables: seq<string>, n: nat): (steps: seq<W.Step>)
    ensures |steps| == |tables|
  {
    seq(|tables|, i requires 0 <= i < |tables| => W.Name(tables[i], n + i))
  }

  lemma TellsNext(changes: seq<C.Change>, n: nat)
    requires n < |changes|
    ensures Tells(changes[..n + 1]) == Tells(changes[..n]) + [W.Tell(changes[n])]
  {
  }

  lemma NamesNext(w: W.State, tables: seq<string>, j: nat, n: nat, now: W.State, idx: nat, next: W.State)
    requires j < |tables| && idx == n + j && W.Leads(w, Names(tables[..j], n), now)
    requires W.Enabled(now, W.Name(tables[j], idx)) && next == W.Next(now, W.Name(tables[j], idx))
    ensures W.Leads(w, Names(tables[..j + 1], n), next)
  {
    assert Names(tables[..j + 1], n) == Names(tables[..j], n) + [W.Name(tables[j], idx)];
    W.LeadsByOne(w, Names(tables[..j], n), now, W.Name(tables[j], idx));
  }

  lemma NamesAre(tables: seq<string>, n: nat, t: string)
    ensures W.Naming(Names(tables, n), t) <==> t in tables
  {
    NamesExactly(tables, n, [], t);
    assert Names(tables, n) + [] == Names(tables, n);
  }

  /** Each naming leaves its node with the name, and the last one of a name hears of the table. */
  lemma {:induction false} NamesGiven(w: W.State, tables: seq<string>, n: nat, w': W.State, j: nat)
    requires W.Leads(w, Names(tables, n), w') && j < |tables|
    ensures n + j in w'.names && w'.names[n + j] == tables[j]
    ensures W.Live(w', n + j) <==> LastNamed(tables, j)
    decreases |tables|
  {
    var first, rest := W.Name(tables[0], n), Names(tables[1..], n + 1);
    assert Names(tables, n)[0] == first && Names(tables, n)[1..] == rest;
    W.NextConsistent(w, first);
    if j == 0 {
      FirstGiven(W.Next(w, first), tables, n, rest, w');
    } else {
      NamesGiven(W.Next(w, first), tables[1..], n + 1, w', j - 1);
      LastOfRest(tables, j);
    }
  }

  lemma FirstGiven(w: W.State, tables: seq<string>, n: nat, rest: seq<W.Step>, w': W.State)
    requires tables != [] && rest == Names(tables[1..], n + 1) && W.Leads(w, rest, w')
    requires W.Live(w, n) && w.names[n] == tables[0]
    ensures n in w'.names && w'.names[n] == tables[0] && (W.Live(w', n) <==> LastNamed(tables, 0))
  {
    W.LiveAfter(w, rest, n);
    NamesAre(tables[1..], n + 1, tables[0]);
    LastIsFirst(tables);
  }

  lemma LastIsFirst(tables: seq<string>)
    requires tables != []
    ensures LastNamed(tables, 0) <==> tables[0] !in tables[1..]
  {
    assert forall i :: 0 < i < |tables| ==> tables[i] == tables[1..][i - 1];
  }

  lemma LastOfRest(tables: seq<string>, j: nat)
    requires 0 < j < |tables|
    ensures LastNamed(tables[1..], j - 1) <==> LastNamed(tables, j)
  {
    assert forall i :: 0 < i < |tables| ==> tables[i] == tables[1..][i - 1];
  }

  predicate Has(names: map<nat, string>, k: nat, t: string) {
    k in names && names[k] == t
  }

  predicate Listens(names: map<nat, string>, bound: map<string, nat>, k: nat) {
    k in names && names[k] in bound && bound[names[k]] == k
  }

  /** The nodes from `n` on are those of the tables, in order, and each name stays with the last one. */
  predicate Named(names: map<nat, string>, bound: map<string, nat>, tables: seq<string>, n: nat) {
    forall j :: 0 <= j < |tables| ==>
      Has(names, n + j, tables[j]) && (Listens(names, bound, n + j) <==> LastNamed(tables, j))
  }

  lemma AllNamesGiven(w: W.State, tables: seq<string>, n: nat, w': W.State)
    requires W.Leads(w, Names(tables, n), w')
    ensures Named(w'.names, w'.bound, tables, n)
  {
    forall j | 0 <= j < |tables|
      ensures Has(w'.names, n + j, tables[j]) && (Listens(w'.names, w'.bound, n + j) <==> LastNamed(tables, j))
    {
      NamesGiven(w, tables, n, w', j);
    }
  }

  /** Nodes keep their names over a run. */
  lemma NamesKept(w: W.State, steps: seq<W.Step>, w': W.State)
    requires W.Leads(w, steps, w')
    ensures SameNames(w.names, w'.names)
  {
    forall k | k in w.names ensures k in w'.names && w'.names[k] == w.names[k] { W.LiveAfter(w, steps, k); }
  }

  lemma NoNames(tables: seq<string>, n: nat)
    ensures Names(tables[..0], n) == []
  {
  }

  /** Which base node hears of which table, as the executor has it. */
  ghost function Wiring(m: C.Content, viewed: set<string>, names: map<nat, string>, tables: seq<seq<Row>>,
                        bound: map<string, nat>): W.State
    requires forall k :: k in names ==> k < |tables|
  {
    W.State(m, viewed, names, map k | k in names :: multiset(tables[k]), bound)
  }

  /** What a write does to the rows of the base nodes. */
  ghost predicate Wrote(tables: seq<seq<Row>>, tables': seq<seq<Row>>, bound: map<string, nat>, e: C.Change) {
    if e.key.table !in bound then tables' == tables
    else
      var b := bound[e.key.table];
      && b < |tables| == |tables'|
      && (!Applicable(tables[b], RecordsOf(e)) ==> tables' == tables)
      && (Applicable(tables[b], RecordsOf(e)) ==>
            tables' == tables[b := tables'[b]] && Moves(tables[b], RecordsOf(e), tables'[b]))
  }

  /** The executor takes a change as the wires say. */
  lemma WritesAreHeard(m: C.Content, viewed: set<string>, names: map<nat, string>, tables: seq<seq<Row>>,
                       bound: map<string, nat>, e: C.Change, tables': seq<seq<Row>>)
    requires |tables'| == |tables| && forall k :: k in names ==> k < |tables|
    requires W.Consistent(Wiring(m, viewed, names, tables, bound)) && Wrote(tables, tables', bound, e)
    ensures Wiring(C.Put(m, e.key, e.after), viewed, names, tables', bound) ==
            W.Next(Wiring(m, viewed, names, tables, bound), W.Tell(e))
  {
    if e.key.table in bound {
      var b := bound[e.key.table];
      ChangeFits(tables[b], e);
      if Applicable(tables[b], RecordsOf(e)) { ChangeMoves(tables[b], e, tables'[b]); }
      OneBagChanged(names, tables, b, tables');
    }
  }

  lemma OneBagChanged(names: map<nat, string>, tables: seq<seq<Row>>, b: nat, tables': seq<seq<Row>>)
    requires (forall k :: k in names ==> k < |tables|) && b in names && |tables'| == |tables|
    requires tables' == tables[b := tables'[b]]
    ensures (map k | k in names :: multiset(tables'[k])) ==
            (map k | k in names :: multiset(tables[k]))[b := multiset(tables'[b])]
  {
  }

  lemma NewNodeIsNamed(m: C.Content, viewed: set<string>, names: map<nat, string>, tables: seq<seq<Row>>,
                       bound: map<string, nat>, t: string)
    requires forall k :: k in names ==> k < |tables|
    ensures var idx := |tables|;
            Wiring(m, viewed, names[idx := t], tables + [[]], bound[t := idx]) ==
            W.Next(Wiring(m, viewed, names, tables, bound), W.Name(t, idx))
  {
    var idx := |tables|;
    var rows := Wiring(m, viewed, names, tables, bound).rows;
    assert (map k | k in names[idx := t] :: multiset((tables + [[]])[k])) == rows[idx := multiset{}];
  }

  lemma SameRowsSameWires(m: C.Content, viewed: set<string>, names: map<nat, string>, tables: seq<seq<Row>>,
                          bound: map<string, nat>, tables': seq<seq<Row>>)
    requires (forall k :: k in names ==> k < |tables|) && |tables| <= |tables'| && tables'[..|tables|] == tables
    ensures Wiring(m, viewed, names, tables', bound) == Wiring(m, viewed, names, tables, bound)
  {
    forall k | k in names ensures tables'[k] == tables[k] { assert tables'[k] == tables'[..|tables|][k]; }
    assert (map k | k in names :: multiset(tables'[k])) == (map k | k in names :: multiset(tables[k]));
  }

  /** Telling of more tables. */
  lemma MoreIsTold(m: C.Content, viewed: set<string>, tables: set<string>, m': C.Content)
    requires C.Restrict(m', viewed) == m && C.Restrict(m', viewed + tables) == m'
    ensures m' == m + C.Restrict(m', tables - viewed)
  {
  }

  lemma NamesExactly(named: seq<string>, n: nat, rest: seq<W.Step>, t: string)
    requires forall i :: 0 <= i < |rest| ==> !rest[i].Name?
    ensures W.Naming(Names(named, n) + rest, t) <==> t in named
  {
    var steps := Names(named, n) + rest;
    if t in named {
      var j :| 0 <= j < |named| && named[j] == t;
      assert steps[j] == W.Name(named[j], n + j);
    }
    assert forall i :: |named| <= i < |steps| ==> steps[i] == rest[i - |named|];
    if W.Naming(steps, t) {
      var i :| 0 <= i < |steps| && steps[i].Name? && steps[i].table == t;
      assert i < |named| && steps[i] == W.Name(named[i], n + i);
    }
  }

  lemma AllNamesExactly(named: seq<string>, n: nat, rest: seq<W.Step>)
    requires forall i :: 0 <= i < |rest| ==> !rest[i].Name?
    ensures forall t :: W.Naming(Names(named, n) + rest, t) <==> t in named
  {
    forall t ensures W.Naming(Names(named, n) + rest, t) <==> t in named { NamesExactly(named, n, rest, t); }
  }

  class Cached {
    const noria: C.Noria
    const executor: LocalExecutor
    ghost var nameOf: map<nat, string>   // the table each base node was added for

    /** A connection to a database with any content, before the first SELECT. */
    constructor (content: C.Content)
      ensures fresh(noria) && fresh(executor) && Started() && executor.nodes == []
      ensures Now() == Beginning(content) && noria.mirror == map[]
    {
      noria := new C.Noria(content);
      executor := new LocalExecutor.Empty();
      nameOf := map[];
    }

    ghost predicate Wired()
      reads this, executor
    {
      && executor.Structured()
      && (forall k :: k in nameOf ==> k < |executor.nodes| && executor.nodes[k].op.Base?)
      && (forall t :: t in executor.baseTables ==>
            executor.baseTables[t] in nameOf && nameOf[executor.baseTables[t]] == t)
    }

    /** The dataflow knows what it should, and there is a session as soon as there are views. */
    ghost predicate Started()
      reads this, noria, executor
    {
      Wired() && noria.Ready() && (noria.session.None? ==> noria.viewed == {})
    }

    ghost function Now(): Moment
      requires noria.Logged()
      reads this, noria, executor
    {
      Moment(noria.db, noria.viewed, noria.session.Some?, noria.Told(), GraphOf(executor), nameOf)
    }

    /** Which node hears of which table, `m` being told. */
    ghost function At(m: C.Content): (w: W.State)
      requires Wired()
      reads this, noria, executor
      ensures W.Consistent(w)
    {
      Wiring(m, noria.viewed, nameOf, executor.tables, executor.baseTables)
    }

    /** A base node whose table has views, right about it if it still hears of it. */
    ghost predicate Source(k: nat, m: C.Content)
      requires Wired()
      reads this, noria, executor
    {
      SourceIn(At(m), k)
    }

    /** The node holds its query over the rows of its base nodes, and writes keep it so. */
    ghost predicate Sound(i: nat, m: C.Content)
      requires Wired()
      reads this, noria, executor
    {
      && i < |executor.nodes| && executor.Right(i) && FitsAll(executor.nodes, i)
      && forall k: nat :: BaseAbove(executor.nodes, k, i) ==> Source(k, m)
    }

    ghost predicate AllSound(good: set<nat>, m: C.Content)
      requires Wired()
      reads this, noria, executor
    {
      forall i :: i in good ==> Sound(i, m)
    }

    /** All base nodes above still hear of their tables. */
    ghost predicate Connected(i: nat)
      requires Wired()
      reads this, noria, executor
    {
      forall k: nat :: BaseAbove(executor.nodes, k, i) ==> W.Live(At(noria.mirror), k)
    }

    /** A change of a table above a sound node can be applied, and its joins are fit for it. */
    lemma ChangeIsFit(e: C.Change, m: C.Content, i: nat)
      requires Wired() && Sound(i, m) && W.Enabled(At(m), W.Tell(e)) && e.key.table in executor.baseTables
      ensures var b := executor.baseTables[e.key.table];
              && FitAbove(executor.nodes, b, i)
              && (Reaches(executor.nodes, b, i) ==> Applicable(executor.tables[b], RecordsOf(e)))
    {
      var b := executor.baseTables[e.key.table];
      if Reaches(executor.nodes, b, i) {
        assert BaseAbove(executor.nodes, b, i);
        assert W.Live(At(m), b) && W.InStep(At(m), b);
        BagPut(m, e.key, e.after);
        ChangeApplicable(executor.tables[b], e);
      } else {
        NotBelowFits(executor.nodes, b, i);
      }
    }

    /** These nodes are right and ready for the change. */
    ghost predicate ReadyFor(e: C.Change, good: set<nat>)
      requires executor.Structured()
      reads this, executor
    {
      forall i :: i in good ==>
        && i < |executor.nodes| && executor.Right(i)
        && (e.key.table in executor.baseTables ==>
              var b := executor.baseTables[e.key.table];
              && FitAbove(executor.nodes, b, i)
              && (Reaches(executor.nodes, b, i) ==> Applicable(executor.tables[b], RecordsOf(e))))
    }

    method Write(e: C.Change, ghost good: set<nat>)
      requires executor.Structured() && ReadyFor(e, good)
      modifies executor`states, executor`groups, executor`tables
      ensures executor.Structured() && Wrote(old(executor.tables), executor.tables, executor.baseTables, e)
      ensures KeyedBy(executor.states) == old(KeyedBy(executor.states))
      ensures forall i :: i in good ==> executor.Right(i)
    {
      executor.ApplyWrite(e.key.table, RecordsOf(e));
      SameKeys(old(executor.states), executor.states);
    }

    /** One change, applied as signed records to the node that hears of its table. */
    method FeedOne(e: C.Change, ghost m: C.Content, ghost good: set<nat>)
      requires Wired() && AllSound(good, m) && W.Enabled(At(m), W.Tell(e))
      modifies executor`states, executor`groups, executor`tables
      ensures Wired() && At(C.Put(m, e.key, e.after)) == W.Next(old(At(m)), W.Tell(e))
      ensures AllSound(good, C.Put(m, e.key, e.after))
      ensures KeyedBy(executor.states) == old(KeyedBy(executor.states))
    {
      ghost var w, tables := At(m), executor.tables;
      AllReady(e, m, good);
      Write(e, good);
      WritesAreHeard(m, noria.viewed, nameOf, tables, executor.baseTables, e, executor.tables);
      StillSound(w, W.Tell(e), C.Put(m, e.key, e.after), good);
    }

    lemma AllReady(e: C.Change, m: C.Content, good: set<nat>)
      requires Wired() && AllSound(good, m) && W.Enabled(At(m), W.Tell(e))
      ensures ReadyFor(e, good)
    {
      if e.key.table in executor.baseTables {
        forall i | i in good
          ensures var b := executor.baseTables[e.key.table];
                  && FitAbove(executor.nodes, b, i)
                  && (Reaches(executor.nodes, b, i) ==> Applicable(executor.tables[b], RecordsOf(e)))
        {
          ChangeIsFit(e, m, i);
        }
      }
    }

    /** The changes of one hand-over, applied one by one. */
    method Feed(changes: seq<C.Change>, ghost m: C.Content, ghost m': C.Content, ghost good: set<nat>)
      requires Wired() && AllSound(good, m) && C.Delivered(m, changes) == Some(m')
      requires forall i :: 0 <= i < |changes| ==> changes[i].key.table in noria.viewed
      modifies executor`states, executor`groups, executor`tables
      ensures Wired() && AllSound(good, m')
      ensures W.Leads(old(At(m)), Tells(changes), At(m'))
      ensures KeyedBy(executor.states) == old(KeyedBy(executor.states))
    {
      var n := 0;
      ghost var now, w := m, At(m);
      assert Tells(changes[..0]) == [];
      while n < |changes|
        invariant 0 <= n <= |changes| && C.Delivered(m, changes[..n]) == Some(now)
        invariant Wired() && AllSound(good, now)
        invariant W.Leads(w, Tells(changes[..n]), At(now))
        invariant KeyedBy(executor.states) == old(KeyedBy(executor.states))
      {
        DeliveredPrefix(m, changes, n);
        W.LeadsByOne(w, Tells(changes[..n]), At(now), W.Tell(changes[n]));
        TellsNext(changes, n);
        FeedOne(changes[n], now, good);
        now := C.Put(now, changes[n].key, changes[n].after);
        n := n + 1;
      }
      assert changes[..n] == changes;
    }

    /** Whatever the statements do, sound nodes stay sound; inside a transaction nothing is told, and a command
        that notifies outside one brings what is told to the current content. */
    method Perform(cmd: C.Command, ghost good: set<nat>) returns (ghost trace: seq<W.Step>)
      requires Wired() && noria.Ready() && AllSound(good, noria.mirror)
      requires C.CoveredAll(noria.db, C.Statements(cmd))
      modifies noria, executor`states, executor`groups, executor`tables
      ensures Wired() && noria.Ready() && AllSound(good, noria.mirror)
      ensures W.OnlyTells(trace) && W.Leads(old(At(noria.mirror)), trace, At(noria.mirror))
      ensures noria.viewed == old(noria.viewed) && noria.db == C.Steps(old(noria.db), C.Statements(cmd))
      ensures noria.db.open ==> trace == []
      ensures !noria.db.open && C.Notifies(cmd, old(noria.db), noria.db) && old(noria.session).Some? ==>
                noria.mirror == C.Restrict(noria.db.content, noria.viewed)
      ensures cmd.reopened ==> noria.session.Some? == old(noria.session).Some?
      ensures noria.Told() == C.ToldAfter(cmd, old(noria.db), noria.db, old(noria.session).Some?, old(noria.Told()))
      ensures KeyedBy(executor.states) == old(KeyedBy(executor.states))
    {
      ghost var m := noria.mirror;
      var sent := |noria.delivered|;
      noria.Perform(cmd);
      var changes := noria.delivered[sent..];
      Feed(changes, m, noria.mirror, good);
      trace := Tells(changes);
    }

    /** A text with a table is prepared: a new node takes the table's name. */
    method NameOne(t: string, ghost m: C.Content, ghost good: set<nat>, ghost n: nat) returns (idx: nat)
      requires Wired() && AllSound(good, m) && New(n)
      modifies this, executor
      ensures Wired() && AllSound(good, m) && New(n) && idx == |old(executor.nodes)| == |executor.nodes| - 1
      ensures Grown(old(executor.nodes), executor.nodes) && nameOf == old(nameOf)[idx := t]
      ensures GraphOf(executor) == Enlarged(old(GraphOf(executor)), Base, [])
      ensures W.Enabled(old(At(m)), W.Name(t, idx)) && At(m) == W.Next(old(At(m)), W.Name(t, idx))
    {
      ghost var w, nodes := At(m), executor.nodes;
      NewNodeIsNamed(m, noria.viewed, nameOf, executor.tables, executor.baseTables, t);
      ghost var states, groups, tables := executor.states, executor.groups, executor.tables;
      idx := executor.AddBaseTable(t);
      MoreKeys(states, None);
      AddingIsAdded(nodes, Base, [], executor.nodes);
      FreshAdded(nodes, states, groups, tables, n, Base, [], executor.nodes);
      nameOf := nameOf[idx := t];
      forall i, k: nat | i in good && BaseAbove(executor.nodes, k, i) ensures SourceIn(w, k) {
        AboveGrown(nodes, executor.nodes, k, i);
      }
      forall i | i in good ensures FitsAll(executor.nodes, i) { FitsGrown(nodes, executor.nodes, i); }
      StillSound(w, W.Name(t, idx), m, good);
    }

    /** The nodes from `n` on are new, without rows. */
    ghost predicate New(n: nat)
      requires executor.Structured()
      reads this, executor
    {
      && n <= |executor.nodes|
      && Fresh(executor.nodes, executor.states, executor.groups, executor.tables, n)
    }

    /** The new nodes of a text's tables are right about them exactly when nothing was told of the table. */
    ghost predicate RightIfEmpty(named: seq<string>, n: nat)
      requires Wired()
      reads this, noria, executor
    {
      forall j :: 0 <= j < |named| ==>
        (W.InStep(At(noria.mirror), n + j) <==> TableBag(noria.mirror, named[j]) == multiset{})
    }

    lemma StartsEmpty(named: seq<string>, n: nat)
      requires Wired() && New(n) && Named(nameOf, executor.baseTables, named, n)
      ensures RightIfEmpty(named, n)
    {
      forall j | 0 <= j < |named|
        ensures W.InStep(At(noria.mirror), n + j) <==> TableBag(noria.mirror, named[j]) == multiset{}
      {
        assert Has(nameOf, n + j, named[j]);
        assert executor.tables[n + j] == [];
      }
    }

    /** Every table a text names gets a new node, also one that had a node before. */
    method NameAll(named: seq<string>, ghost m: C.Content, ghost good: set<nat>)
      requires Wired() && AllSound(good, m)
      modifies this, executor
      ensures Wired() && AllSound(good, m) && New(|old(executor.nodes)|)
      ensures |executor.nodes| == |old(executor.nodes)| + |named| && Grown(old(executor.nodes), executor.nodes)
      ensures W.Leads(old(At(m)), Names(named, |old(executor.nodes)|), At(m))
      ensures Named(nameOf, executor.baseTables, named, |old(executor.nodes)|)
      ensures GraphOf(executor) == WithTables(old(GraphOf(executor)), |named|)
      ensures nameOf == NamesWith(old(nameOf), named, |old(executor.nodes)|)
    {
      ghost var w, n := At(m), |executor.nodes|;
      ghost var now, g0, names0 := w, GraphOf(executor), nameOf;
      ghost var g, names := g0, names0;
      NoNames(named, n);
      for j := 0 to |named|
        invariant Wired() && AllSound(good, m) && New(n) && |executor.nodes| == n + j
        invariant now == At(m) && W.Leads(w, Names(named[..j], n), now)
        invariant Grown(old(executor.nodes), executor.nodes)
        invariant g == GraphOf(executor) && names == nameOf && Naming(g0, names0, named[..j], g, names)
      {
        var idx := NameOne(named[j], m, good, n);
        NamingNext(g0, names0, named, j, g, names, idx);
        NamesNext(w, named, j, n, now, idx, At(m));
        now, g, names := At(m), Enlarged(g, Base, []), names[idx := named[j]];
      }
      assert named[..|named|] == named;
      AllNamesGiven(w, named, n, now);
    }

    /** The converter's work changes nothing for the nodes that were there. */
    method BuildOn(build: seq<Build>, ghost m: C.Content, ghost good: set<nat>, ghost n: nat, ghost size: nat)
      requires Wired() && AllSound(good, m) && New(n) && forall i :: i in good ==> i < n
      requires |executor.nodes| == size && Legal(build, size) && Apart(build, n)
      modifies executor
      ensures Wired() && AllSound(good, m) && New(n) && At(m) == old(At(m))
      ensures executor.baseTables == old(executor.baseTables)
      ensures GraphOf(executor) == BuiltAll(old(GraphOf(executor)), build)
      ensures Grown(old(executor.nodes), executor.nodes) && NoBases(executor.nodes, |old(executor.nodes)|)
    {
      ghost var nodes, tables := executor.nodes, executor.tables;
      BuildView(executor, build, n);
      SameRowsSameWires(m, noria.viewed, nameOf, tables, executor.baseTables, executor.tables);
      forall i | i in good ensures Sound(i, m) {
        FitsGrown(nodes, executor.nodes, i);
        forall k: nat | BaseAbove(executor.nodes, k, i) ensures Source(k, m) {
          AboveGrown(nodes, executor.nodes, k, i);
          assert old(Source(k, m));
        }
      }
    }

    /** The new nodes of a text: first those of its tables, then what is built on them. */
    method Lay(named: seq<string>, build: seq<Build>, ghost m: C.Content, ghost good: set<nat>, ghost size: nat)
      requires Wired() && AllSound(good, m) && size == |executor.nodes| + |named|
      requires Legal(build, size) && Apart(build, |executor.nodes|)
      modifies this, executor
      ensures Wired() && AllSound(good, m) && New(|old(executor.nodes)|)
      ensures GraphOf(executor) == BuiltAll(WithTables(old(GraphOf(executor)), |named|), build)
      ensures nameOf == NamesWith(old(nameOf), named, |old(executor.nodes)|)
      ensures Grown(old(executor.nodes), executor.nodes)
      ensures Named(nameOf, executor.baseTables, named, |old(executor.nodes)|)
      ensures NoBases(executor.nodes, |old(executor.nodes)| + |named|)
      ensures W.Leads(old(At(m)), Names(named, |old(executor.nodes)|), At(m))
    {
      ghost var n := |executor.nodes|;
      assert forall i :: i in good ==> i < n;
      NameAll(named, m, good);
      BuildOn(build, m, good, n, size);
    }

    /** Whether capture goes on, or starts, soundly, and from which content. */
    ghost predicate Opened(session: Option<C.Originals>, mirror: C.Content, viewed: set<string>, told: C.Content,
                           ok: bool, sessionOk: bool)
      reads this, noria
    {
      && (!ok || session.Some? ==> noria.Ready() && noria.session == session && noria.Told() == told)
      && (ok && session.None? && !sessionOk ==> noria.Ready() && noria.session.None? && noria.Told() == told)
      && (ok && session.None? ==>
            (noria.Valid() <==> sessionOk && C.Untouched(noria.db) && mirror == C.Restrict(noria.db.content, viewed)))
      && (ok && session.None? && noria.Valid() ==> noria.Told() == noria.db.content)
    }

    /** The view is accepted, and its tables are told of from now on. */
    method Accept(tables: set<string>, ok: bool, sessionOk: bool, ghost good: set<nat>)
      returns (ghost trace: seq<W.Step>)
      requires Wired() && noria.Ready() && AllSound(good, noria.mirror)
      modifies noria
      ensures Wired() && noria.db == old(noria.db)
      ensures noria.viewed == old(noria.viewed) + if ok then tables else {}
      ensures Opened(old(noria.session), old(noria.mirror), old(noria.viewed), old(noria.Told()), ok, sessionOk)
      ensures forall i :: 0 <= i < |trace| ==> trace[i].Widen?
      ensures noria.Ready() ==>
                W.Leads(old(At(noria.mirror)), trace, At(noria.mirror)) && AllSound(good, noria.mirror)
    {
      ghost var w, m, v := At(noria.mirror), noria.mirror, noria.viewed;
      noria.RegisterView(tables, ok, sessionOk);
      trace := [];
      if ok && noria.Ready() {
        var step := W.Widen(tables - v, C.Restrict(noria.mirror, tables - v));
        C.RestrictTwice(noria.commits[noria.known], noria.viewed);
        MoreIsTold(m, v, tables, noria.mirror);
        assert v + (tables - v) == v + tables;
        assert At(noria.mirror) == W.Next(w, step);
        W.LeadsByOne(w, [], w, step);
        assert [] + [step] == [step];
        trace := [step];
        StillSound(w, step, noria.mirror, good);
      }
    }

    /** A text is prepared: its tables get new nodes whether or not it becomes a view; the converter adds what
        it needs; and if the view is accepted, its tables are told of. Sound nodes stay sound. A new node is
        sound and hears of all its tables exactly when its joins are keyed and fit, and the name of each table
        above it stays with its node, has views and has been told nothing of. */
    method Register(named: seq<string>, build: seq<Build>, tables: set<string>, ok: bool, sessionOk: bool,
                    ghost good: set<nat>)
      returns (ghost trace: seq<W.Step>)
      requires Wired() && noria.Ready() && AllSound(good, noria.mirror)
      requires Legal(build, |executor.nodes| + |named|) && Apart(build, |executor.nodes|)
      modifies this, noria, executor
      ensures var n := |old(executor.nodes)|;
              && Wired() && New(n) && Grown(old(executor.nodes), executor.nodes)
              && GraphOf(executor) == BuiltAll(WithTables(old(GraphOf(executor)), |named|), build)
              && nameOf == NamesWith(old(nameOf), named, n)
              && forall i :: n <= i < |executor.nodes| ==> (executor.Right(i) <==> Keyed(GraphOf(executor), i))
      ensures noria.db == old(noria.db) && noria.viewed == old(noria.viewed) + if ok then tables else {}
      ensures Opened(old(noria.session), old(noria.mirror), old(noria.viewed), old(noria.Told()), ok, sessionOk)
      ensures Named(nameOf, executor.baseTables, named, |old(executor.nodes)|)
      ensures RightIfEmpty(named, |old(executor.nodes)|) && Begun(named, |old(executor.nodes)|)
      ensures forall t :: W.Naming(trace, t) <==> t in named
      ensures noria.Ready() ==>
                W.Leads(old(At(noria.mirror)), trace, At(noria.mirror)) && AllSound(good, noria.mirror)
    {
      ghost var n, w := |executor.nodes|, At(noria.mirror);
      Lay(named, build, noria.mirror, good, n + |named|);
      NewAreRight(n);
      ghost var mid := At(noria.mirror);
      ghost var rest := Accept(tables, ok, sessionOk, good);
      trace := Names(named, n) + rest;
      StartsEmpty(named, n);
      AllNamesExactly(named, n, rest);
      AllBegun(named, n);
      if noria.Ready() { W.LeadsOn(w, Names(named, n), mid, rest, At(noria.mirror)); }
    }

    lemma NewAreRight(n: nat)
      requires executor.Structured() && New(n)
      ensures forall i :: n <= i < |executor.nodes| ==> (executor.Right(i) <==> Keyed(GraphOf(executor), i))
    {
      forall i | n <= i < |executor.nodes| ensures executor.Right(i) <==> Keyed(GraphOf(executor), i) {
        FreshRight(executor.nodes, executor.states, executor.groups, executor.tables, n, i);
      }
    }

    /** The node holds its query over the told content. */
    ghost predicate Follows(i: nat)
      requires Wired()
      reads this, noria, executor
    {
      Sound(i, noria.mirror) && Connected(i)
    }

    ghost predicate AnswersHere(named: seq<string>, n: nat, i: nat)
      requires Wired()
      reads this, noria, executor
    {
      Answers(GraphOf(executor), noria.viewed, noria.mirror, named, n, i)
    }

    /** The nodes of a text that follow what is told, from the moment the text is prepared. */
    ghost predicate Begun(named: seq<string>, n: nat)
      requires Wired()
      reads this, noria, executor
    {
      forall i :: n <= i < |executor.nodes| ==> (Follows(i) <==> AnswersHere(named, n, i))
    }

    lemma AllBegun(named: seq<string>, n: nat)
      requires Wired() && New(n) && Named(nameOf, executor.baseTables, named, n)
      requires n + |named| <= |executor.nodes| && NoBases(executor.nodes, n + |named|)
      ensures Begun(named, n)
    {
      forall i | n <= i < |executor.nodes| ensures Follows(i) <==> AnswersHere(named, n, i) {
        FreshRight(executor.nodes, executor.states, executor.groups, executor.tables, n, i);
        forall k: nat | BaseAbove(executor.nodes, k, i)
          ensures Source(k, noria.mirror) && W.Live(At(noria.mirror), k) <==>
                  Starts(noria.viewed, noria.mirror, named, n, k)
        {
          SourceStarts(named, n, k, i);
        }
      }
    }

    lemma SourceStarts(named: seq<string>, n: nat, k: nat, i: nat)
      requires Wired() && New(n) && Named(nameOf, executor.baseTables, named, n) && n <= i < |executor.nodes|
      requires n + |named| <= |executor.nodes| && NoBases(executor.nodes, n + |named|)
      requires BaseAbove(executor.nodes, k, i)
      ensures Source(k, noria.mirror) && W.Live(At(noria.mirror), k) <==>
              Starts(noria.viewed, noria.mirror, named, n, k)
    {
      FreshStaysFresh(executor.nodes, n, k, i);
      assert Has(nameOf, n + (k - n), named[k - n]);
      assert Listens(nameOf, executor.baseTables, k) <==> LastNamed(named, k - n);
      assert executor.tables[k] == [];
    }

    /** Any run of statements and prepared texts, from the first on. What is told, and which nodes each text
        adds, is a function of the run. Sound nodes stay sound, and one that heard of all its tables still does
        exactly if no text named one of them; and so with every node a text of the run has added, from there on,
        that answered when it was added. */
    method RunScript(events: seq<Event>, ghost good: set<nat>) returns (ghost trace: seq<W.Step>)
      requires Started() && AllSound(good, noria.mirror) && Runnable(events, Now())
      modifies this, noria, executor
      ensures Started() && AllSound(good, noria.mirror) && Now() == After(old(Now()), events)
      ensures Grown(old(executor.nodes), executor.nodes)
      ensures W.Leads(old(At(noria.mirror)), trace, At(noria.mirror)) && NamesOf(trace, events)
      ensures forall i :: i in good ==>
                (Connected(i) <==> old(Connected(i)) && !TakenAbove(old(executor.nodes), old(nameOf), events, i))
      ensures Lives(events, old(Now()))
      decreases |events|
    {
      if events == [] {
        trace := [];
        return;
      }
      ghost var w, start, nodes0, names0 := At(noria.mirror), Now(), executor.nodes, nameOf;
      trace := TakeOne(events[0], good);
      ghost var mid, nodes, names := At(noria.mirror), executor.nodes, nameOf;
      ghost var joined := Joining(|nodes0|);
      AllNamed(good + joined);
      JoiningAnswers(events[0], start, joined);
      ghost var rest := RunScript(events[1..], good + joined);
      W.LeadsOn(w, trace, mid, rest, At(noria.mirror));
      NamesKept(mid, rest, At(noria.mirror));
      NamesOfBoth(trace, rest, events);
      forall i | i in good
        ensures TakenAbove(nodes0, names0, events, i) <==>
                TakenAbove(nodes0, names0, [events[0]], i) || TakenAbove(nodes, names, events[1..], i)
      {
        TakenNext(nodes0, names0, nodes, names, events, i);
      }
      LivesNext(events, start, joined);
      trace := trace + rest;
    }

    lemma AllNamed(good: set<nat>)
      requires Wired() && AllSound(good, noria.mirror)
      ensures forall i :: i in good ==> NamedAbove(executor.nodes, nameOf, i)
    {
      forall i, k: nat | i in good && BaseAbove(executor.nodes, k, i) ensures k in nameOf {
        assert Sound(i, noria.mirror) && Source(k, noria.mirror);
      }
    }

    /** The text just prepared makes these nodes join. */
    ghost predicate Joins(event: Event, start: Moment, joined: set<nat>) {
      var now, n := Next(start, event), |start.graph.nodes|;
      event.Prepare? ==>
        forall i: nat :: n <= i ==>
          (Answers(now.graph, now.viewed, C.Restrict(now.told, now.viewed), event.named, n, i) ==> i in joined)
    }

    lemma JoiningAnswers(event: Event, start: Moment, joined: set<nat>)
      requires Started() && Now() == Next(start, event) && joined == Joining(|start.graph.nodes|)
      requires event.Prepare? ==> Begun(event.named, |start.graph.nodes|)
      ensures Joins(event, start, joined)
    {
      var n := |start.graph.nodes|;
      if event.Prepare? {
        forall i: nat | n <= i && AnswersHere(event.named, n, i) ensures i in joined { assert Follows(i); }
      }
    }

    lemma LivesNext(events: seq<Event>, start: Moment, joined: set<nat>)
      requires Wired() && events != [] && Joins(events[0], start, joined)
      requires Lives(events[1..], Next(start, events[0]))
      requires var now := Next(start, events[0]);
               Ordered(now.graph.nodes) && forall i :: i in joined ==>
                 Sound(i, noria.mirror) &&
                 (Connected(i) <==> !TakenAbove(now.graph.nodes, now.names, events[1..], i))
      ensures Lives(events, start)
    {
      forall j, i | 0 <= j < |events| && 0 <= i && AnswersFrom(events, start, j, i)
        ensures Sound(i, noria.mirror) && (Connected(i) <==> !TakenLater(events, start, j, i))
      {
        if j == 0 { AnswersFirst(events, start, i); } else { AnswersShifted(events, start, j, i); }
      }
    }

    /** The nodes from `n` on that follow what is told. */
    ghost function Joining(n: nat): (s: set<nat>)
      requires Wired()
      reads this, noria, executor
      ensures forall i :: i in s <==> n <= i < |executor.nodes| && Follows(i)
    {
      set i: nat | n <= i < |executor.nodes| && Follows(i)
    }

    /** Every node of the run that answered when its text was prepared is sound now, and hears of all its tables
        exactly if no later text named one of them. */
    ghost predicate Lives(events: seq<Event>, start: Moment)
      requires Wired()
      reads this, noria, executor
    {
      forall j, i :: 0 <= j < |events| && 0 <= i && AnswersFrom(events, start, j, i) ==>
        Sound(i, noria.mirror) && (Connected(i) <==> !TakenLater(events, start, j, i))
    }

    method TakeOne(event: Event, ghost good: set<nat>) returns (ghost trace: seq<W.Step>)
      requires Started() && AllSound(good, noria.mirror) && Doable(event, Now())
      modifies this, noria, executor
      ensures Started() && AllSound(good, noria.mirror) && Now() == Next(old(Now()), event)
      ensures Grown(old(executor.nodes), executor.nodes)
      ensures W.Leads(old(At(noria.mirror)), trace, At(noria.mirror)) && NamesOf(trace, [event])
      ensures event.Prepare? ==> Begun(event.named, |old(executor.nodes)|)
      ensures SameNames(old(nameOf), nameOf)
      ensures forall i :: i in good ==>
                && NamedAbove(old(executor.nodes), old(nameOf), i)
                && (Connected(i) <==> old(Connected(i)) && !TakenAbove(old(executor.nodes), old(nameOf), [event], i))
    {
      ghost var w, nodes := At(noria.mirror), executor.nodes;
      trace := Take(event, good);
      NamesKept(w, trace, At(noria.mirror));
      forall i | i in good
        ensures NamedAbove(nodes, old(nameOf), i)
        ensures Connected(i) <==> old(Connected(i)) && !TakenAbove(nodes, old(nameOf), [event], i)
      {
        assert old(Sound(i, noria.mirror));
        assert forall k: nat :: BaseAbove(nodes, k, i) ==> old(Source(k, noria.mirror));
        ConnectedExactly(w, nodes, [event], trace, i);
      }
    }

    /** One statement, or one prepared text. */
    method Take(event: Event, ghost good: set<nat>) returns (ghost trace: seq<W.Step>)
      requires Started() && AllSound(good, noria.mirror) && Doable(event, Now())
      modifies this, noria, executor
      ensures Started() && AllSound(good, noria.mirror) && Now() == Next(old(Now()), event)
      ensures Grown(old(executor.nodes), executor.nodes)
      ensures W.Leads(old(At(noria.mirror)), trace, At(noria.mirror)) && NamesOf(trace, [event])
      ensures event.Prepare? ==> Begun(event.named, |old(executor.nodes)|)
    {
      match event {
        case Do(cmd) =>
          trace := Perform(cmd, good);
        case Prepare(named, build, tables, ok, sessionOk) =>
          trace := TakeText(named, build, tables, ok, sessionOk, good);
          NamedByOne(event);
      }
    }

    method TakeText(named: seq<string>, build: seq<Build>, tables: set<string>, ok: bool, sessionOk: bool,
                    ghost good: set<nat>)
      returns (ghost trace: seq<W.Step>)
      requires Started() && AllSound(good, noria.mirror)
      requires Doable(Prepare(named, build, tables, ok, sessionOk), Now())
      modifies this, noria, executor
      ensures Started() && AllSound(good, noria.mirror)
      ensures Now() == Next(old(Now()), Prepare(named, build, tables, ok, sessionOk))
      ensures Grown(old(executor.nodes), executor.nodes)
      ensures W.Leads(old(At(noria.mirror)), trace, At(noria.mirror)) && forall t :: W.Naming(trace, t) <==> t in named
      ensures Begun(named, |old(executor.nodes)|)
    {
      assert noria.viewed == {} ==> noria.mirror == C.Restrict(noria.db.content, {});
      trace := Register(named, build, tables, ok, sessionOk, good);
    }

    lemma ConnectedExactly(w: W.State, nodes: seq<Node>, events: seq<Event>, trace: seq<W.Step>, i: nat)
      requires Wired() && WellFormed(nodes) && Grown(nodes, executor.nodes) && i < |nodes|
      requires W.Leads(w, trace, At(noria.mirror)) && NamesOf(trace, events)
      requires forall k: nat :: BaseAbove(nodes, k, i) ==> k in w.names
      ensures Connected(i) <==>
              (forall k: nat :: BaseAbove(nodes, k, i) ==> W.Live(w, k)) && !TakenAbove(nodes, w.names, events, i)
    {
      forall k: nat | BaseAbove(nodes, k, i)
        ensures W.Live(At(noria.mirror), k) <==> W.Live(w, k) && !NamedBy(events, w.names[k])
      {
        W.LiveAfter(w, trace, k);
      }
      forall k: nat ensures BaseAbove(executor.nodes, k, i) <==> BaseAbove(nodes, k, i) {
        AboveGrown(nodes, executor.nodes, k, i);
      }
    }

    /** A cached read gives the rows of the view's query over the content that was last handed over, however
        `tables` lists its rows, if the node is sound and still hears of all its tables. */
    method Read(node: nat, key: Row, ghost tables: seq<seq<Row>>) returns (r: Option<seq<Row>>)
      requires Wired() && noria.Ready() && Sound(node, noria.mirror) && Connected(node)
      requires executor.states[node].Some? && |tables| == |executor.nodes|
      requires forall k: nat :: BaseAbove(executor.nodes, k, node) ==>
                 k in nameOf && nameOf[k] in noria.viewed &&
                 multiset(tables[k]) == TableBag(noria.commits[noria.known], nameOf[k])
      ensures var rows := RowsWith(Answer(executor.nodes, tables, node), executor.states[node].value.keyColumns, key);
              (r.None? <==> rows == []) && (r.Some? ==> multiset(r.value) == multiset(rows))
    {
      RightItself(executor.nodes, executor.states, executor.groups, executor.tables, node);
      forall k: nat | BaseAbove(executor.nodes, k, node) ensures multiset(executor.tables[k]) == multiset(tables[k]) {
        assert Source(k, noria.mirror) && W.Live(At(noria.mirror), k) && W.InStep(At(noria.mirror), k);
        BagRestrict(noria.commits[noria.known], noria.viewed, nameOf[k]);
      }
      AnswerPermuted(executor.nodes, executor.tables, tables, node);
      RowsWithPermuted(Answer(executor.nodes, executor.tables, node), Answer(executor.nodes, tables, node),
                       executor.states[node].value.keyColumns, key);
      r := executor.LookupView(node, key);
    }

    /** After any run, a view the run prepared, that answered when it was prepared and whose tables no later text
        named, gives the rows of its query over the content the run has told. */
    method ReadPrepared(ghost events: seq<Event>, ghost start: Moment, ghost j: nat, node: nat, key: Row,
                        ghost tables: seq<seq<Row>>)
      returns (r: Option<seq<Row>>)
      requires Started() && Now() == After(start, events) && Lives(events, start) && j < |events|
      requires AnswersFrom(events, start, j, node) && !TakenLater(events, start, j, node)
      requires node < |executor.nodes| && executor.states[node].Some? && |tables| == |executor.nodes|
      requires forall k: nat :: BaseAbove(executor.nodes, k, node) && k in nameOf ==>
                 multiset(tables[k]) == TableBag(After(start, events).told, nameOf[k])
      ensures var rows := RowsWith(Answer(executor.nodes, tables, node), executor.states[node].value.keyColumns, key);
              (r.None? <==> rows == []) && (r.Some? ==> multiset(r.value) == multiset(rows))
    {
      assert Sound(node, noria.mirror) && Connected(node);
      assert forall k: nat :: BaseAbove(executor.nodes, k, node) ==> Source(k, noria.mirror);
      r := Read(node, key, tables);
    }

    /** Nodes above which everything was sound are so after a step of the wires. */
    lemma StillSound(w: W.State, step: W.Step, m: C.Content, good: set<nat>)
      requires Wired() && W.Consistent(w) && W.Enabled(w, step) && At(m) == W.Next(w, step)
      requires forall i :: i in good ==>
                 && i < |executor.nodes| && executor.Right(i) && FitsAll(executor.nodes, i)
                 && forall k: nat :: BaseAbove(executor.nodes, k, i) ==> SourceIn(w, k)
      ensures AllSound(good, m)
    {
      forall i, k: nat | i in good && BaseAbove(executor.nodes, k, i) ensures Source(k, m) {
        assert SourceIn(w, k);
        SourceNext(w, step, k);
      }
    }
  }

  ghost predicate SourceIn(w: W.State, k: nat) {
    k in w.names && w.names[k] in w.viewed && (W.Live(w, k) ==> W.InStep(w, k))
  }

  lemma SourceNext(w: W.State, step: W.Step, k: nat)
    requires W.Consistent(w) && W.Enabled(w, step) && SourceIn(w, k)
    ensures SourceIn(W.Next(w, step), k)
  {
    W.NextConsistent(w, step);
    W.LiveNext(w, step, k);
    if W.Live(W.Next(w, step), k) { W.InStepNext(w, step, k); }
  }

  // ---------------------------------------------------------------------------
  // Two views and one insert
  // ---------------------------------------------------------------------------

  ghost predicate AllNew(e: LocalExecutor)
    reads e
  {
    e.Structured() && Fresh(e.nodes, e.states, e.groups, e.tables, 0) && NoJoins(e.nodes)
  }

  predicate NoJoins(nodes: seq<Node>) {
    forall i :: 0 <= i < |nodes| ==> !nodes[i].op.Join?
  }

  /** The filter a comparison with a parameter becomes. */
  function AlwaysTrue(): Row -> bool {
    _ => true
  }

  ghost predicate KeepsAll(op: Op) {
    op.Filter? && forall r :: op.keep(r)
  }

  /** Node `v` has the rows of base node `t`: it is that node, or a filter on it that keeps all. */
  ghost predicate Passes(nodes: seq<Node>, t: nat, v: nat) {
    t <= v < |nodes| && nodes[t].op.Base? && (v == t || (KeepsAll(nodes[v].op) && nodes[v].parents == [t]))
  }

  lemma {:induction false} AllKept(rows: seq<Row>, keep: Row -> bool)
    requires forall i :: 0 <= i < |rows| ==> keep(rows[i])
    ensures FlatMap(rows, FilterStep(keep)) == rows
  {
    if rows != [] {
      var front, last := rows[..|rows| - 1], rows[|rows| - 1];
      AllKept(front, keep);
      assert FilterStep(keep)(last) == [last] && rows == front + [last];
    }
  }

  lemma PassedOn(nodes: seq<Node>, tables: seq<seq<Row>>, t: nat, v: nat)
    requires WellFormed(nodes) && |tables| == |nodes| && Passes(nodes, t, v)
    ensures Answer(nodes, tables, v) == tables[t] && Reaches(nodes, t, v)
  {
    if v != t {
      AllKept(tables[t], nodes[v].op.keep);
      assert Reaches(nodes, t, nodes[v].parents[0]);
    }
  }

  /** What preparing a SELECT with a parameter does: a base node, a filter that keeps all rows, and a state. */
  method PassingView(e: LocalExecutor, table: string, keyColumns: seq<nat>) returns (t: nat, v: nat)
    requires AllNew(e)
    modifies e
    ensures AllNew(e) && t == |old(e.nodes)| && v == t + 1 == |e.nodes| - 1 && Grown(old(e.nodes), e.nodes)
    ensures Passes(e.nodes, t, v) && e.baseTables == old(e.baseTables)[table := t]
    ensures e.states[v] == Some(MemoryState(keyColumns, map[], 0))
    ensures forall i :: 0 <= i < t ==> e.states[i] == old(e.states)[i]
  {
    t, v := PassingNodes(e, table);
    e.Materialize(v, keyColumns);
  }

  method AddKeepAll(e: LocalExecutor, t: nat) returns (v: nat)
    requires e.Structured() && t < |e.nodes| && e.nodes[t].op.Base?
    modifies e
    ensures e.Structured() && v == |old(e.nodes)| && B.Added(old(e.nodes), Filter(AlwaysTrue()), [t], e.nodes)
    ensures e.states == old(e.states) + [None] && e.groups == old(e.groups) + [map[]]
    ensures e.tables == old(e.tables) + [[]] && e.baseTables == old(e.baseTables) && Passes(e.nodes, t, v)
  {
    v := e.AddOperator(Filter(AlwaysTrue()), [t]);
  }

  method PassingNodes(e: LocalExecutor, table: string) returns (t: nat, v: nat)
    requires AllNew(e)
    modifies e
    ensures AllNew(e) && t == |old(e.nodes)| && v == t + 1 == |e.nodes| - 1 && Grown(old(e.nodes), e.nodes)
    ensures Passes(e.nodes, t, v) && e.baseTables == old(e.baseTables)[table := t]
    ensures e.states == old(e.states) + [None, None]
  {
    ghost var nodes, states, groups, tables := e.nodes, e.states, e.groups, e.tables;
    t := e.AddBaseTable(table);
    FreshAdded(nodes, states, groups, tables, 0, Base, [], e.nodes);
    nodes, states, groups, tables := e.nodes, e.states, e.groups, e.tables;
    v := AddKeepAll(e, t);
    FreshAdded(nodes, states, groups, tables, 0, Filter(AlwaysTrue()), [t], e.nodes);
  }

  /** Without joins a new graph is right, and fit for everything. */
  lemma NewIsRight(nodes: seq<Node>, states: States, groups: AllGroups, tables: seq<seq<Row>>, b: nat, i: nat)
    requires WellFormed(nodes) && |states| == |groups| == |tables| == |nodes| && i < |nodes|
    requires Fresh(nodes, states, groups, tables, 0) && NoJoins(nodes)
    ensures OkAbove(nodes, states, groups, tables, i) && FitAbove(nodes, b, i)
  {
    FreshRight(nodes, states, groups, tables, 0, i);
  }

  lemma OneRow(rows: seq<Row>, row: Row, cols: seq<nat>)
    requires Moves([], [Positive(row)], rows)
    ensures RowsWith(rows, cols, Columns(row, cols)) == [row]
  {
    MovesOne([], Positive(row), rows);
    assert rows[0] in multiset(rows);
    assert rows == [row] && rows[..0] == [];
  }

  method LookupPassing(e: LocalExecutor, t: nat, v: nat, key: Row) returns (r: Option<seq<Row>>)
    requires e.Structured() && Passes(e.nodes, t, v) && e.Right(v) && e.states[v].Some?
    ensures var rows := RowsWith(e.tables[t], e.states[v].value.keyColumns, key);
            (r.None? <==> rows == []) && (r.Some? ==> multiset(r.value) == multiset(rows))
  {
    RightItself(e.nodes, e.states, e.groups, e.tables, v);
    PassedOn(e.nodes, e.tables, t, v);
    r := e.LookupView(v, key);
  }

  /** Two SELECTs over one table, then an insert: the first view does not have the row, the second does. */
  method TwoViews(table: string, row: Row, keyColumns: seq<nat>)
    returns (first: Option<seq<Row>>, second: Option<seq<Row>>)
    ensures first == None && second.Some? && multiset(second.value) == multiset{row}
  {
    var e := new LocalExecutor.Empty();
    var t1, v1 := PassingView(e, table, keyColumns);
    var t2, v2 := PassingView(e, table, keyColumns);
    NewIsRight(e.nodes, e.states, e.groups, e.tables, t2, v1);
    NewIsRight(e.nodes, e.states, e.groups, e.tables, t2, v2);
    InsertIsApplicable(row);
    e.ApplyWrite(table, [Positive(row)]);
    OneRow(e.tables[t2], row, keyColumns);
    first := LookupPassing(e, t1, v1, Columns(row, keyColumns));
    second := LookupPassing(e, t2, v2, Columns(row, keyColumns));
  }

  method ViewOfOne(table: string, row: Row, keyColumns: seq<nat>) returns (e: LocalExecutor, t: nat, v: nat)
    ensures fresh(e) && e.Structured() && Passes(e.nodes, t, v) && e.Right(v)
    ensures e.states[v].Some? && e.states[v].value.keyColumns == keyColumns
    ensures Moves([], [Positive(row)], e.tables[t])
  {
    e := new LocalExecutor.Empty();
    t, v := PassingView(e, table, keyColumns);
    NewIsRight(e.nodes, e.states, e.groups, e.tables, t, v);
    InsertIsApplicable(row);
    e.ApplyWrite(table, [Positive(row)]);
  }

  /** A row of a view, then the table named once more, even by a SELECT that is refused: whatever is written after
      that, a deletion of the row included, the view goes on showing it. */
  method StaleView(table: string, row: Row, keyColumns: seq<nat>, records: seq<Record>) returns (r: Option<seq<Row>>)
    ensures r.Some? && multiset(r.value) == multiset{row}
  {
    var e, t, v := ViewOfOne(table, row, keyColumns);
    OneRow(e.tables[t], row, keyColumns);
    var again := e.AddBaseTable(table);
    NotBelowFits(e.nodes, again, v);
    e.ApplyWrite(table, records);
    r := LookupPassing(e, t, v, Columns(row, keyColumns));
  }

  // ---------------------------------------------------------------------------
  // A cached read and SQLite's own answer
  // ---------------------------------------------------------------------------

  /** What SQLite selects: nothing equals NULL. */
  function Selected(rows: seq<Row>, cols: seq<nat>, key: Row): seq<Row> {
    if Null in key then [] else RowsWith(rows, cols, key)
  }

  /** Column by column: each row with these values, none of them NULL, as often as it is there. */
  lemma SelectedExactly(rows: seq<Row>, cols: seq<nat>, key: Row, r: Row)
    ensures multiset(Selected(rows, cols, key))[r] ==
            if Null !in key && HasValues(r, cols, key) then multiset(rows)[r] else 0
  {
    RowsWithExactly(rows, cols, key, r);
  }

  /** A hit of a plain view is what SQLite itself would answer now, inside an open transaction too, exactly when
      the key has no NULL and no row changed since the last hand-over is or was under it; on a miss SQLite is
      asked. */
  method ReadPlain(cached: Cached, t: nat, node: nat, key: Row, ghost c: nat, ghost current: seq<Row>)
    returns (r: Option<seq<Row>>)
    requires cached.Wired() && cached.noria.Ready()
    requires cached.Sound(node, cached.noria.mirror) && cached.Connected(node)
    requires Passes(cached.executor.nodes, t, node) && cached.executor.states[node].Some? && t in cached.nameOf
    requires var name := cached.nameOf[t];
             && IdAt(cached.noria.commits[cached.noria.known], name, c) && IdAt(cached.noria.db.content, name, c)
             && multiset(current) == TableBag(cached.noria.db.content, name)
    ensures var known, now := cached.noria.commits[cached.noria.known], cached.noria.db.content;
            var cols := cached.executor.states[node].value.keyColumns;
            r.Some? ==> (multiset(r.value) == multiset(Selected(current, cols, key)) <==>
                         Null !in key && Untouched(known, now, cached.nameOf[t], cols, key))
  {
    ghost var known, name := cached.noria.commits[cached.noria.known], cached.nameOf[t];
    ghost var rows := cached.executor.tables[t];
    PassedOn(cached.executor.nodes, cached.executor.tables, t, node);
    assert BaseAbove(cached.executor.nodes, t, node);
    assert cached.Source(t, cached.noria.mirror) && W.Live(cached.At(cached.noria.mirror), t);
    assert W.InStep(cached.At(cached.noria.mirror), t);
    BagRestrict(known, cached.noria.viewed, name);
    SameUnderKey(known, cached.noria.db.content, name, c, rows, current,
                 cached.executor.states[node].value.keyColumns, key);
    r := LookupPassing(cached.executor, t, node, key);
    if r.Some? { SomeRows(r.value, RowsWith(rows, cached.executor.states[node].value.keyColumns, key)); }
  }

  lemma SomeRows(found: seq<Row>, rows: seq<Row>)
    requires multiset(found) == multiset(rows) && rows != []
    ensures multiset(found) != multiset{}
  {
    assert rows[0] in multiset(rows);
  }

  // ---------------------------------------------------------------------------
  // From a new connection to a read
  // ---------------------------------------------------------------------------

  /** What the converter builds for the first SELECT with a parameter. */
  function FirstBuild(keyColumns: seq<nat>): seq<Build> {
    [Grow(Filter(AlwaysTrue()), [0]), Keep(1, keyColumns)]
  }

  function FirstNodes(): seq<Node> {
    [Node(Base, [], [1]), Node(Filter(AlwaysTrue()), [0], [])]
  }

  lemma FirstGraph(keyColumns: seq<nat>)
    ensures var g := Graph(FirstNodes(), [None, Some(keyColumns)]);
            BuiltAll(WithTables(Graph([], []), 1), FirstBuild(keyColumns)) == g && Proper(g)
    ensures Legal(FirstBuild(keyColumns), 1) && Apart(FirstBuild(keyColumns), 0)
  {
    var build, empty := FirstBuild(keyColumns), Graph([], []);
    var base: Node := Node(Base, [], []);
    assert WithTables(empty, 0) == empty && Adding([], Base, []) == [base];
    var g1 := WithTables(empty, 1);
    assert g1 == Graph([base], [None]);
    var op := Filter(AlwaysTrue());
    assert [0][1..] == [] && B.Listing(base, 0, [0], 1) == Node(Base, [], [1]);
    assert Adding([base], op, [0]) == FirstNodes();
    var g2 := BuiltOne(g1, build[0]);
    assert g2 == Graph(FirstNodes(), [None, None]);
    var g3 := BuiltOne(g2, build[1]);
    assert build[1..] == [build[1]] && build[1..][1..] == [];
    assert BuiltAll(g3, []) == g3 && BuiltAll(g2, build[1..]) == g3 && BuiltAll(g1, build) == g3;
    assert Legal([], 2) && Legal(build[1..], 2);
    TablesProper(empty, 1);
    BuiltProper(g1, build, 1);
  }

  lemma FirstAnswers(keyColumns: seq<nat>, table: string, told: C.Content)
    requires TableBag(told, table) == multiset{}
    ensures Answers(Graph(FirstNodes(), [None, Some(keyColumns)]), {table}, told, [table], 0, 1)
  {
    FirstGraph(keyColumns);
    var g := Graph(FirstNodes(), [None, Some(keyColumns)]);
    forall k: nat | BaseAbove(g.nodes, k, 1) ensures Starts({table}, told, [table], 0, k) {
      ReachesUp(g.nodes, k, 1);
    }
  }

  lemma NoRows(m: C.Content, table: string)
    requires forall k :: k in m ==> k.table != table
    ensures TableBag(m, table) == multiset{}
  {
    assert KeysOf(m, table) == {};
  }

  function FirstEvents(content: C.Content, k: C.Key, row: Row, keyColumns: seq<nat>): seq<Event> {
    [Prepare([k.table], FirstBuild(keyColumns), {k.table}, true, true),
     Do(C.Run(C.Write(content[k := row], {k}), C.Insert, true, 1, true, true))]
  }

  lemma FirstMoments(content: C.Content, k: C.Key, row: Row, keyColumns: seq<nat>)
    ensures var start, events := Beginning(content), FirstEvents(content, k, row, keyColumns);
            var g, after := Graph(FirstNodes(), [None, Some(keyColumns)]), content[k := row];
            var mid := Moment(C.S.Closed(content), {k.table}, true, content, g, map[0 := k.table]);
            && Doable(events[0], start) && Next(start, events[0]) == mid
            && Doable(events[1], mid) && Next(mid, events[1]) == mid.(db := C.S.Closed(after), told := after)
  {
    var start, events := Beginning(content), FirstEvents(content, k, row, keyColumns);
    FirstGraph(keyColumns);
    assert [k.table][..0] == [] && NamesWith(map[], [], 0) == map[];
    assert NamesWith(map[], [k.table], 0) == map[0 := k.table];
    var stmt := C.Write(content[k := row], {k});
    assert [stmt][1..] == [] && C.Steps(C.Step(start.db, stmt), []) == C.S.Closed(content[k := row]);
    assert C.CoveredAll(C.Step(start.db, stmt), []);
  }

  lemma FirstRun(content: C.Content, k: C.Key, row: Row, keyColumns: seq<nat>)
    requires forall q :: q in content ==> q.table != k.table
    ensures var start, events := Beginning(content), FirstEvents(content, k, row, keyColumns);
            var g, after := Graph(FirstNodes(), [None, Some(keyColumns)]), content[k := row];
            && Runnable(events, start)
            && After(start, events) == Moment(C.S.Closed(after), {k.table}, true, after, g, map[0 := k.table])
            && AnswersFrom(events, start, 0, 1) && !TakenLater(events, start, 0, 1)
  {
    var start, events := Beginning(content), FirstEvents(content, k, row, keyColumns);
    FirstMoments(content, k, row, keyColumns);
    var mid := Next(start, events[0]);
    assert events[1..] == [events[1]] && events[1..][1..] == [];
    assert Runnable([], Next(mid, events[1])) && Runnable(events[1..], mid);
    assert After(Next(mid, events[1]), []) == Next(mid, events[1]) && After(mid, events[1..]) == Next(mid, events[1]);
    NoRows(C.Restrict(content, {k.table}), k.table);
    FirstAnswers(keyColumns, k.table, C.Restrict(content, {k.table}));
    AnswersFirst(events, start, 1);
  }

  lemma RowAlone(row: Row, cols: seq<nat>)
    ensures RowsWith([row], cols, Columns(row, cols)) == [row]
  {
    assert [row][..0] == [];
  }

  /** A new connection to a database where a table is empty; a SELECT over it is prepared, a row inserted: a read
      under its key finds it. */
  method FirstRead(content: C.Content, k: C.Key, row: Row, keyColumns: seq<nat>) returns (r: Option<seq<Row>>)
    requires forall q :: q in content ==> q.table != k.table
    ensures r.Some? && multiset(r.value) == multiset{row}
  {
    var cached := new Cached(content);
    var events := FirstEvents(content, k, row, keyColumns);
    FirstRun(content, k, row, keyColumns);
    ghost var trace := cached.RunScript(events, {});
    FirstFound(cached, content, k, row, keyColumns);
    r := cached.ReadPrepared(events, Beginning(content), 0, 1, Columns(row, keyColumns), [[row], []]);
  }

  lemma FirstFound(cached: Cached, content: C.Content, k: C.Key, row: Row, keyColumns: seq<nat>)
    requires forall q :: q in content ==> q.table != k.table
    requires cached.Started() && cached.executor.nodes == FirstNodes()
    requires KeyedBy(cached.executor.states) == [None, Some(keyColumns)]
    ensures cached.executor.states[1].Some? && cached.executor.states[1].value.keyColumns == keyColumns
    ensures RowsWith(Answer(FirstNodes(), [[row], []], 1), keyColumns, Columns(row, keyColumns)) == [row]
    ensures TableBag(content[k := row], k.table) == multiset{row}
  {
    assert KeyedBy(cached.executor.states)[1] == KeyColumnsOf(cached.executor.states[1]);
    PassedOn(FirstNodes(), [[row], []], 0, 1);
    RowAlone(row, keyColumns);
    NoRows(content, k.table);
    BagPut(content, k, Some(row));
  }
}
