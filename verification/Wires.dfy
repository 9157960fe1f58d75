/** Which base node of the dataflow hears of which table, as steps: changes are told, tables are named again
    and again, and views widen what is told. */
module Wires {
  import opened Values
  import opened Tables
  import C = Capture

  /** `told`: the tables with views as the dataflow has been told of them. Every base node has a table it was
      named for and rows it has heard of; `bound` says which node hears of a table now. */
  datatype State = State(
    told: C.Content, viewed: set<string>, names: map<nat, string>, rows: map<nat, multiset<Row>>,
    bound: map<string, nat>)

  datatype Step =
    | Tell(change: C.Change)
    | Name(table: string, node: nat)                  // a text with this table is prepared
    | Widen(tables: set<string>, more: C.Content)     // a view is accepted that is the first to use them

  /** What a node makes of a change. A row it has never heard of is not taken away; the state below would still take
      the new row of such an UPDATE in, which only concerns nodes that are out of step, and of those nothing is said. */
  function Heard(rows: multiset<Row>, e: C.Change): multiset<Row> {
    if C.Copies(e.before) <= rows then rows - C.Copies(e.before) + C.Copies(e.after) else rows
  }

  ghost predicate Consistent(w: State) {
    w.names.Keys == w.rows.Keys && forall t :: t in w.bound ==> w.bound[t] in w.names && w.names[w.bound[t]] == t
  }

  ghost predicate Enabled(w: State, step: Step) {
    match step
    case Tell(e) => e.key.table in w.viewed && C.Get(w.told, e.key) == e.before != e.after
    case Name(_, n) => n !in w.names
    case Widen(tables, more) => tables !! w.viewed && forall k :: k in more ==> k.table in tables
  }

  function Next(w: State, step: Step): State
    requires step.Tell? && step.change.key.table in w.bound ==> w.bound[step.change.key.table] in w.rows
  {
    match step
    case Tell(e) =>
      var told := C.Put(w.told, e.key, e.after);
      if e.key.table !in w.bound then w.(told := told)
      else
        var b := w.bound[e.key.table];
        w.(told := told, rows := w.rows[b := Heard(w.rows[b], e)])
    case Name(t, n) => w.(names := w.names[n := t], rows := w.rows[n := multiset{}], bound := w.bound[t := n])
    case Widen(tables, more) => w.(told := w.told + more, viewed := w.viewed + tables)
  }

  lemma NextConsistent(w: State, step: Step)
    requires Consistent(w) && Enabled(w, step)
    ensures Consistent(Next(w, step))
    ensures forall k :: k in w.names ==> k in Next(w, step).names && Next(w, step).names[k] == w.names[k]
    ensures w.viewed <= Next(w, step).viewed
  {
  }

  /** A run, and where it leads. */
  ghost predicate Runs(w: State, steps: seq<Step>)
    decreases steps
  {
    Consistent(w) && (steps != [] ==> Enabled(w, steps[0]) && Runs(Next(w, steps[0]), steps[1..]))
  }

  ghost function After(w: State, steps: seq<Step>): (w': State)
    requires Runs(w, steps)
    ensures Consistent(w')
    decreases steps
  {
    if steps == [] then w else After(Next(w, steps[0]), steps[1..])
  }

  /** The steps can be taken, and lead from one state to the other. */
  ghost predicate Leads(w: State, steps: seq<Step>, w': State) {
    Runs(w, steps) && After(w, steps) == w'
  }

  lemma LeadsOn(w: State, a: seq<Step>, w': State, b: seq<Step>, w'': State)
    requires Leads(w, a, w') && Leads(w', b, w'')
    ensures Leads(w, a + b, w'')
  {
    RunsOn(w, a, b);
  }

  lemma LeadsByOne(w: State, steps: seq<Step>, w': State, step: Step)
    requires Leads(w, steps, w') && Enabled(w', step)
    ensures Leads(w, steps + [step], Next(w', step))
  {
    NextConsistent(w', step);
    assert [step][1..] == [];
    assert Runs(Next(w', step), []) && Runs(w', [step]) && After(w', [step]) == Next(w', step);
    RunsOn(w, steps, [step]);
  }

  lemma {:induction false} RunsOn(w: State, a: seq<Step>, b: seq<Step>)
    requires Runs(w, a) && Runs(After(w, a), b)
    ensures Runs(w, a + b) && After(w, a + b) == After(After(w, a), b)
    decreases a
  {
    if a == [] {
      assert a + b == b;
    } else {
      assert (a + b)[0] == a[0] && (a + b)[1..] == a[1..] + b;
      RunsOn(Next(w, a[0]), a[1..], b);
    }
  }

  // ---------------------------------------------------------------------------
  // Base nodes that hear of their table, and ones that are right about it
  // ---------------------------------------------------------------------------

  /** Changes of its table reach the node. */
  predicate Live(w: State, k: nat) {
    k in w.names && w.names[k] in w.bound && w.bound[w.names[k]] == k
  }

  /** It has exactly the rows of its table that were told. */
  ghost predicate InStep(w: State, k: nat) {
    k in w.names && k in w.rows && w.rows[k] == TableBag(w.told, w.names[k])
  }

  predicate Naming(steps: seq<Step>, table: string) {
    exists i :: 0 <= i < |steps| && steps[i].Name? && steps[i].table == table
  }

  predicate OnlyTells(steps: seq<Step>) {
    forall i :: 0 <= i < |steps| ==> steps[i].Tell?
  }

  lemma NamingNext(steps: seq<Step>, table: string)
    requires steps != []
    ensures Naming(steps, table) <==> (steps[0].Name? && steps[0].table == table) || Naming(steps[1..], table)
  {
    if Naming(steps[1..], table) {
      var i :| 0 <= i < |steps[1..]| && steps[1..][i].Name? && steps[1..][i].table == table;
      assert steps[i + 1].Name? && steps[i + 1].table == table;
    }
    if Naming(steps, table) {
      var i :| 0 <= i < |steps| && steps[i].Name? && steps[i].table == table;
      if i > 0 { assert steps[1..][i - 1].Name? && steps[1..][i - 1].table == table; }
    }
  }

  /** Only naming its table cuts a node off, and nothing reconnects it. */
  lemma LiveNext(w: State, step: Step, k: nat)
    requires Consistent(w) && Enabled(w, step) && k in w.names
    ensures Live(Next(w, step), k) <==> Live(w, k) && !(step.Name? && step.table == w.names[k])
  {
  }

  /** A node that hears of its table stays right about it under every step but naming the table again. */
  lemma InStepNext(w: State, step: Step, k: nat)
    requires Consistent(w) && Enabled(w, step) && Live(w, k) && InStep(w, k) && w.names[k] in w.viewed
    requires !(step.Name? && step.table == w.names[k])
    ensures InStep(Next(w, step), k)
  {
    match step
    case Tell(e) =>
      if e.key.table == w.names[k] {
        BagPut(w.told, e.key, e.after);
      } else {
        BagPutElsewhere(w.told, e.key, e.after, w.names[k]);
      }
    case Name(_, _) =>
    case Widen(tables, more) => BagAgrees(w.told, w.told + more, w.names[k]);
  }

  lemma {:induction false} LiveAfter(w: State, steps: seq<Step>, k: nat)
    requires Runs(w, steps) && k in w.names
    ensures var w' := After(w, steps); k in w'.names && w'.names[k] == w.names[k] && w.viewed <= w'.viewed
    ensures Live(After(w, steps), k) <==> Live(w, k) && !Naming(steps, w.names[k])
    decreases steps
  {
    if steps != [] {
      NextConsistent(w, steps[0]);
      LiveNext(w, steps[0], k);
      LiveAfter(Next(w, steps[0]), steps[1..], k);
      NamingNext(steps, w.names[k]);
    }
  }

  lemma {:induction false} InStepAfter(w: State, steps: seq<Step>, k: nat)
    requires Runs(w, steps) && Live(w, k) && InStep(w, k) && w.names[k] in w.viewed && !Naming(steps, w.names[k])
    ensures InStep(After(w, steps), k)
    decreases steps
  {
    if steps != [] {
      NextConsistent(w, steps[0]);
      LiveNext(w, steps[0], k);
      NamingNext(steps, w.names[k]);
      InStepNext(w, steps[0], k);
      InStepAfter(Next(w, steps[0]), steps[1..], k);
    }
  }

  /** A node that is cut off keeps the rows it had. */
  lemma {:induction false} CutOff(w: State, steps: seq<Step>, k: nat)
    requires Runs(w, steps) && k in w.names && !Live(w, k)
    ensures k in After(w, steps).rows && After(w, steps).rows[k] == w.rows[k]
    decreases steps
  {
    if steps != [] {
      NextConsistent(w, steps[0]);
      LiveNext(w, steps[0], k);
      CutOff(Next(w, steps[0]), steps[1..], k);
    }
  }

  // ---------------------------------------------------------------------------
  // The exact condition
  // ---------------------------------------------------------------------------

  lemma {:induction false} Bounded(ks: set<C.Key>) returns (n: nat)
    ensures forall k :: k in ks && k.id.Integer? ==> k.id.n < n
    decreases |ks|
  {
    n := 0;
    if ks != {} {
      var k :| k in ks;
      n := Bounded(ks - {k});
      if k.id.Integer? && k.id.n >= n { n := k.id.n + 1; }
    }
  }

  /** There is always a row to insert. */
  lemma FreshRow(m: C.Content, table: string) returns (k: C.Key)
    ensures k.table == table && k !in m
  {
    var n := Bounded(m.Keys);
    k := C.Key(table, Integer(n));
  }

  /** A cut-off node is not right about its table both before and after a change of it. */
  lemma CutOffMisses(w: State, k: nat, row: Row) returns (e: C.Change)
    requires Consistent(w) && k in w.names && !Live(w, k) && w.names[k] in w.viewed && InStep(w, k)
    ensures Enabled(w, Tell(e)) && !InStep(Next(w, Tell(e)), k)
  {
    var key := FreshRow(w.told, w.names[k]);
    e := C.Change(key, None, Some(row));
    BagPut(w.told, key, Some(row));
    var more := TableBag(Next(w, Tell(e)).told, w.names[k]);
    assert more == w.rows[k] + multiset{row};
    assert more[row] == w.rows[k][row] + 1;
  }

  /** From a node that is right about its table: after any run it stays right whatever is told next, exactly
      when no step of the run has named its table again. */
  lemma FollowsExactly(w: State, steps: seq<Step>, k: nat)
    requires Runs(w, steps) && Live(w, k) && InStep(w, k) && w.names[k] in w.viewed
    ensures (forall more :: OnlyTells(more) && Runs(After(w, steps), more) ==>
                              InStep(After(After(w, steps), more), k)) <==>
            !Naming(steps, w.names[k])
  {
    var w' := After(w, steps);
    LiveAfter(w, steps, k);
    if !Naming(steps, w.names[k]) {
      InStepAfter(w, steps, k);
      forall more | OnlyTells(more) && Runs(w', more) ensures InStep(After(w', more), k) {
        InStepAfter(w', more, k);
      }
    } else if InStep(w', k) {
      var e := CutOffMisses(w', k, []);
      var more := [Tell(e)];
      assert more[1..] == [];
      NextConsistent(w', Tell(e));
      assert Runs(Next(w', Tell(e)), []);
      assert Runs(w', more) && OnlyTells(more);
      assert After(w', more) == Next(w', Tell(e));
    } else {
      var none: seq<Step> := [];
      assert Runs(w', none) && OnlyTells(none) && After(w', none) == w';
    }
  }
}
