/** The dataflow graph: who feeds whom. */
module Graphs {
  import opened Values
  import opened Joins
  import opened Aggregates

  datatype Op =
    | Base
    | Identity
    | Filter(keep: Row -> bool)
    | Project(emit: seq<nat>)
    | Join(join: JoinOp)
    | Aggregate(agg: AggregateOp)

  datatype Node = Node(op: Op, parents: seq<nat>, children: seq<nat>)

  /** Parents are created before their children. */
  ghost predicate Ordered(nodes: seq<Node>) {
    forall i, k :: 0 <= i < |nodes| && 0 <= k < |nodes[i].parents| ==> nodes[i].parents[k] < i
  }

  ghost predicate Arity(nodes: seq<Node>) {
    forall i :: 0 <= i < |nodes| ==>
      |nodes[i].parents| == match nodes[i].op case Base => 0 case Join(_) => 2 case _ => 1
  }

  /** Each input is an edge on the parent's side too; only a join fed twice by one node is listed twice there. */
  ghost predicate Linked(nodes: seq<Node>) {
    && (forall p :: 0 <= p < |nodes| ==> ChildrenLinked(nodes, p))
    && (forall c :: 0 <= c < |nodes| ==> ParentsLinked(nodes, c))
  }

  ghost predicate ChildrenLinked(nodes: seq<Node>, p: nat)
    requires p < |nodes|
  {
    && (forall k :: 0 <= k < |nodes[p].children| ==>
          nodes[p].children[k] < |nodes| && p in nodes[nodes[p].children[k]].parents)
    && (forall j, k :: 0 <= j < k < |nodes[p].children| && nodes[p].children[j] == nodes[p].children[k] ==>
          nodes[nodes[p].children[k]].parents == [p, p])
  }

  ghost predicate ParentsLinked(nodes: seq<Node>, c: nat)
    requires c < |nodes|
  {
    forall k :: 0 <= k < |nodes[c].parents| && nodes[c].parents[k] < |nodes| ==>
      c in nodes[nodes[c].parents[k]].children
  }

  /** `a` is `b` or one of its ancestors. */
  ghost predicate Reaches(nodes: seq<Node>, a: nat, b: nat)
    requires Ordered(nodes)
    decreases b
  {
    a == b || (b < |nodes| && exists k :: 0 <= k < |nodes[b].parents| && Reaches(nodes, a, nodes[b].parents[k]))
  }

  ghost predicate WellFormed(nodes: seq<Node>) {
    Ordered(nodes) && Arity(nodes) && Linked(nodes)
  }

  /** How often a node is listed. */
  function Copies(xs: seq<nat>, x: nat): nat {
    if xs == [] then 0 else (if xs[0] == x then 1 else 0) + Copies(xs[1..], x)
  }

  /** Children are listed in the order they were created. */
  predicate Ascending(xs: seq<nat>) {
    forall a, b :: 0 <= a < b < |xs| ==> xs[a] <= xs[b]
  }

  /** What a write to `b` asks of join `c`: if it arrives on both inputs, neither of them feeds the
      other; and it does not arrive on the right input of a left join. */
  ghost predicate Fit(nodes: seq<Node>, b: nat, c: nat)
    requires WellFormed(nodes) && c < |nodes| && nodes[c].op.Join?
  {
    var l, r := nodes[c].parents[0], nodes[c].parents[1];
    && (Reaches(nodes, b, l) && Reaches(nodes, b, r) ==> !Reaches(nodes, l, r) && !Reaches(nodes, r, l))
    && (nodes[c].op.join.joinType.Left? ==> !Reaches(nodes, b, r))
  }

  /** All joins a node's rows come through are fit for a write to `b`. */
  ghost predicate FitAbove(nodes: seq<Node>, b: nat, i: nat)
    requires WellFormed(nodes)
  {
    forall c :: 0 <= c < |nodes| && nodes[c].op.Join? && Reaches(nodes, c, i) ==> Fit(nodes, b, c)
  }

  lemma {:induction false} ReachesUp(nodes: seq<Node>, a: nat, b: nat)
    requires Ordered(nodes) && Reaches(nodes, a, b)
    ensures a <= b
    decreases b
  {
    if a != b {
      var k :| 0 <= k < |nodes[b].parents| && Reaches(nodes, a, nodes[b].parents[k]);
      ReachesUp(nodes, a, nodes[b].parents[k]);
    }
  }

  lemma {:induction false} ReachesTransitive(nodes: seq<Node>, a: nat, b: nat, c: nat)
    requires Ordered(nodes) && Reaches(nodes, a, b) && Reaches(nodes, b, c)
    ensures Reaches(nodes, a, c)
    decreases c
  {
    if b != c {
      var k :| 0 <= k < |nodes[c].parents| && Reaches(nodes, b, nodes[c].parents[k]);
      ReachesTransitive(nodes, a, b, nodes[c].parents[k]);
    }
  }

  lemma ReachesChild(nodes: seq<Node>, p: nat, k: nat)
    requires WellFormed(nodes) && p < |nodes| && k < |nodes[p].children|
    ensures nodes[p].children[k] < |nodes| && Reaches(nodes, p, nodes[p].children[k]) && p < nodes[p].children[k]
    ensures p in nodes[nodes[p].children[k]].parents
  {
    assert ChildrenLinked(nodes, p);
    var c := nodes[p].children[k];
    var m :| 0 <= m < |nodes[c].parents| && nodes[c].parents[m] == p;
    assert Reaches(nodes, p, nodes[c].parents[m]);
  }

  /** No node is above its own inputs. */
  lemma NotAboveParent(nodes: seq<Node>, i: nat, m: nat)
    requires WellFormed(nodes) && i < |nodes| && m < |nodes[i].parents|
    ensures nodes[i].parents[m] < i && Reaches(nodes, nodes[i].parents[m], i) && !Reaches(nodes, i, nodes[i].parents[m])
  {
    assert Reaches(nodes, nodes[i].parents[m], nodes[i].parents[m]);
    if Reaches(nodes, i, nodes[i].parents[m]) { ReachesUp(nodes, i, nodes[i].parents[m]); }
  }
}
