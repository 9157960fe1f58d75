/** Growing the dataflow graph one operator at a time. */
module Building {
  import opened Graphs

  function Repeat(x: nat, n: nat): (xs: seq<nat>)
    ensures |xs| == n && forall i :: 0 <= i < n ==> xs[i] == x
  {
    seq(n, _ => x)
  }

  /** The node with `c` listed once more for each time it is one of `parents`. */
  function Listing(node: Node, p: nat, parents: seq<nat>, c: nat): Node {
    node.(children := node.children + Repeat(c, Copies(parents, p)))
  }

  /** Children come in the order they were created, everywhere. */
  ghost predicate Ordinary(nodes: seq<Node>) {
    WellFormed(nodes) && forall p :: 0 <= p < |nodes| ==> Ascending(nodes[p].children)
  }

  predicate FitsArity(op: Op, parents: seq<nat>) {
    |parents| == match op case Base => 0 case Join(_) => 2 case _ => 1
  }

  lemma {:induction false} CopiesAppend(xs: seq<nat>, y: nat, x: nat)
    ensures Copies(xs + [y], x) == Copies(xs, x) + if x == y then 1 else 0
  {
    if xs == [] {
      assert xs + [y] == [y] && [y][1..] == [];
    } else {
      assert (xs + [y])[0] == xs[0] && (xs + [y])[1..] == xs[1..] + [y];
      CopiesAppend(xs[1..], y, x);
    }
  }

  lemma {:induction false} CopiesIn(xs: seq<nat>, x: nat)
    ensures Copies(xs, x) > 0 <==> x in xs
    ensures Copies(xs, x) <= |xs|
  {
    if xs != [] { CopiesIn(xs[1..], x); }
  }

  lemma {:induction false} CopiesConcat(a: seq<nat>, b: seq<nat>, x: nat)
    ensures Copies(a + b, x) == Copies(a, x) + Copies(b, x)
  {
    if a == [] {
      assert a + b == b;
    } else {
      assert (a + b)[0] == a[0] && (a + b)[1..] == a[1..] + b;
      CopiesConcat(a[1..], b, x);
    }
  }

  lemma {:induction false} CopiesRepeat(x: nat, n: nat)
    ensures Copies(Repeat(x, n), x) == n
  {
    if n > 0 {
      assert Repeat(x, n)[1..] == Repeat(x, n - 1);
      CopiesRepeat(x, n - 1);
    }
  }

  lemma TwiceIsBoth(xs: seq<nat>, x: nat)
    requires |xs| <= 2 && Copies(xs, x) >= 2
    ensures xs == [x, x]
  {
    CopiesIn(xs, x);
    assert |xs| == 2;
    assert Copies(xs, x) == (if xs[0] == x then 1 else 0) + Copies(xs[1..], x);
    CopiesIn(xs[1..], x);
    assert xs[1..] == [xs[1]];
  }

  /** `nodes'` is `nodes` with one more operator. */
  ghost predicate Added(nodes: seq<Node>, op: Op, parents: seq<nat>, nodes': seq<Node>) {
    && |nodes'| == |nodes| + 1 && nodes'[|nodes|] == Node(op, parents, [])
    && forall p :: 0 <= p < |nodes| ==> nodes'[p] == Listing(nodes[p], p, parents, |nodes|)
  }

  lemma AddedChildren(nodes: seq<Node>, op: Op, parents: seq<nat>, nodes': seq<Node>, p: nat)
    requires WellFormed(nodes) && |parents| <= 2 && Added(nodes, op, parents, nodes') && p < |nodes|
    ensures ChildrenLinked(nodes', p) && (Ascending(nodes[p].children) ==> Ascending(nodes'[p].children))
  {
    var idx, old_, now := |nodes|, nodes[p].children, nodes'[p].children;
    assert ChildrenLinked(nodes, p);
    assert forall k :: 0 <= k < |now| ==> now[k] == if k < |old_| then old_[k] else idx;
    CopiesIn(parents, p);
    if Copies(parents, p) >= 2 { TwiceIsBoth(parents, p); }
    forall k | 0 <= k < |now| ensures now[k] < |nodes'| && p in nodes'[now[k]].parents {
      if k < |old_| { assert p in nodes[old_[k]].parents; }
    }
    forall j, k | 0 <= j < k < |now| && now[j] == now[k] ensures nodes'[now[k]].parents == [p, p] {
      if k < |old_| { assert nodes[old_[k]].parents == [p, p]; }
    }
  }

  lemma AddedParents(nodes: seq<Node>, op: Op, parents: seq<nat>, nodes': seq<Node>, c: nat)
    requires WellFormed(nodes) && Added(nodes, op, parents, nodes') && c <= |nodes|
    requires forall k :: 0 <= k < |parents| ==> parents[k] < |nodes|
    ensures ParentsLinked(nodes', c)
  {
    forall k | 0 <= k < |nodes'[c].parents| && nodes'[c].parents[k] < |nodes'|
      ensures c in nodes'[nodes'[c].parents[k]].children
    {
      var q := nodes'[c].parents[k];
      if c < |nodes| {
        assert ParentsLinked(nodes, c) && q < c;
        assert c in nodes[q].children;
      } else {
        CopiesIn(parents, q);
        assert nodes'[q].children[|nodes[q].children|] == c;
      }
    }
  }

  lemma AddedIsWellFormed(nodes: seq<Node>, op: Op, parents: seq<nat>, nodes': seq<Node>)
    requires WellFormed(nodes) && FitsArity(op, parents) && Added(nodes, op, parents, nodes')
    requires forall k :: 0 <= k < |parents| ==> parents[k] < |nodes|
    ensures WellFormed(nodes') && (Ordinary(nodes) ==> Ordinary(nodes'))
  {
    forall p | 0 <= p < |nodes'|
      ensures ChildrenLinked(nodes', p) && (Ordinary(nodes) ==> Ascending(nodes'[p].children))
    {
      if p < |nodes| { AddedChildren(nodes, op, parents, nodes', p); }
    }
    forall c | 0 <= c < |nodes'| ensures ParentsLinked(nodes', c) {
      AddedParents(nodes, op, parents, nodes', c);
    }
    assert Ordered(nodes') && Arity(nodes');
  }

  lemma ListedOncePerInput(nodes: seq<Node>, parents: seq<nat>, p: nat)
    requires WellFormed(nodes) && p < |nodes|
    ensures Copies(Listing(nodes[p], p, parents, |nodes|).children, |nodes|) == Copies(parents, p)
  {
    assert ChildrenLinked(nodes, p);
    CopiesIn(nodes[p].children, |nodes|);
    CopiesConcat(nodes[p].children, Repeat(|nodes|, Copies(parents, p)), |nodes|);
    CopiesRepeat(|nodes|, Copies(parents, p));
  }

  /** Adding an operator: its number is pushed onto its parents' children, once for each input, and the graph
      stays one the executor's laws are about. */
  method AddOperator(nodes: seq<Node>, op: Op, parents: seq<nat>) returns (nodes': seq<Node>, idx: nat)
    requires WellFormed(nodes) && FitsArity(op, parents) && forall k :: 0 <= k < |parents| ==> parents[k] < |nodes|
    ensures idx == |nodes| && Added(nodes, op, parents, nodes') && WellFormed(nodes')
    ensures Ordinary(nodes) ==> Ordinary(nodes')
    ensures forall p :: 0 <= p < |nodes| ==> Copies(nodes'[p].children, idx) == Copies(parents, p)
  {
    idx := |nodes|;
    nodes' := PushChild(nodes, parents, idx);
    nodes' := nodes' + [Node(op, parents, [])];
    AddedIsWellFormed(nodes, op, parents, nodes');
    forall p | 0 <= p < |nodes| ensures Copies(nodes'[p].children, idx) == Copies(parents, p) {
      ListedOncePerInput(nodes, parents, p);
    }
  }

  /** The loop over the parents. */
  method PushChild(nodes: seq<Node>, parents: seq<nat>, idx: nat) returns (nodes': seq<Node>)
    requires forall k :: 0 <= k < |parents| ==> parents[k] < |nodes|
    ensures |nodes'| == |nodes|
    ensures forall p :: 0 <= p < |nodes| ==> nodes'[p] == Listing(nodes[p], p, parents, idx)
  {
    nodes' := nodes;
    for k := 0 to |parents|
      invariant |nodes'| == |nodes|
      invariant forall p :: 0 <= p < |nodes| ==> nodes'[p] == Listing(nodes[p], p, parents[..k], idx)
    {
      var parent := parents[k];
      ghost var before := nodes';
      nodes' := nodes'[parent := nodes'[parent].(children := nodes'[parent].children + [idx])];
      forall p | 0 <= p < |nodes| ensures nodes'[p] == Listing(nodes[p], p, parents[..k + 1], idx) {
        CopiesAppend(parents[..k], parent, p);
        assert parents[..k + 1] == parents[..k] + [parent];
        RepeatNext(idx, Copies(parents[..k], p));
        assert before[p] == Listing(nodes[p], p, parents[..k], idx);
      }
    }
    assert parents[..|parents|] == parents;
  }

  lemma RepeatNext(x: nat, n: nat)
    ensures Repeat(x, n + 1) == Repeat(x, n) + [x]
  {
  }
}
