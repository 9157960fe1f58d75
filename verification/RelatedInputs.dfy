/** Joins whose two inputs are fed by one another, or are one node: what the executor sends them, and
    exactly when that is right. */
module RelatedInputs {
  import opened Values
  import opened ZSets
  import opened MemoryStates
  import opened Operators
  import opened Joins
  import opened Graphs
  import opened Executor

  /** All records sent to a node, in order. */
  function SentTo(log: seq<Sending>, i: nat): seq<Record> {
    if log == [] then []
    else SentTo(log[..|log| - 1], i) + if log[|log| - 1].node == i then log[|log| - 1].records else []
  }

  lemma {:induction false} SentToAppend(a: seq<Sending>, b: seq<Sending>, i: nat)
    ensures SentTo(a + b, i) == SentTo(a, i) + SentTo(b, i)
    decreases |b|
  {
    if b == [] {
      assert a + b == a;
    } else {
      assert (a + b)[..|a + b| - 1] == a + b[..|b| - 1];
      SentToAppend(a, b[..|b| - 1], i);
    }
  }

  lemma Regrouped(x: seq<Record>, y: seq<Record>, z: seq<Record>)
    ensures x + (y + z) == x + y + z
  {
  }

  lemma {:induction false} ExpandAppend(a: seq<Record>, b: seq<Record>, e: Row -> seq<Row>)
    ensures Expand(a + b, e) == Expand(a, e) + Expand(b, e)
    decreases |b|
  {
    if b == [] {
      assert a + b == a;
    } else {
      assert (a + b)[..|a + b| - 1] == a + b[..|b| - 1];
      ExpandAppend(a, b[..|b| - 1], e);
      Regrouped(Expand(a, e), Expand(b[..|b| - 1], e), Resign(b[|b| - 1], e(b[|b| - 1].row)));
    }
  }

  lemma {:induction false} StepsAppend(s: MemoryState, a: seq<Record>, b: seq<Record>)
    ensures Steps(s, a + b) == Steps(Steps(s, a), b)
    decreases |b|
  {
    if b == [] {
      assert a + b == a;
    } else {
      assert (a + b)[..|a + b| - 1] == a + b[..|b| - 1];
      StepsAppend(s, a, b[..|b| - 1]);
    }
  }

  // ---------------------------------------------------------------------------
  // What is not below a node is not sent anything
  // ---------------------------------------------------------------------------

  lemma {:induction false} FlowElsewhere(nodes: seq<Node>, s: States, from: nat, d: seq<Record>, i: nat)
    requires WellFormed(nodes) && |s| == |nodes| && from < |nodes| && i < |nodes| && !Reaches(nodes, from, i)
    ensures Flow(nodes, s, from, d).states[i] == s[i] && SentTo(Flow(nodes, s, from, d).log, i) == []
    decreases |nodes| - from, |nodes[from].children| + 1
  {
    if d != [] {
      var r := FlowChildren(nodes, Updated(s, from, d), from, 0, d);
      forall n | 0 <= n < |nodes[from].children| ensures !Reaches(nodes, nodes[from].children[n], i) {
        ReachesChild(nodes, from, n);
        if Reaches(nodes, nodes[from].children[n], i) { ReachesTransitive(nodes, from, nodes[from].children[n], i); }
      }
      FlowChildrenElsewhere(nodes, Updated(s, from, d), from, 0, d, i);
      SentToAppend([Sending(from, d)], r.log, i);
    }
  }

  lemma {:induction false} FlowChildrenElsewhere(nodes: seq<Node>, s: States, from: nat, k: nat, d: seq<Record>, i: nat)
    requires WellFormed(nodes) && |s| == |nodes| && from < |nodes| && k <= |nodes[from].children| && i < |nodes|
    requires forall n :: k <= n < |nodes[from].children| ==> !Reaches(nodes, nodes[from].children[n], i)
    ensures FlowChildren(nodes, s, from, k, d).states[i] == s[i]
    ensures SentTo(FlowChildren(nodes, s, from, k, d).log, i) == []
    decreases |nodes| - from, |nodes[from].children| - k
  {
    if k < |nodes[from].children| {
      ReachesChild(nodes, from, k);
      var c := nodes[from].children[k];
      var m := IndexOf(nodes[c].parents, from);
      var out := Output(nodes[c].op, m, d, StateFor(nodes, s, c, m));
      var r := Flow(nodes, s, c, out);
      FlowElsewhere(nodes, s, c, out, i);
      FlowChildrenElsewhere(nodes, r.states, from, k + 1, d, i);
      SentToAppend(r.log, FlowChildren(nodes, r.states, from, k + 1, d).log, i);
    }
  }

  lemma NoChildReaches(nodes: seq<Node>, from: nat, n: nat, i: nat)
    requires WellFormed(nodes) && from < |nodes| && n < |nodes[from].children| && i <= from
    ensures !Reaches(nodes, nodes[from].children[n], i)
  {
    ReachesChild(nodes, from, n);
    if Reaches(nodes, nodes[from].children[n], i) { ReachesUp(nodes, nodes[from].children[n], i); }
  }

  /** A node is sent once what is sent to it. */
  lemma SentOnce(nodes: seq<Node>, s: States, j: nat, d: seq<Record>)
    requires WellFormed(nodes) && |s| == |nodes| && j < |nodes|
    ensures SentTo(Flow(nodes, s, j, d).log, j) == d
    ensures Flow(nodes, s, j, d).states[j] == if s[j].Some? then Some(Steps(s[j].value, d)) else None
  {
    if d != [] {
      var s1 := Updated(s, j, d);
      forall n | 0 <= n < |nodes[j].children| ensures !Reaches(nodes, nodes[j].children[n], j) {
        NoChildReaches(nodes, j, n, j);
      }
      FlowChildrenElsewhere(nodes, s1, j, 0, d, j);
      SentToAppend([Sending(j, d)], FlowChildren(nodes, s1, j, 0, d).log, j);
      assert [Sending(j, d)][..0] == [];
    }
  }

  // ---------------------------------------------------------------------------
  // A join fed twice by one node
  // ---------------------------------------------------------------------------

  function Times(n: nat, out: seq<Record>): seq<Record> {
    if n == 0 then [] else out + Times(n - 1, out)
  }

  predicate FedTwice(nodes: seq<Node>, p: nat, j: nat) {
    p < j < |nodes| && nodes[j].op.Join? && nodes[j].parents == [p, p]
  }

  lemma OnlyThroughParent(nodes: seq<Node>, p: nat, j: nat, c: nat)
    requires WellFormed(nodes) && FedTwice(nodes, p, j) && p < c < |nodes| && c != j
    ensures !Reaches(nodes, c, j)
  {
    if Reaches(nodes, c, j) {
      var k :| 0 <= k < |nodes[j].parents| && Reaches(nodes, c, nodes[j].parents[k]);
      ReachesUp(nodes, c, p);
    }
  }

  lemma {:induction false} TwiceFedChildren(nodes: seq<Node>, s: States, p: nat, j: nat, k: nat, d: seq<Record>)
    requires WellFormed(nodes) && |s| == |nodes| && FedTwice(nodes, p, j) && s[p].Some? && k <= |nodes[p].children|
    ensures SentTo(FlowChildren(nodes, s, p, k, d).log, j) ==
            Times(Copies(nodes[p].children[k..], j), Expand(d, JoinStep(nodes[j].op.join, true, s[p].value)))
    decreases |nodes[p].children| - k
  {
    if k < |nodes[p].children| {
      ReachesChild(nodes, p, k);
      NoChildReaches(nodes, p, k, p);
      var c := nodes[p].children[k];
      var m := IndexOf(nodes[c].parents, p);
      var out := Output(nodes[c].op, m, d, StateFor(nodes, s, c, m));
      var r := Flow(nodes, s, c, out);
      FlowElsewhere(nodes, s, c, out, p);
      TwiceFedChildren(nodes, r.states, p, j, k + 1, d);
      SentToAppend(r.log, FlowChildren(nodes, r.states, p, k + 1, d).log, j);
      assert nodes[p].children[k..][1..] == nodes[p].children[k + 1..];
      if c == j {
        SentOnce(nodes, s, j, out);
      } else {
        OnlyThroughParent(nodes, p, j, c);
        FlowElsewhere(nodes, s, c, out, j);
      }
    }
  }

  /** It gets the delta paired with the node's new rows, once for each of its two entries among the children. */
  lemma TwiceFedSends(nodes: seq<Node>, s: States, p: nat, j: nat, d: seq<Record>)
    requires WellFormed(nodes) && NoAggregates(nodes) && |s| == |nodes| && FedTwice(nodes, p, j) && s[p].Some?
    requires Copies(nodes[p].children, j) == 2
    ensures var out := Expand(d, JoinStep(nodes[j].op.join, true, Steps(s[p].value, d)));
            SentTo(Flow(nodes, s, p, d).log, j) == out + out
  {
    var out := Expand(d, JoinStep(nodes[j].op.join, true, Steps(s[p].value, d)));
    BehindSource(nodes, s, p, d, j);
    if d != [] {
      TwiceFedChildren(nodes, Updated(s, p, d), p, j, 0, d);
      assert nodes[p].children[0..] == nodes[p].children;
      TimesTwo(out);
    }
  }

  lemma BehindSource(nodes: seq<Node>, s: States, p: nat, d: seq<Record>, i: nat)
    requires WellFormed(nodes) && |s| == |nodes| && p < |nodes| && i != p
    ensures SentTo(Flow(nodes, s, p, d).log, i) ==
            if d == [] then [] else SentTo(FlowChildren(nodes, Updated(s, p, d), p, 0, d).log, i)
  {
    if d != [] {
      SentToAppend([Sending(p, d)], FlowChildren(nodes, Updated(s, p, d), p, 0, d).log, i);
      assert [Sending(p, d)][..0] == [];
    }
  }

  lemma TimesTwo(out: seq<Record>)
    ensures Times(2, out) == out + out
  {
    assert Times(1, out) == out + [] == out;
  }

  /** How often a left join pads to this row; other joins never do. */
  ghost function Pads(join: JoinOp, lefts: seq<Row>, rights: seq<Row>, r: Row): int {
    if join.joinType.Left? then multiset(Padding(join, lefts, rights))[r] else 0
  }

  lemma PairsAndPads(join: JoinOp, lefts: seq<Row>, rights: seq<Row>, r: Row)
    ensures multiset(Maintained(join, lefts, rights))[r] as int ==
            multiset(InnerJoin(join, lefts, rights))[r] + Pads(join, lefts, rights, r)
  {
    if join.joinType.Left? { LeftJoinSplits(join, lefts, rights); }
  }

  /** What `d` is paired with or padded to, row by row: the change of the join in its left input. */
  lemma LeftChange(join: JoinOp, before: seq<Row>, d: seq<Record>, after: seq<Row>, other: MemoryState,
                   rights: seq<Row>, r: Row)
    requires Holds(other, rights) && other.keyColumns == [join.rightKey]
    requires Moves(before, d, after) && Applicable(before, d)
    ensures Net(Expand(d, JoinStep(join, true, other)), r) ==
            multiset(Maintained(join, after, rights))[r] - multiset(Maintained(join, before, rights))[r] as int
  {
    MaintainedLeftDelta(join, before, d, after, other, rights);
    NetOfMove(Maintained(join, before, rights), Expand(d, JoinStep(join, true, other)),
              Maintained(join, after, rights), r);
  }

  lemma RightChange(join: JoinOp, before: seq<Row>, d: seq<Record>, after: seq<Row>, other: MemoryState,
                    lefts: seq<Row>, r: Row)
    requires Holds(other, lefts) && other.keyColumns == [join.leftKey]
    requires Moves(before, d, after) && Applicable(before, d)
    ensures Net(Expand(d, JoinStep(join, false, other)), r) ==
            multiset(InnerJoin(join, lefts, after))[r] - multiset(InnerJoin(join, lefts, before))[r] as int
  {
    InnerJoinRightDelta(join, before, d, after, other, lefts);
    NetOfMove(InnerJoin(join, lefts, before), Expand(d, JoinStep(join, false, other)),
              InnerJoin(join, lefts, after), r);
  }

  lemma NetOfMove(a: seq<Row>, d: seq<Record>, b: seq<Row>, r: Row)
    ensures Net(Plus(b), r) == Net(Plus(a) + d, r) <==> Net(d, r) == multiset(b)[r] - multiset(a)[r] as int
  {
    NetPermuted(a, a, d, r);
    NetOfPlus(b, r);
  }

  /** `d` paired with `rights`, and `lefts` paired with `d`, as signed rows. */
  ghost function OnTheLeft(join: JoinOp, d: seq<Record>, rights: seq<Row>, r: Row): int {
    Net(Expand(d, InnerStep(join, rights)), r)
  }

  ghost function OnTheRight(join: JoinOp, lefts: seq<Row>, d: seq<Record>, r: Row): int {
    Net(Expand(d, InnerStepRight(join, lefts)), r)
  }

  lemma OnTheLeftChange(join: JoinOp, before: seq<Row>, d: seq<Record>, after: seq<Row>, rights: seq<Row>, r: Row)
    requires Moves(before, d, after)
    ensures OnTheLeft(join, d, rights, r) ==
            multiset(InnerJoin(join, after, rights))[r] - multiset(InnerJoin(join, before, rights))[r] as int
  {
    LinearMoves(before, d, after, InnerStep(join, rights), InnerStep(join, rights));
    NetOfMove(InnerJoin(join, before, rights), Expand(d, InnerStep(join, rights)), InnerJoin(join, after, rights), r);
  }

  lemma OnTheRightChange(join: JoinOp, before: seq<Row>, d: seq<Record>, after: seq<Row>, lefts: seq<Row>, r: Row)
    requires Moves(before, d, after)
    ensures OnTheRight(join, lefts, d, r) ==
            multiset(InnerJoin(join, lefts, after))[r] - multiset(InnerJoin(join, lefts, before))[r] as int
  {
    var f := InnerStepRight(join, lefts);
    LinearMoves(before, d, after, f, f);
    NetOfMove(FlatMap(before, f), Expand(d, f), FlatMap(after, f), r);
    JoinSymmetric(join, lefts, before);
    JoinSymmetric(join, lefts, after);
  }

  /** What a left join of a table with itself pads beyond its due when a change is counted twice. */
  ghost function PadGap(join: JoinOp, rows: seq<Row>, rows': seq<Row>, r: Row): int {
    2 * Pads(join, rows, rows', r) - Pads(join, rows, rows, r) - Pads(join, rows', rows', r)
  }

  /** A join fed twice by one node is right exactly when, row by row, the delta pairs on the left with the new
      rows as it pairs on the right with the old ones; a left join, when that makes up for its padding. */
  lemma TwiceFedRight(nodes: seq<Node>, s: States, p: nat, j: nat, rows: seq<Row>, d: seq<Record>, rows': seq<Row>)
    requires WellFormed(nodes) && NoAggregates(nodes) && |s| == |nodes|
    requires FedTwice(nodes, p, j) && Copies(nodes[p].children, j) == 2
    requires s[p].Some? && Holds(s[p].value, rows) && Moves(rows, d, rows') && Applicable(rows, d)
    requires s[p].value.keyColumns == [nodes[j].op.join.rightKey]
    ensures var join := nodes[j].op.join;
            Moves(Maintained(join, rows, rows), SentTo(Flow(nodes, s, p, d).log, j), Maintained(join, rows', rows'))
            <==> forall r :: OnTheLeft(join, d, rows', r) == OnTheRight(join, rows, d, r) + PadGap(join, rows, rows', r)
  {
    TwiceFedSends(nodes, s, p, j, d);
    StepsHolds(s[p].value, d, rows, rows');
    TwicePaired(nodes[j].op.join, rows, d, rows', Steps(s[p].value, d));
  }

  lemma TwicePaired(join: JoinOp, rows: seq<Row>, d: seq<Record>, rows': seq<Row>, state: MemoryState)
    requires Holds(state, rows') && state.keyColumns == [join.rightKey]
    requires Moves(rows, d, rows') && Applicable(rows, d)
    ensures var out := Expand(d, JoinStep(join, true, state));
            Moves(Maintained(join, rows, rows), out + out, Maintained(join, rows', rows'))
            <==> forall r :: OnTheLeft(join, d, rows', r) == OnTheRight(join, rows, d, r) + PadGap(join, rows, rows', r)
  {
    var out := Expand(d, JoinStep(join, true, state));
    var old_, new_ := Maintained(join, rows, rows), Maintained(join, rows', rows');
    forall r ensures Net(Plus(new_), r) == Net(Plus(old_) + (out + out), r) <==>
                     OnTheLeft(join, d, rows', r) == OnTheRight(join, rows, d, r) + PadGap(join, rows, rows', r)
    {
      LeftChange(join, rows, d, rows', state, rows', r);
      OnTheLeftChange(join, rows, d, rows', rows', r);
      OnTheRightChange(join, rows, d, rows', rows, r);
      PairsAndPads(join, rows, rows, r);
      PairsAndPads(join, rows, rows', r);
      PairsAndPads(join, rows', rows', r);
      TotalAppend(out, out, Is(r));
      NetOfMove(old_, out + out, new_, r);
    }
    MovesExactly(old_, out + out, new_);
  }

  /** A table and its join with itself. */
  function SelfJoin(join: JoinOp): seq<Node> {
    [Node(Base, [], [1, 1]), Node(Join(join), [0, 0], [])]
  }

  lemma SelfJoinIsWired(join: JoinOp)
    ensures WellFormed(SelfJoin(join)) && NoAggregates(SelfJoin(join)) && FedTwice(SelfJoin(join), 0, 1)
    ensures Copies(SelfJoin(join)[0].children, 1) == 2
  {
    assert [1, 1][1..] == [1];
    assert Copies([1], 1) == 1;
  }

  /** The first row of a table joined with itself is sent as often as it should exactly when it does not pair
      with itself: if it does, the pair arrives twice. */
  lemma FirstRowTwice(join: JoinOp, row: Row)
    requires !join.joinType.Left?
    ensures var nodes, s := SelfJoin(join), [Some(MemoryState([join.rightKey], map[], 0)), None];
            && WellFormed(nodes)
            && (Moves(InnerJoin(join, [], []), SentTo(Flow(nodes, s, 0, [Positive(row)]).log, 1),
                      InnerJoin(join, [row], [row]))
                <==> Column(row, join.leftKey) != Column(row, join.rightKey))
  {
    var nodes, s := SelfJoin(join), [Some(MemoryState([join.rightKey], map[], 0)), None];
    var d, r := [Positive(row)], Combine(join, row, row);
    SelfJoinIsWired(join);
    HoldsEmpty([join.rightKey]);
    InsertIsApplicable(row);
    TwiceFedRight(nodes, s, 0, 1, [], d, [row]);
    if Column(row, join.leftKey) == Column(row, join.rightKey) {
      FirstPair(join, row);
    } else {
      forall r ensures OnTheLeft(join, d, [row], r) == OnTheRight(join, [], d, r) { NoPair(join, row, r); }
    }
  }

  lemma NoPair(join: JoinOp, row: Row, r: Row)
    requires Column(row, join.leftKey) != Column(row, join.rightKey)
    ensures var d := [Positive(row)]; OnTheLeft(join, d, [row], r) == 0 == OnTheRight(join, [], d, r)
  {
    var d, none: seq<Row> := [Positive(row)], [];
    InsertIsApplicable(row);
    OnTheLeftChange(join, [], d, [row], [row], r);
    OnTheRightChange(join, [], d, [row], [], r);
    assert [row][..0] == none;
    assert FlatMap([row], Pair(join, row)) == FlatMap(none, Pair(join, row)) + [];
    assert InnerJoin(join, [row], [row]) == FlatMap(none, InnerStep(join, [row])) + [];
  }

  lemma FirstPair(join: JoinOp, row: Row)
    requires Column(row, join.leftKey) == Column(row, join.rightKey)
    ensures var d, r := [Positive(row)], Combine(join, row, row);
            OnTheLeft(join, d, [row], r) == 1 && OnTheRight(join, [], d, r) == 0
  {
    var d, r := [Positive(row)], Combine(join, row, row);
    InsertIsApplicable(row);
    OnTheLeftChange(join, [], d, [row], [row], r);
    OnTheRightChange(join, [], d, [row], [], r);
    OnePair(join, row);
  }

  lemma OnePair(join: JoinOp, row: Row)
    requires Column(row, join.leftKey) == Column(row, join.rightKey)
    ensures InnerJoin(join, [row], [row]) == [Combine(join, row, row)]
  {
    var none: seq<Row> := [];
    assert [row][..0] == none;
    assert FlatMap([row], Pair(join, row)) == FlatMap(none, Pair(join, row)) + [Combine(join, row, row)];
    assert InnerJoin(join, [row], [row]) == FlatMap(none, InnerStep(join, [row])) + [Combine(join, row, row)];
  }

  lemma MovesExactly(a: seq<Row>, d: seq<Record>, b: seq<Row>)
    ensures Moves(a, d, b) <==> forall r :: Net(Plus(b), r) == Net(Plus(a) + d, r)
  {
  }

  // ---------------------------------------------------------------------------
  // Serving children one after another
  // ---------------------------------------------------------------------------

  /** Turns `k` to `n - 1`, each starting from the states the one before left. */
  ghost function Chain(turn: (nat, States) -> Run, s: States, k: nat, n: nat): Run
    decreases n - k
  {
    if k >= n then Run(s, [])
    else
      var r := turn(k, s);
      var rest := Chain(turn, r.states, k + 1, n);
      Run(rest.states, r.log + rest.log)
  }

  lemma {:induction false} ChainSplit(turn: (nat, States) -> Run, s: States, k: nat, m: nat, n: nat)
    requires k <= m <= n
    ensures var a := Chain(turn, s, k, m);
            var b := Chain(turn, a.states, m, n);
            Chain(turn, s, k, n) == Run(b.states, a.log + b.log)
    decreases m - k
  {
    var a := Chain(turn, s, k, m);
    var b := Chain(turn, a.states, m, n);
    if k == m {
      assert [] + b.log == b.log;
    } else {
      var r := turn(k, s);
      ChainSplit(turn, r.states, k + 1, m, n);
      assert r.log + (Chain(turn, r.states, k + 1, m).log + b.log) == a.log + b.log;
    }
  }

  /** Nothing is sent to `i` and its state stays. */
  ghost predicate Quiet(s: States, r: Run, i: nat) {
    |r.states| == |s| && i < |s| && r.states[i] == s[i] && SentTo(r.log, i) == []
  }

  ghost predicate QuietTurns(turn: (nat, States) -> Run, k: nat, n: nat, size: nat, i: nat) {
    forall t: nat, s: States :: k <= t < n && |s| == size ==> Quiet(s, turn(t, s), i)
  }

  lemma {:induction false} ChainQuiet(turn: (nat, States) -> Run, s: States, k: nat, n: nat, i: nat)
    requires i < |s| && QuietTurns(turn, k, n, |s|, i)
    ensures Quiet(s, Chain(turn, s, k, n), i)
    decreases n - k
  {
    if k < n {
      var r := turn(k, s);
      assert Quiet(s, r, i);
      ChainQuiet(turn, r.states, k + 1, n, i);
      SentToAppend(r.log, Chain(turn, r.states, k + 1, n).log, i);
    }
  }

  function AfterAll(s: Option<MemoryState>, d: seq<Record>): Option<MemoryState> {
    match s case None => None case Some(v) => Some(Steps(v, d))
  }

  lemma AfterTwice(s: Option<MemoryState>, a: seq<Record>, b: seq<Record>)
    ensures AfterAll(s, a + b) == AfterAll(AfterAll(s, a), b)
  {
    if s.Some? { StepsAppend(s.value, a, b); }
  }

  /** `p` keeps its state; what `q` was sent, it holds; and what came of that through `e` was sent to `j`. */
  ghost predicate Feeds(s: States, r: Run, p: nat, q: nat, j: nat, e: Row -> seq<Row>) {
    && |r.states| == |s| && p < |s| && q < |s| && r.states[p] == s[p]
    && SentTo(r.log, j) == Expand(SentTo(r.log, q), e) && r.states[q] == AfterAll(s[q], SentTo(r.log, q))
  }

  lemma FeedsTwice(s: States, r: Run, rest: Run, p: nat, q: nat, j: nat, e: Row -> seq<Row>)
    requires Feeds(s, r, p, q, j, e) && Feeds(r.states, rest, p, q, j, e)
    ensures Feeds(s, Run(rest.states, r.log + rest.log), p, q, j, e)
  {
    SentToAppend(r.log, rest.log, j);
    SentToAppend(r.log, rest.log, q);
    ExpandAppend(SentTo(r.log, q), SentTo(rest.log, q), e);
    AfterTwice(s[q], SentTo(r.log, q), SentTo(rest.log, q));
  }

  ghost predicate FeedingTurns(turn: (nat, States) -> Run, k: nat, n: nat, size: nat, ps: Option<MemoryState>,
                               p: nat, q: nat, j: nat, e: Row -> seq<Row>)
  {
    forall t: nat, s: States :: k <= t < n && |s| == size && p < size && s[p] == ps ==> Feeds(s, turn(t, s), p, q, j, e)
  }

  lemma {:induction false} ChainFeeds(turn: (nat, States) -> Run, s: States, k: nat, n: nat, p: nat, q: nat, j: nat,
                                      e: Row -> seq<Row>)
    requires p < |s| && q < |s| && FeedingTurns(turn, k, n, |s|, s[p], p, q, j, e)
    ensures Feeds(s, Chain(turn, s, k, n), p, q, j, e)
    decreases n - k
  {
    if k < n {
      var r := turn(k, s);
      assert Feeds(s, r, p, q, j, e);
      ChainFeeds(turn, r.states, k + 1, n, p, q, j, e);
      FeedsTwice(s, r, Chain(turn, r.states, k + 1, n), p, q, j, e);
    } else if s[q].Some? {
      assert Steps(s[q].value, []) == s[q].value;
    }
  }

  /** What comes before and after turn `at` aside, `i` is sent what turn `at` sends it. */
  lemma OneTurnSends(turn: (nat, States) -> Run, s: States, at: nat, n: nat, i: nat)
    requires at < n && i < |s| && QuietTurns(turn, at + 1, n, |s|, i)
    requires |Chain(turn, s, 0, at).states| == |s| && |turn(at, Chain(turn, s, 0, at).states).states| == |s|
    ensures var before := Chain(turn, s, 0, at);
            SentTo(Chain(turn, s, 0, n).log, i) == SentTo(before.log, i) + SentTo(turn(at, before.states).log, i)
  {
    var before := Chain(turn, s, 0, at);
    var r := turn(at, before.states);
    var rest := Chain(turn, r.states, at + 1, n);
    ChainSplit(turn, s, 0, at, n);
    ChainQuiet(turn, r.states, at + 1, n, i);
    SentToAppend(r.log, rest.log, i);
    SentToAppend(before.log, r.log + rest.log, i);
  }

  /** Feeding turns up to turn `at`, which sends `j` what `f` makes of `q`'s state, and quiet ones after it. */
  lemma FeedsThenTurn(turn: (nat, States) -> Run, s: States, at: nat, n: nat, p: nat, q: nat, j: nat,
                      e: Row -> seq<Row>, f: Option<MemoryState> -> seq<Record>)
    requires at < n && j < |s| && Feeds(s, Chain(turn, s, 0, at), p, q, j, e)
    requires QuietTurns(turn, at + 1, n, |s|, q) && QuietTurns(turn, at + 1, n, |s|, j)
    requires Quiet(Chain(turn, s, 0, at).states, turn(at, Chain(turn, s, 0, at).states), q)
    requires SentTo(turn(at, Chain(turn, s, 0, at).states).log, j) == f(Chain(turn, s, 0, at).states[q])
    ensures var log := Chain(turn, s, 0, n).log;
            SentTo(log, j) == Expand(SentTo(log, q), e) + f(AfterAll(s[q], SentTo(log, q)))
  {
    OneTurnSends(turn, s, at, n, q);
    OneTurnSends(turn, s, at, n, j);
    assert SentTo(Chain(turn, s, 0, n).log, q) == SentTo(Chain(turn, s, 0, at).log, q);
  }

  /** The turns of a node's children. */
  ghost function Turn(nodes: seq<Node>, p: nat, d: seq<Record>, k: nat, s: States): Run
    requires WellFormed(nodes) && p < |nodes|
  {
    if k < |nodes[p].children| && |s| == |nodes| then FlowChild(nodes, s, p, k, d) else Run(s, [])
  }

  ghost function Turns(nodes: seq<Node>, p: nat, d: seq<Record>): (nat, States) -> Run
    requires WellFormed(nodes) && p < |nodes|
  {
    (k: nat, s: States) => Turn(nodes, p, d, k, s)
  }

  lemma {:induction false} FlowIsChain(nodes: seq<Node>, s: States, p: nat, k: nat, d: seq<Record>)
    requires WellFormed(nodes) && |s| == |nodes| && p < |nodes| && k <= |nodes[p].children|
    ensures FlowChildren(nodes, s, p, k, d) == Chain(Turns(nodes, p, d), s, k, |nodes[p].children|)
    decreases |nodes[p].children| - k
  {
    if k < |nodes[p].children| {
      ReachesChild(nodes, p, k);
      var c := nodes[p].children[k];
      var m := IndexOf(nodes[c].parents, p);
      var r := Flow(nodes, s, c, Output(nodes[c].op, m, d, StateFor(nodes, s, c, m)));
      FlowIsChain(nodes, r.states, p, k + 1, d);
    }
  }

  lemma TurnQuiet(nodes: seq<Node>, p: nat, d: seq<Record>, k: nat, s: States, i: nat)
    requires WellFormed(nodes) && p < |nodes| && |s| == |nodes| && i < |nodes| && k < |nodes[p].children|
    requires !Reaches(nodes, nodes[p].children[k], i)
    ensures Quiet(s, Turns(nodes, p, d)(k, s), i)
  {
    ReachesChild(nodes, p, k);
    var c := nodes[p].children[k];
    var m := IndexOf(nodes[c].parents, p);
    FlowElsewhere(nodes, s, c, Output(nodes[c].op, m, d, StateFor(nodes, s, c, m)), i);
  }

  lemma TurnsQuiet(nodes: seq<Node>, p: nat, d: seq<Record>, k: nat, n: nat, i: nat)
    requires WellFormed(nodes) && p < |nodes| && i < |nodes| && n <= |nodes[p].children|
    requires forall t :: k <= t < n ==> !Reaches(nodes, nodes[p].children[t], i)
    ensures QuietTurns(Turns(nodes, p, d), k, n, |nodes|, i)
  {
    forall t: nat, s: States | k <= t < n && |s| == |nodes| ensures Quiet(s, Turns(nodes, p, d)(t, s), i) {
      TurnQuiet(nodes, p, d, t, s, i);
    }
  }

  // ---------------------------------------------------------------------------
  // A join fed by a node and by another one, which may lie below it
  // ---------------------------------------------------------------------------

  /** Join `j` has input `p` on side `m` and input `q` on the other. */
  predicate Fed(nodes: seq<Node>, p: nat, q: nat, j: nat, m: nat) {
    && p < j < |nodes| && q < j && p != q && m < 2 && nodes[j].op.Join? && |nodes[j].parents| == 2
    && nodes[j].parents[m] == p && nodes[j].parents[1 - m] == q
  }

  lemma IndexAt(xs: seq<nat>, m: nat)
    requires |xs| == 2 && m < 2 && xs[0] != xs[1]
    ensures IndexOf(xs, xs[m]) == m
  {
  }

  lemma FedThrough(nodes: seq<Node>, p: nat, q: nat, j: nat, m: nat, c: nat)
    requires WellFormed(nodes) && Fed(nodes, p, q, j, m) && c < |nodes| && c != j
    requires !Reaches(nodes, c, p) && !Reaches(nodes, c, q)
    ensures !Reaches(nodes, c, j)
  {
    forall k | 0 <= k < |nodes[j].parents| ensures !Reaches(nodes, c, nodes[j].parents[k]) {
      assert k == m || k == 1 - m;
    }
  }

  /** A node with two different inputs is listed once among the children of either. */
  lemma ListedOnce(nodes: seq<Node>, p: nat, q: nat, j: nat, m: nat, k: nat, n: nat, from: nat)
    requires WellFormed(nodes) && Fed(nodes, p, q, j, m) && from < |nodes| && k != n
    requires k < |nodes[from].children| && n < |nodes[from].children|
    ensures !(nodes[from].children[k] == j && nodes[from].children[n] == j)
  {
    assert ChildrenLinked(nodes, from);
    assert nodes[j].parents != [from, from];
  }

  /** The join's own turn when input `from`, on side `m`, serves it. */
  lemma JoinTurn(nodes: seq<Node>, s: States, d: seq<Record>, from: nat, other: nat, j: nat, m: nat, at: nat)
    requires WellFormed(nodes) && |s| == |nodes| && Fed(nodes, from, other, j, m) && s[other].Some?
    requires at < |nodes[from].children| && nodes[from].children[at] == j
    ensures var r := Turns(nodes, from, d)(at, s);
            && |r.states| == |nodes|
            && SentTo(r.log, j) == Expand(d, JoinStep(nodes[j].op.join, m == 0, s[other].value))
  {
    IndexAt(nodes[j].parents, m);
    SentOnce(nodes, s, j, Output(nodes[j].op, m, d, StateFor(nodes, s, j, m)));
  }

  // ---------------------------------------------------------------------------
  // The lower input
  // ---------------------------------------------------------------------------

  lemma LowerChild(nodes: seq<Node>, p: nat, q: nat, j: nat, m: nat, at: nat, t: nat)
    requires WellFormed(nodes) && Fed(nodes, p, q, j, m) && !Reaches(nodes, q, p)
    requires at < |nodes[q].children| && nodes[q].children[at] == j && t < |nodes[q].children|
    ensures !Reaches(nodes, nodes[q].children[t], p) && !Reaches(nodes, nodes[q].children[t], q)
    ensures t != at ==> !Reaches(nodes, nodes[q].children[t], j)
  {
    ReachesChild(nodes, q, t);
    var c := nodes[q].children[t];
    NoChildReaches(nodes, q, t, q);
    if Reaches(nodes, c, p) { ReachesTransitive(nodes, q, c, p); }
    if t != at {
      ListedOnce(nodes, p, q, j, m, t, at, q);
      FedThrough(nodes, p, q, j, m, c);
    }
  }

  /** What `q` sends to its children reaches the join once, against what `p` holds. */
  lemma LowerServes(nodes: seq<Node>, s: States, d: seq<Record>, p: nat, q: nat, j: nat, m: nat, at: nat)
    requires WellFormed(nodes) && |s| == |nodes| && Fed(nodes, p, q, j, m) && s[p].Some? && !Reaches(nodes, q, p)
    requires at < |nodes[q].children| && nodes[q].children[at] == j
    ensures var r := Chain(Turns(nodes, q, d), s, 0, |nodes[q].children|);
            && Quiet(s, r, p) && Quiet(s, r, q)
            && SentTo(r.log, j) == Expand(d, JoinStep(nodes[j].op.join, m == 1, s[p].value))
  {
    var turn, n := Turns(nodes, q, d), |nodes[q].children|;
    forall t | 0 <= t < n
      ensures !Reaches(nodes, nodes[q].children[t], p) && !Reaches(nodes, nodes[q].children[t], q)
      ensures t != at ==> !Reaches(nodes, nodes[q].children[t], j)
    {
      LowerChild(nodes, p, q, j, m, at, t);
    }
    TurnsQuiet(nodes, q, d, 0, n, p);
    TurnsQuiet(nodes, q, d, 0, n, q);
    TurnsQuiet(nodes, q, d, 0, at, p);
    TurnsQuiet(nodes, q, d, 0, at, j);
    TurnsQuiet(nodes, q, d, at + 1, n, j);
    ChainQuiet(turn, s, 0, n, p);
    ChainQuiet(turn, s, 0, n, q);
    ChainQuiet(turn, s, 0, at, p);
    ChainQuiet(turn, s, 0, at, j);
    JoinTurn(nodes, Chain(turn, s, 0, at).states, d, q, p, j, 1 - m, at);
    OneTurnSends(turn, s, at, n, j);
  }

  /** Below `p`, whatever reaches `q` is paired with `p`'s rows, exactly once. */
  lemma {:induction false} FlowFeeds(nodes: seq<Node>, s: States, from: nat, d: seq<Record>,
                                     p: nat, q: nat, j: nat, m: nat)
    requires WellFormed(nodes) && |s| == |nodes| && from < |nodes| && Fed(nodes, p, q, j, m) && s[p].Some?
    requires from != j && !Reaches(nodes, from, p) && !Reaches(nodes, q, p)
    ensures Feeds(s, Flow(nodes, s, from, d), p, q, j, JoinStep(nodes[j].op.join, m == 1, s[p].value))
    decreases |nodes| - from
  {
    if d == [] {
      NothingFeeds(s, p, q, j, JoinStep(nodes[j].op.join, m == 1, s[p].value));
    } else if from == q {
      LowerFeeds(nodes, s, d, p, q, j, m);
    } else {
      var e := JoinStep(nodes[j].op.join, m == 1, s[p].value);
      forall t: nat, s': States | t < |nodes[from].children| && |s'| == |nodes| && s'[p] == s[p]
        ensures Feeds(s', Turns(nodes, from, d)(t, s'), p, q, j, e)
      {
        NotAChild(nodes, p, q, j, m, from, t);
        TurnFeeds(nodes, s', from, t, d, p, q, j, m);
      }
      assert FeedingTurns(Turns(nodes, from, d), 0, |nodes[from].children|, |nodes|, s[p], p, q, j, e);
      ElsewhereFeeds(nodes, s, from, d, p, q, j, e);
    }
  }

  lemma NotAChild(nodes: seq<Node>, p: nat, q: nat, j: nat, m: nat, from: nat, t: nat)
    requires WellFormed(nodes) && Fed(nodes, p, q, j, m) && from < |nodes| && from != p && from != q
    requires t < |nodes[from].children|
    ensures nodes[from].children[t] != j
  {
    ReachesChild(nodes, from, t);
  }

  lemma LowerFeeds(nodes: seq<Node>, s: States, d: seq<Record>, p: nat, q: nat, j: nat, m: nat)
    requires WellFormed(nodes) && |s| == |nodes| && Fed(nodes, p, q, j, m) && s[p].Some? && !Reaches(nodes, q, p)
    requires d != []
    ensures Feeds(s, Flow(nodes, s, q, d), p, q, j, JoinStep(nodes[j].op.join, m == 1, s[p].value))
  {
    assert ParentsLinked(nodes, j) && j in nodes[q].children;
    var at :| 0 <= at < |nodes[q].children| && nodes[q].children[at] == j;
    FlowIsChain(nodes, Updated(s, q, d), q, 0, d);
    LowerServes(nodes, Updated(s, q, d), d, p, q, j, m, at);
    BehindSource(nodes, s, q, d, j);
    SentOnce(nodes, s, q, d);
  }

  lemma ElsewhereFeeds(nodes: seq<Node>, s: States, from: nat, d: seq<Record>, p: nat, q: nat, j: nat,
                       e: Row -> seq<Row>)
    requires WellFormed(nodes) && |s| == |nodes| && from < |nodes| && p < |s| && q < |s| && d != []
    requires from != p && from != q && from != j
    requires FeedingTurns(Turns(nodes, from, d), 0, |nodes[from].children|, |nodes|, s[p], p, q, j, e)
    ensures Feeds(s, Flow(nodes, s, from, d), p, q, j, e)
  {
    FlowIsChain(nodes, Updated(s, from, d), from, 0, d);
    ChainFeeds(Turns(nodes, from, d), Updated(s, from, d), 0, |nodes[from].children|, p, q, j, e);
    BehindSource(nodes, s, from, d, j);
    BehindSource(nodes, s, from, d, q);
  }

  lemma NothingFeeds(s: States, p: nat, q: nat, j: nat, e: Row -> seq<Row>)
    requires p < |s| && q < |s|
    ensures Feeds(s, Run(s, []), p, q, j, e)
  {
    if s[q].Some? { assert Steps(s[q].value, []) == s[q].value; }
  }

  lemma {:induction false} TurnFeeds(nodes: seq<Node>, s: States, from: nat, t: nat, d: seq<Record>,
                                     p: nat, q: nat, j: nat, m: nat)
    requires WellFormed(nodes) && |s| == |nodes| && from < |nodes| && Fed(nodes, p, q, j, m) && s[p].Some?
    requires t < |nodes[from].children| && nodes[from].children[t] != j && !Reaches(nodes, q, p)
    requires from == p || !Reaches(nodes, from, p)
    ensures Feeds(s, Turns(nodes, from, d)(t, s), p, q, j, JoinStep(nodes[j].op.join, m == 1, s[p].value))
    decreases |nodes| - from, 0
  {
    ReachesChild(nodes, from, t);
    var c := nodes[from].children[t];
    if from == p {
      NoChildReaches(nodes, from, t, p);
    } else if Reaches(nodes, c, p) {
      ReachesTransitive(nodes, from, c, p);
    }
    var n := IndexOf(nodes[c].parents, from);
    FlowFeeds(nodes, s, c, Output(nodes[c].op, n, d, StateFor(nodes, s, c, n)), p, q, j, m);
  }

  // ---------------------------------------------------------------------------
  // The upper input
  // ---------------------------------------------------------------------------

  lemma NothingBehind(nodes: seq<Node>, p: nat, q: nat, j: nat, m: nat, at: nat, t: nat)
    requires WellFormed(nodes) && Fed(nodes, p, q, j, m) && Ascending(nodes[p].children)
    requires at < t < |nodes[p].children| && nodes[p].children[at] == j
    ensures !Reaches(nodes, nodes[p].children[t], q) && !Reaches(nodes, nodes[p].children[t], j)
  {
    var c := nodes[p].children[t];
    ListedOnce(nodes, p, q, j, m, at, t, p);
    if Reaches(nodes, c, q) { ReachesUp(nodes, c, q); }
    if Reaches(nodes, c, j) { ReachesUp(nodes, c, j); }
  }

  lemma UpperServes(nodes: seq<Node>, s: States, d: seq<Record>, p: nat, q: nat, j: nat, m: nat, at: nat)
    requires WellFormed(nodes) && |s| == |nodes| && Fed(nodes, p, q, j, m) && s[p].Some? && s[q].Some?
    requires !Reaches(nodes, q, p) && Ascending(nodes[p].children)
    requires at < |nodes[p].children| && nodes[p].children[at] == j
    ensures var log := Chain(Turns(nodes, p, d), s, 0, |nodes[p].children|).log;
            var low := SentTo(log, q);
            SentTo(log, j) == Expand(low, JoinStep(nodes[j].op.join, m == 1, s[p].value)) +
                              Expand(d, JoinStep(nodes[j].op.join, m == 0, Steps(s[q].value, low)))
  {
    var turn, n, e := Turns(nodes, p, d), |nodes[p].children|, JoinStep(nodes[j].op.join, m == 1, s[p].value);
    UpperFeeds(nodes, s, d, p, q, j, m, at, e);
    UpperBehind(nodes, d, p, q, j, m, at);
    var s' := Chain(turn, s, 0, at).states;
    JoinTurn(nodes, s', d, p, q, j, m, at);
    if Reaches(nodes, j, q) { ReachesUp(nodes, j, q); }
    TurnQuiet(nodes, p, d, at, s', q);
    FeedsThenTurn(turn, s, at, n, p, q, j, e, PairedWith(nodes[j].op.join, m == 0, d));
  }

  ghost function PairedWith(join: JoinOp, fromLeft: bool, d: seq<Record>): Option<MemoryState> -> seq<Record> {
    (other: Option<MemoryState>) => if other.Some? then Expand(d, JoinStep(join, fromLeft, other.value)) else []
  }

  lemma UpperFeeds(nodes: seq<Node>, s: States, d: seq<Record>, p: nat, q: nat, j: nat, m: nat, at: nat,
                   e: Row -> seq<Row>)
    requires WellFormed(nodes) && |s| == |nodes| && Fed(nodes, p, q, j, m) && s[p].Some? && !Reaches(nodes, q, p)
    requires at < |nodes[p].children| && nodes[p].children[at] == j
    requires e == JoinStep(nodes[j].op.join, m == 1, s[p].value)
    ensures Feeds(s, Chain(Turns(nodes, p, d), s, 0, at), p, q, j, e)
  {
    var turn := Turns(nodes, p, d);
    forall t: nat, s': States | t < at && |s'| == |nodes| && s'[p] == s[p] ensures Feeds(s', turn(t, s'), p, q, j, e) {
      ListedOnce(nodes, p, q, j, m, t, at, p);
      TurnFeeds(nodes, s', p, t, d, p, q, j, m);
    }
    assert FeedingTurns(turn, 0, at, |nodes|, s[p], p, q, j, e);
    ChainFeeds(turn, s, 0, at, p, q, j, e);
  }

  lemma UpperBehind(nodes: seq<Node>, d: seq<Record>, p: nat, q: nat, j: nat, m: nat, at: nat)
    requires WellFormed(nodes) && Fed(nodes, p, q, j, m) && Ascending(nodes[p].children)
    requires at < |nodes[p].children| && nodes[p].children[at] == j
    ensures QuietTurns(Turns(nodes, p, d), at + 1, |nodes[p].children|, |nodes|, q)
    ensures QuietTurns(Turns(nodes, p, d), at + 1, |nodes[p].children|, |nodes|, j)
  {
    var n := |nodes[p].children|;
    forall t | at < t < n ensures !Reaches(nodes, nodes[p].children[t], q) && !Reaches(nodes, nodes[p].children[t], j) {
      NothingBehind(nodes, p, q, j, m, at, t);
    }
    TurnsQuiet(nodes, p, d, at + 1, n, q);
    TurnsQuiet(nodes, p, d, at + 1, n, j);
  }

  /** What a delta at `p` sends to a join of `p` with a later node `q`, whatever lies between them. */
  lemma UpperSends(nodes: seq<Node>, s: States, d: seq<Record>, p: nat, q: nat, j: nat, m: nat)
    requires WellFormed(nodes) && NoAggregates(nodes) && |s| == |nodes|
    requires Fed(nodes, p, q, j, m) && p < q && Ascending(nodes[p].children) && s[p].Some? && s[q].Some?
    ensures var log, join := Flow(nodes, s, p, d).log, nodes[j].op.join;
            var low := SentTo(log, q);
            SentTo(log, j) == Expand(low, JoinStep(join, m == 1, Steps(s[p].value, d))) +
                              Expand(d, JoinStep(join, m == 0, Steps(s[q].value, low)))
  {
    BehindSource(nodes, s, p, d, j);
    BehindSource(nodes, s, p, d, q);
    if d != [] {
      if Reaches(nodes, q, p) { ReachesUp(nodes, q, p); }
      assert ParentsLinked(nodes, j) && j in nodes[p].children;
      var at :| 0 <= at < |nodes[p].children| && nodes[p].children[at] == j;
      var s1 := Updated(s, p, d);
      FlowIsChain(nodes, s1, p, 0, d);
      UpperServes(nodes, s1, d, p, q, j, m, at);
    }
  }

  // ---------------------------------------------------------------------------
  // Whether that is right
  // ---------------------------------------------------------------------------

  /** The join of the upper input's rows, on side `m`, with the lower input's. */
  function Cross(join: JoinOp, m: nat, upper: seq<Row>, lower: seq<Row>): seq<Row> {
    if m == 0 then Maintained(join, upper, lower) else Maintained(join, lower, upper)
  }

  /** How a left join's padding changes, as its right input does; nothing for other joins. */
  ghost function PadChange(join: JoinOp, m: nat, a: seq<Row>, a': seq<Row>, b: seq<Row>, b': seq<Row>, r: Row): int {
    if m == 0 then Pads(join, a, b', r) - Pads(join, a, b, r) else Pads(join, b, a', r) - Pads(join, b, a, r)
  }

  /** The upper delta paired with the lower input's rows, as signed rows. */
  ghost function PairsWith(join: JoinOp, m: nat, d: seq<Record>, lower: seq<Row>, r: Row): int {
    if m == 0 then OnTheLeft(join, d, lower, r) else OnTheRight(join, lower, d, r)
  }

  function KeyOn(join: JoinOp, left: bool): seq<nat> {
    [if left then join.leftKey else join.rightKey]
  }

  lemma SurplusRow(join: JoinOp, m: nat, a: seq<Row>, d: seq<Record>, a': seq<Row>, b: seq<Row>, low: seq<Record>,
                   b': seq<Row>, ps: MemoryState, qs: MemoryState, r: Row)
    requires m < 2
    requires Holds(ps, a') && ps.keyColumns == KeyOn(join, m == 0) && Moves(a, d, a') && Applicable(a, d)
    requires Holds(qs, b') && qs.keyColumns == KeyOn(join, m == 1) && Moves(b, low, b') && Applicable(b, low)
    ensures var out := Expand(low, JoinStep(join, m == 1, ps)) + Expand(d, JoinStep(join, m == 0, qs));
            Net(Plus(Cross(join, m, a', b')), r) == Net(Plus(Cross(join, m, a, b)) + out, r) <==>
            PairsWith(join, m, d, b', r) == PairsWith(join, m, d, b, r) + PadChange(join, m, a, a', b, b', r)
  {
    var first, second := Expand(low, JoinStep(join, m == 1, ps)), Expand(d, JoinStep(join, m == 0, qs));
    TotalAppend(first, second, Is(r));
    NetOfMove(Cross(join, m, a, b), first + second, Cross(join, m, a', b'), r);
    if m == 0 {
      RightChange(join, b, low, b', ps, a', r);
      LeftChange(join, a, d, a', qs, b', r);
      OnTheLeftChange(join, a, d, a', b', r);
      OnTheLeftChange(join, a, d, a', b, r);
      PairsAndPads(join, a, b, r);
      PairsAndPads(join, a, b', r);
    } else {
      LeftChange(join, b, low, b', ps, a', r);
      RightChange(join, a, d, a', qs, b', r);
      OnTheRightChange(join, a, d, a', b', r);
      OnTheRightChange(join, a, d, a', b, r);
      PairsAndPads(join, b, a, r);
      PairsAndPads(join, b, a', r);
    }
  }

  /** A join of a node with a later one is right exactly when the upper delta pairs with the lower input's new
      rows as it does with its old ones; a left join, when that surplus is the change of its padding. */
  lemma UpperRight(nodes: seq<Node>, s: States, d: seq<Record>, p: nat, q: nat, j: nat, m: nat,
                   a: seq<Row>, a': seq<Row>, b: seq<Row>, b': seq<Row>)
    requires WellFormed(nodes) && NoAggregates(nodes) && |s| == |nodes|
    requires Fed(nodes, p, q, j, m) && p < q && Ascending(nodes[p].children)
    requires s[p].Some? && Holds(s[p].value, a) && Moves(a, d, a') && Applicable(a, d)
    requires s[p].value.keyColumns == KeyOn(nodes[j].op.join, m == 0)
    requires var low := SentTo(Flow(nodes, s, p, d).log, q);
             s[q].Some? && Holds(s[q].value, b) && Moves(b, low, b') && Applicable(b, low)
    requires s[q].value.keyColumns == KeyOn(nodes[j].op.join, m == 1)
    ensures var join := nodes[j].op.join;
            Moves(Cross(join, m, a, b), SentTo(Flow(nodes, s, p, d).log, j), Cross(join, m, a', b')) <==>
            forall r ::
              PairsWith(join, m, d, b', r) == PairsWith(join, m, d, b, r) + PadChange(join, m, a, a', b, b', r)
  {
    var low := SentTo(Flow(nodes, s, p, d).log, q);
    UpperSends(nodes, s, d, p, q, j, m);
    StepsHolds(s[p].value, d, a, a');
    StepsHolds(s[q].value, low, b, b');
    Surplus(nodes[j].op.join, m, a, d, a', b, low, b', Steps(s[p].value, d), Steps(s[q].value, low));
  }

  lemma Surplus(join: JoinOp, m: nat, a: seq<Row>, d: seq<Record>, a': seq<Row>, b: seq<Row>, low: seq<Record>,
                b': seq<Row>, ps: MemoryState, qs: MemoryState)
    requires m < 2
    requires Holds(ps, a') && ps.keyColumns == KeyOn(join, m == 0) && Moves(a, d, a') && Applicable(a, d)
    requires Holds(qs, b') && qs.keyColumns == KeyOn(join, m == 1) && Moves(b, low, b') && Applicable(b, low)
    ensures var out := Expand(low, JoinStep(join, m == 1, ps)) + Expand(d, JoinStep(join, m == 0, qs));
            Moves(Cross(join, m, a, b), out, Cross(join, m, a', b')) <==>
            forall r ::
              PairsWith(join, m, d, b', r) == PairsWith(join, m, d, b, r) + PadChange(join, m, a, a', b, b', r)
  {
    var out := Expand(low, JoinStep(join, m == 1, ps)) + Expand(d, JoinStep(join, m == 0, qs));
    forall r ensures Net(Plus(Cross(join, m, a', b')), r) == Net(Plus(Cross(join, m, a, b)) + out, r) <==>
                     PairsWith(join, m, d, b', r) == PairsWith(join, m, d, b, r) + PadChange(join, m, a, a', b, b', r)
    {
      SurplusRow(join, m, a, d, a', b, low, b', ps, qs, r);
    }
    MovesExactly(Cross(join, m, a, b), out, Cross(join, m, a', b'));
  }

  /** A table, a view that passes its rows on, and the join of the two. */
  function JoinWithView(join: JoinOp): seq<Node> {
    [Node(Base, [], [1, 2]), Node(Identity, [0], [2]), Node(Join(join), [0, 1], [])]
  }

  lemma JoinWithViewIsWired(join: JoinOp)
    ensures WellFormed(JoinWithView(join)) && NoAggregates(JoinWithView(join)) && Fed(JoinWithView(join), 0, 1, 2, 0)
  {
  }

  lemma FirstChildGets(nodes: seq<Node>, s: States, p: nat, c: nat, d: seq<Record>)
    requires WellFormed(nodes) && |s| == |nodes| && p < c < |nodes| && nodes[c].op.Identity? && nodes[c].parents == [p]
    requires |nodes[p].children| > 0 && nodes[p].children[0] == c
    requires forall n :: 1 <= n < |nodes[p].children| ==> nodes[p].children[n] > c
    ensures SentTo(Flow(nodes, s, p, d).log, c) == d
  {
    BehindSource(nodes, s, p, d, c);
    if d != [] {
      var s1 := Updated(s, p, d);
      ReachesChild(nodes, p, 0);
      var r := Flow(nodes, s1, c, d);
      SentOnce(nodes, s1, c, d);
      forall n | 1 <= n < |nodes[p].children| ensures !Reaches(nodes, nodes[p].children[n], c) {
        if Reaches(nodes, nodes[p].children[n], c) { ReachesUp(nodes, nodes[p].children[n], c); }
      }
      FlowChildrenElsewhere(nodes, r.states, p, 1, d, c);
      SentToAppend(r.log, FlowChildren(nodes, r.states, p, 1, d).log, c);
    }
  }

  lemma FirstRowBelow(nodes: seq<Node>, s: States, join: JoinOp, row: Row)
    requires WellFormed(nodes) && NoAggregates(nodes) && |s| == |nodes| == 3 && nodes[2].op == Join(join)
    requires Fed(nodes, 0, 1, 2, 0) && nodes[1].op.Identity? && nodes[1].parents == [0] && nodes[0].children == [1, 2]
    requires s[0] == Some(MemoryState([join.leftKey], map[], 0)) && s[1] == Some(MemoryState([join.rightKey], map[], 0))
    requires !join.joinType.Left?
    ensures Moves(InnerJoin(join, [], []), SentTo(Flow(nodes, s, 0, [Positive(row)]).log, 2),
                  InnerJoin(join, [row], [row]))
            <==> Column(row, join.leftKey) != Column(row, join.rightKey)
  {
    var d, r := [Positive(row)], Combine(join, row, row);
    HoldsEmpty([join.leftKey]);
    HoldsEmpty([join.rightKey]);
    InsertIsApplicable(row);
    FirstChildGets(nodes, s, 0, 1, d);
    UpperRight(nodes, s, d, 0, 1, 2, 0, [], [row], [], [row]);
    OnTheLeftChange(join, [], d, [row], [], r);
    if Column(row, join.leftKey) == Column(row, join.rightKey) {
      FirstPair(join, row);
      assert PairsWith(join, 0, d, [row], r) != PairsWith(join, 0, d, [], r);
    } else {
      forall r ensures PairsWith(join, 0, d, [row], r) == PairsWith(join, 0, d, [], r) {
        NoPair(join, row, r);
        OnTheLeftChange(join, [], d, [row], [], r);
      }
    }
  }

  /** The first row of a table joined with a view that passes it on, in the same way. */
  lemma FirstRowAgain(join: JoinOp, row: Row)
    requires !join.joinType.Left?
    ensures var nodes := JoinWithView(join);
            var s := [Some(MemoryState([join.leftKey], map[], 0)), Some(MemoryState([join.rightKey], map[], 0)), None];
            && WellFormed(nodes)
            && (Moves(InnerJoin(join, [], []), SentTo(Flow(nodes, s, 0, [Positive(row)]).log, 2),
                      InnerJoin(join, [row], [row]))
                <==> Column(row, join.leftKey) != Column(row, join.rightKey))
  {
    var s := [Some(MemoryState([join.leftKey], map[], 0)), Some(MemoryState([join.rightKey], map[], 0)), None];
    JoinWithViewIsWired(join);
    FirstRowBelow(JoinWithView(join), s, join, row);
  }
}
