/** The joins of SQL, where NULL equals nothing, against the maintained ones, where it equals itself. */
module SqlJoins {
  import opened Values
  import opened ZSets
  import opened Operators
  import opened Joins

  function SqlPairOf(op: JoinOp, left: Row, right: Row): seq<Row> {
    if Column(left, op.leftKey).Null? then [] else PairOf(op, left, right)
  }

  function SqlPair(op: JoinOp, left: Row): Row -> seq<Row> {
    right => SqlPairOf(op, left, right)
  }

  function SqlInnerStep(op: JoinOp, rights: seq<Row>): Row -> seq<Row> {
    left => FlatMap(rights, SqlPair(op, left))
  }

  function SqlInnerJoin(op: JoinOp, lefts: seq<Row>, rights: seq<Row>): seq<Row> {
    FlatMap(lefts, SqlInnerStep(op, rights))
  }

  function SqlLeftRows(op: JoinOp, rights: seq<Row>, left: Row): seq<Row> {
    var pairs := FlatMap(rights, SqlPair(op, left));
    if pairs == [] then [PadRight(op, left)] else pairs
  }

  function SqlLeftStep(op: JoinOp, rights: seq<Row>): Row -> seq<Row> {
    left => SqlLeftRows(op, rights, left)
  }

  function SqlLeftJoin(op: JoinOp, lefts: seq<Row>, rights: seq<Row>): seq<Row> {
    FlatMap(lefts, SqlLeftStep(op, rights))
  }

  // ---------------------------------------------------------------------------
  // Which rows these are
  // ---------------------------------------------------------------------------

  /** The two rows meet in SQL: equal keys that are not NULL. */
  predicate Meet(op: JoinOp, left: Row, right: Row) {
    SameKey(op, left, right) && !Column(left, op.leftKey).Null?
  }

  /** They meet, and `x` shows them column by column. */
  predicate Makes(op: JoinOp, left: Row, right: Row, x: Row) {
    Meet(op, left, right) && IsPair(op, left, right, x)
  }

  lemma MakesExactly(op: JoinOp, left: Row, right: Row, x: Row)
    ensures multiset(SqlPairOf(op, left, right))[x] == if Makes(op, left, right, x) then 1 else 0
  {
    CombineExactly(op, left, right, x);
  }

  /** The positions of the pairs that make `x`. */
  ghost function Pairings(op: JoinOp, lefts: seq<Row>, rights: seq<Row>, x: Row): set<(nat, nat)> {
    set i: nat, j: nat | i < |lefts| && j < |rights| && Makes(op, lefts[i], rights[j], x) :: (i, j)
  }

  ghost function PairingsOf(op: JoinOp, left: Row, rights: seq<Row>, x: Row, i: nat): set<(nat, nat)> {
    set j: nat | j < |rights| && Makes(op, left, rights[j], x) :: (i, j)
  }

  lemma OneMoreRight(op: JoinOp, left: Row, rights: seq<Row>, last: Row, x: Row, i: nat)
    ensures |PairingsOf(op, left, rights + [last], x, i)| ==
            |PairingsOf(op, left, rights, x, i)| + if Makes(op, left, last, x) then 1 else 0
  {
    var before, n := PairingsOf(op, left, rights, x, i), |rights|;
    var one: set<(nat, nat)> := if Makes(op, left, last, x) then {(i, n)} else {};
    forall p ensures p in PairingsOf(op, left, rights + [last], x, i) <==> p in before + one {
      assert forall j: nat :: j < n ==> (rights + [last])[j] == rights[j];
    }
    assert PairingsOf(op, left, rights + [last], x, i) == before + one && before !! one;
  }

  lemma OneMoreLeft(op: JoinOp, lefts: seq<Row>, last: Row, rights: seq<Row>, x: Row)
    ensures |Pairings(op, lefts + [last], rights, x)| ==
            |Pairings(op, lefts, rights, x)| + |PairingsOf(op, last, rights, x, |lefts|)|
  {
    var before, more := Pairings(op, lefts, rights, x), PairingsOf(op, last, rights, x, |lefts|);
    forall p ensures p in Pairings(op, lefts + [last], rights, x) <==> p in before + more {
      assert forall i: nat :: i < |lefts| ==> (lefts + [last])[i] == lefts[i];
    }
    assert Pairings(op, lefts + [last], rights, x) == before + more && before !! more;
  }

  lemma {:induction false} PairsCounted(op: JoinOp, left: Row, rights: seq<Row>, x: Row, i: nat)
    ensures multiset(FlatMap(rights, SqlPair(op, left)))[x] == |PairingsOf(op, left, rights, x, i)|
  {
    if rights != [] {
      var front, last := rights[..|rights| - 1], rights[|rights| - 1];
      assert rights == front + [last];
      PairsCounted(op, left, front, x, i);
      FlatMapLast(rights, SqlPair(op, left));
      MakesExactly(op, left, last, x);
      OneMoreRight(op, left, front, last, x, i);
    }
  }

  /** SQL's inner join has a row as often as there are a left and a right row that meet and show it, column by
      column. */
  lemma {:induction false} SqlInnerCounts(op: JoinOp, lefts: seq<Row>, rights: seq<Row>, x: Row)
    ensures multiset(SqlInnerJoin(op, lefts, rights))[x] == |Pairings(op, lefts, rights, x)|
  {
    if lefts == [] {
      assert Pairings(op, lefts, rights, x) == {};
    } else {
      var front, last := lefts[..|lefts| - 1], lefts[|lefts| - 1];
      assert lefts == front + [last];
      SqlInnerCounts(op, front, rights, x);
      FlatMapLast(lefts, SqlInnerStep(op, rights));
      PairsCounted(op, last, rights, x, |front|);
      OneMoreLeft(op, front, last, rights, x);
    }
  }

  /** SQL's left join: what the left row makes, or, if it meets no row, the row and NULLs. */
  lemma SqlLeftRow(op: JoinOp, lefts: seq<Row>, rights: seq<Row>, x: Row)
    ensures x in SqlLeftJoin(op, lefts, rights) <==>
            exists i :: 0 <= i < |lefts| && SqlLeftShows(op, lefts[i], rights, x)
  {
    FlatMapRow(lefts, SqlLeftStep(op, rights), x);
    forall i | 0 <= i < |lefts|
      ensures x in SqlLeftStep(op, rights)(lefts[i]) <==> SqlLeftShows(op, lefts[i], rights, x)
    {
      SqlLeftOf(op, lefts[i], rights, x);
    }
  }

  ghost predicate SqlLeftShows(op: JoinOp, left: Row, rights: seq<Row>, x: Row) {
    if exists j :: 0 <= j < |rights| && Meet(op, left, rights[j])
    then exists j :: 0 <= j < |rights| && Makes(op, left, rights[j], x)
    else IsPadded(op, left, x)
  }

  lemma SqlLeftOf(op: JoinOp, left: Row, rights: seq<Row>, x: Row)
    ensures x in SqlLeftRows(op, rights, left) <==> SqlLeftShows(op, left, rights, x)
  {
    FlatMapRow(rights, SqlPair(op, left), x);
    FlatMapEmpty(rights, SqlPair(op, left));
    PadExactly(op, left, x);
    forall j | 0 <= j < |rights|
      ensures x in SqlPair(op, left)(rights[j]) <==> Makes(op, left, rights[j], x)
      ensures SqlPair(op, left)(rights[j]) == [] <==> !Meet(op, left, rights[j])
    {
      CombineExactly(op, left, rights[j], x);
    }
  }

  /** The rows that are NULL in a column. */
  function NullRows(c: nat, rows: seq<Row>): (r: seq<Row>)
    ensures forall i :: 0 <= i < |r| ==> r[i] in rows && Column(r[i], c).Null?
  {
    if rows == [] then []
    else NullRows(c, rows[..|rows| - 1]) +
         if Column(rows[|rows| - 1], c).Null? then [rows[|rows| - 1]] else []
  }

  lemma {:induction false} NoNullRows(c: nat, rows: seq<Row>)
    ensures NullRows(c, rows) == [] <==> forall i :: 0 <= i < |rows| ==> !Column(rows[i], c).Null?
  {
    if rows != [] {
      NoNullRows(c, rows[..|rows| - 1]);
      assert forall i :: 0 <= i < |rows| - 1 ==> rows[i] == rows[..|rows| - 1][i];
    }
  }

  // ---------------------------------------------------------------------------
  // One left row
  // ---------------------------------------------------------------------------

  /** A left row with a key has the same pairs either way. */
  lemma {:induction false} KeyedPairs(op: JoinOp, left: Row, rights: seq<Row>)
    requires !Column(left, op.leftKey).Null?
    ensures FlatMap(rights, SqlPair(op, left)) == FlatMap(rights, Pair(op, left))
  {
    if rights != [] { KeyedPairs(op, left, rights[..|rights| - 1]); }
  }

  /** A left row without one has no pairs in SQL, and here one for each right row without one. */
  lemma {:induction false} UnkeyedPairs(op: JoinOp, left: Row, rights: seq<Row>)
    requires Column(left, op.leftKey).Null?
    ensures FlatMap(rights, SqlPair(op, left)) == []
    ensures |FlatMap(rights, Pair(op, left))| == |NullRows(op.rightKey, rights)|
    ensures forall i :: 0 <= i < |FlatMap(rights, Pair(op, left))| ==>
              FlatMap(rights, Pair(op, left))[i] == Combine(op, left, NullRows(op.rightKey, rights)[i])
  {
    if rights != [] { UnkeyedPairs(op, left, rights[..|rights| - 1]); }
  }

  // ---------------------------------------------------------------------------
  // Inner joins
  // ---------------------------------------------------------------------------

  lemma {:induction false} InnerLengths(op: JoinOp, lefts: seq<Row>, rights: seq<Row>)
    ensures |InnerJoin(op, lefts, rights)| ==
            |SqlInnerJoin(op, lefts, rights)| + |NullRows(op.leftKey, lefts)| * |NullRows(op.rightKey, rights)|
  {
    if lefts != [] {
      var init, last := lefts[..|lefts| - 1], lefts[|lefts| - 1];
      InnerLengths(op, init, rights);
      if Column(last, op.leftKey).Null? { UnkeyedPairs(op, last, rights); } else { KeyedPairs(op, last, rights); }
      OneMore(|NullRows(op.leftKey, init)|, |NullRows(op.rightKey, rights)|);
    }
  }

  lemma OneMore(n: nat, k: nat)
    ensures (n + 1) * k == n * k + k
  {
  }

  lemma {:induction false} InnerSame(op: JoinOp, lefts: seq<Row>, rights: seq<Row>)
    requires NullRows(op.leftKey, lefts) == [] || NullRows(op.rightKey, rights) == []
    ensures InnerJoin(op, lefts, rights) == SqlInnerJoin(op, lefts, rights)
  {
    if lefts != [] {
      var last := lefts[|lefts| - 1];
      InnerSame(op, lefts[..|lefts| - 1], rights);
      if Column(last, op.leftKey).Null? { UnkeyedPairs(op, last, rights); } else { KeyedPairs(op, last, rights); }
    }
  }

  /** The maintained inner join is SQL's exactly when no left and right row are both NULL in the key. */
  lemma InnerAgrees(op: JoinOp, lefts: seq<Row>, rights: seq<Row>)
    ensures multiset(InnerJoin(op, lefts, rights)) == multiset(SqlInnerJoin(op, lefts, rights)) <==>
            forall i, j :: 0 <= i < |lefts| && 0 <= j < |rights| ==>
              !(Column(lefts[i], op.leftKey).Null? && Column(rights[j], op.rightKey).Null?)
  {
    var n, k := |NullRows(op.leftKey, lefts)|, |NullRows(op.rightKey, rights)|;
    NoNullRows(op.leftKey, lefts);
    NoNullRows(op.rightKey, rights);
    if n == 0 || k == 0 {
      InnerSame(op, lefts, rights);
    } else {
      InnerLengths(op, lefts, rights);
      Product(n, k);
      assert |multiset(InnerJoin(op, lefts, rights))| != |multiset(SqlInnerJoin(op, lefts, rights))|;
      var l, r := NullRows(op.leftKey, lefts)[0], NullRows(op.rightKey, rights)[0];
      var i :| 0 <= i < |lefts| && lefts[i] == l;
      var j :| 0 <= j < |rights| && rights[j] == r;
    }
  }

  lemma Product(n: nat, k: nat)
    requires n > 0 && k > 0
    ensures n * k > 0
  {
  }

  // ---------------------------------------------------------------------------
  // Left joins
  // ---------------------------------------------------------------------------

  /** The right row adds nothing a padded row would not have. */
  ghost predicate Blank(op: JoinOp, right: Row) {
    forall i :: 0 <= i < |op.emit| && !op.emit[i].0 ==> Column(right, op.emit[i].1).Null?
  }

  lemma BlankIsPadding(op: JoinOp, left: Row, right: Row)
    requires Blank(op, right)
    ensures Combine(op, left, right) == PadRight(op, left)
  {
  }

  lemma {:induction false} LeftSame(op: JoinOp, lefts: seq<Row>, rights: seq<Row>)
    requires var nulls := NullRows(op.rightKey, rights);
             NullRows(op.leftKey, lefts) == [] || nulls == [] || (|nulls| == 1 && Blank(op, nulls[0]))
    ensures LeftJoin(op, lefts, rights) == SqlLeftJoin(op, lefts, rights)
  {
    if lefts != [] {
      var last := lefts[|lefts| - 1];
      LeftSame(op, lefts[..|lefts| - 1], rights);
      if Column(last, op.leftKey).Null? {
        UnkeyedPairs(op, last, rights);
        if |NullRows(op.rightKey, rights)| == 1 { BlankIsPadding(op, last, NullRows(op.rightKey, rights)[0]); }
        assert LeftRows(op, rights, last) == SqlLeftRows(op, rights, last);
      } else {
        KeyedPairs(op, last, rights);
      }
    }
  }

  lemma {:induction false} LeftLengths(op: JoinOp, lefts: seq<Row>, rights: seq<Row>)
    requires NullRows(op.rightKey, rights) != []
    ensures |LeftJoin(op, lefts, rights)| ==
            |SqlLeftJoin(op, lefts, rights)| + |NullRows(op.leftKey, lefts)| * (|NullRows(op.rightKey, rights)| - 1)
  {
    if lefts != [] {
      var init, last := lefts[..|lefts| - 1], lefts[|lefts| - 1];
      LeftLengths(op, init, rights);
      if Column(last, op.leftKey).Null? { UnkeyedPairs(op, last, rights); } else { KeyedPairs(op, last, rights); }
      OneMore(|NullRows(op.leftKey, init)|, |NullRows(op.rightKey, rights)| - 1);
    }
  }

  ghost function IsNullAt(c: nat): Row -> int {
    x => if Column(x, c).Null? then 1 else 0
  }

  /** How many rows are NULL in a column. */
  ghost function NullsAt(c: nat, rows: seq<Row>): int {
    Total(Plus(rows), IsNullAt(c))
  }

  lemma NullsAtAppend(c: nat, a: seq<Row>, b: seq<Row>)
    ensures NullsAt(c, a + b) == NullsAt(c, a) + NullsAt(c, b)
  {
    assert Plus(a + b) == Plus(a) + Plus(b);
    TotalAppend(Plus(a), Plus(b), IsNullAt(c));
  }

  lemma NullsAtPermuted(c: nat, a: seq<Row>, b: seq<Row>)
    requires multiset(a) == multiset(b)
    ensures NullsAt(c, a) == NullsAt(c, b)
  {
    forall r ensures Net(Plus(a), r) == Net(Plus(b), r) {
      NetOfPlus(a, r);
      NetOfPlus(b, r);
    }
    SameNetTotal(Plus(a), Plus(b), IsNullAt(c));
  }

  lemma NullsAtOne(c: nat, row: Row)
    ensures NullsAt(c, [row]) == if Column(row, c).Null? then 1 else 0
  {
    var h := [Positive(row)];
    assert Plus([row]) == h && h[..0] == [];
    assert Total(h, IsNullAt(c)) == Total(h[..0], IsNullAt(c)) + IsNullAt(c)(row);
  }

  /** A right row without a key that shows a value leaves fewer NULLs in that column. */
  lemma {:induction false} FewerNulls(op: JoinOp, lefts: seq<Row>, rights: seq<Row>, c: nat)
    requires |NullRows(op.rightKey, rights)| == 1 && c < |op.emit| && !op.emit[c].0
    requires !Column(NullRows(op.rightKey, rights)[0], op.emit[c].1).Null?
    ensures NullsAt(c, LeftJoin(op, lefts, rights)) + |NullRows(op.leftKey, lefts)| ==
            NullsAt(c, SqlLeftJoin(op, lefts, rights))
  {
    if lefts != [] {
      var init, last := lefts[..|lefts| - 1], lefts[|lefts| - 1];
      FewerNulls(op, init, rights, c);
      NullsAtAppend(c, LeftJoin(op, init, rights), LeftRows(op, rights, last));
      NullsAtAppend(c, SqlLeftJoin(op, init, rights), SqlLeftRows(op, rights, last));
      if Column(last, op.leftKey).Null? {
        UnkeyedPairs(op, last, rights);
        var pair, pad := Combine(op, last, NullRows(op.rightKey, rights)[0]), PadRight(op, last);
        assert LeftRows(op, rights, last) == [pair] && SqlLeftRows(op, rights, last) == [pad];
        NullsAtOne(c, pair);
        NullsAtOne(c, pad);
      } else {
        KeyedPairs(op, last, rights);
      }
    }
  }

  lemma SeveralDiffer(op: JoinOp, lefts: seq<Row>, rights: seq<Row>)
    requires NullRows(op.leftKey, lefts) != [] && |NullRows(op.rightKey, rights)| > 1
    ensures multiset(LeftJoin(op, lefts, rights)) != multiset(SqlLeftJoin(op, lefts, rights))
  {
    LeftLengths(op, lefts, rights);
    Product(|NullRows(op.leftKey, lefts)|, |NullRows(op.rightKey, rights)| - 1);
    assert |multiset(LeftJoin(op, lefts, rights))| != |multiset(SqlLeftJoin(op, lefts, rights))|;
  }

  lemma OneDiffers(op: JoinOp, lefts: seq<Row>, rights: seq<Row>, c: nat)
    requires NullRows(op.leftKey, lefts) != [] && |NullRows(op.rightKey, rights)| == 1
    requires c < |op.emit| && !op.emit[c].0 && !Column(NullRows(op.rightKey, rights)[0], op.emit[c].1).Null?
    ensures multiset(LeftJoin(op, lefts, rights)) != multiset(SqlLeftJoin(op, lefts, rights))
  {
    FewerNulls(op, lefts, rights, c);
    if multiset(LeftJoin(op, lefts, rights)) == multiset(SqlLeftJoin(op, lefts, rights)) {
      NullsAtPermuted(c, LeftJoin(op, lefts, rights), SqlLeftJoin(op, lefts, rights));
    }
  }

  /** The maintained left join is SQL's exactly when no left and right row are both NULL in the key, or the
      only such right row shows nothing but NULL. */
  lemma LeftAgrees(op: JoinOp, lefts: seq<Row>, rights: seq<Row>)
    ensures multiset(LeftJoin(op, lefts, rights)) == multiset(SqlLeftJoin(op, lefts, rights)) <==>
            var nulls := NullRows(op.rightKey, rights);
            NullRows(op.leftKey, lefts) == [] || nulls == [] || (|nulls| == 1 && Blank(op, nulls[0]))
  {
    var unkeyed, nulls := NullRows(op.leftKey, lefts), NullRows(op.rightKey, rights);
    if unkeyed == [] || nulls == [] || (|nulls| == 1 && Blank(op, nulls[0])) {
      LeftSame(op, lefts, rights);
    } else if |nulls| > 1 {
      SeveralDiffer(op, lefts, rights);
    } else {
      var c :| 0 <= c < |op.emit| && !op.emit[c].0 && !Column(nulls[0], op.emit[c].1).Null?;
      OneDiffers(op, lefts, rights, c);
    }
  }

  // ---------------------------------------------------------------------------
  // Right joins, which are run as inner joins
  // ---------------------------------------------------------------------------

  function SqlPairRight(op: JoinOp, right: Row): Row -> seq<Row> {
    left => SqlPairOf(op, left, right)
  }

  function SqlRightRows(op: JoinOp, lefts: seq<Row>, right: Row): seq<Row> {
    var pairs := FlatMap(lefts, SqlPairRight(op, right));
    if pairs == [] then [PadLeft(op, right)] else pairs
  }

  function SqlRightStep(op: JoinOp, lefts: seq<Row>): Row -> seq<Row> {
    right => SqlRightRows(op, lefts, right)
  }

  function SqlRightJoin(op: JoinOp, lefts: seq<Row>, rights: seq<Row>): seq<Row> {
    FlatMap(rights, SqlRightStep(op, lefts))
  }

  ghost predicate SqlRightShows(op: JoinOp, lefts: seq<Row>, right: Row, x: Row) {
    if exists i :: 0 <= i < |lefts| && Meet(op, lefts[i], right)
    then exists i :: 0 <= i < |lefts| && Makes(op, lefts[i], right, x)
    else IsPaddedLeft(op, right, x)
  }

  lemma SqlRightOf(op: JoinOp, lefts: seq<Row>, right: Row, x: Row)
    ensures x in SqlRightRows(op, lefts, right) <==> SqlRightShows(op, lefts, right, x)
  {
    FlatMapRow(lefts, SqlPairRight(op, right), x);
    FlatMapEmpty(lefts, SqlPairRight(op, right));
    PadLeftExactly(op, right, x);
    forall i | 0 <= i < |lefts|
      ensures x in SqlPairRight(op, right)(lefts[i]) <==> Makes(op, lefts[i], right, x)
      ensures SqlPairRight(op, right)(lefts[i]) == [] <==> !Meet(op, lefts[i], right)
    {
      CombineExactly(op, lefts[i], right, x);
    }
  }

  /** SQL's right join: what the right row makes, or, if it meets no row, NULLs and the row. */
  lemma SqlRightRow(op: JoinOp, lefts: seq<Row>, rights: seq<Row>, x: Row)
    ensures x in SqlRightJoin(op, lefts, rights) <==>
            exists j :: 0 <= j < |rights| && SqlRightShows(op, lefts, rights[j], x)
  {
    FlatMapRow(rights, SqlRightStep(op, lefts), x);
    forall j | 0 <= j < |rights|
      ensures x in SqlRightStep(op, lefts)(rights[j]) <==> SqlRightShows(op, lefts, rights[j], x)
    {
      SqlRightOf(op, lefts, rights[j], x);
    }
  }

  /** The row SQL pads for a right row without partner: it is not maintained. */
  function LackingOf(op: JoinOp, lefts: seq<Row>, right: Row): seq<Row> {
    if FlatMap(lefts, SqlPairRight(op, right)) == [] then [PadLeft(op, right)] else []
  }

  function Lacking(op: JoinOp, lefts: seq<Row>): Row -> seq<Row> {
    right => LackingOf(op, lefts, right)
  }

  /** The pairs of NULL with NULL of a right row: they are maintained, and SQL has none. */
  function SurplusOf(op: JoinOp, lefts: seq<Row>, right: Row): seq<Row> {
    if Column(right, op.rightKey).Null? then FlatMap(lefts, PairRight(op, right)) else []
  }

  function Surplus(op: JoinOp, lefts: seq<Row>): Row -> seq<Row> {
    right => SurplusOf(op, lefts, right)
  }

  lemma {:induction false} RightRowPairs(op: JoinOp, lefts: seq<Row>, right: Row)
    ensures FlatMap(lefts, SqlPairRight(op, right)) ==
            if Column(right, op.rightKey).Null? then [] else FlatMap(lefts, PairRight(op, right))
  {
    if lefts != [] { RightRowPairs(op, lefts[..|lefts| - 1], right); }
  }

  lemma RightRowBalance(op: JoinOp, lefts: seq<Row>, right: Row)
    ensures multiset(InnerStepRight(op, lefts)(right)) + multiset(Lacking(op, lefts)(right)) ==
            multiset(SqlRightStep(op, lefts)(right)) + multiset(Surplus(op, lefts)(right))
  {
    RightRowPairs(op, lefts, right);
  }

  lemma {:induction false} FlatMapBalance(rows: seq<Row>, a: Row -> seq<Row>, b: Row -> seq<Row>, c: Row -> seq<Row>,
                                          d: Row -> seq<Row>)
    requires forall x :: multiset(a(x)) + multiset(b(x)) == multiset(c(x)) + multiset(d(x))
    ensures multiset(FlatMap(rows, a)) + multiset(FlatMap(rows, b)) ==
            multiset(FlatMap(rows, c)) + multiset(FlatMap(rows, d))
  {
    if rows != [] {
      var init, x := rows[..|rows| - 1], rows[|rows| - 1];
      FlatMapBalance(init, a, b, c, d);
      FlatMapLast(rows, a);
      FlatMapLast(rows, b);
      FlatMapLast(rows, c);
      FlatMapLast(rows, d);
      Added(multiset(FlatMap(init, a)), multiset(FlatMap(init, b)), multiset(FlatMap(init, c)),
            multiset(FlatMap(init, d)), multiset(a(x)), multiset(b(x)), multiset(c(x)), multiset(d(x)));
    }
  }

  lemma FlatMapLast(rows: seq<Row>, e: Row -> seq<Row>)
    requires rows != []
    ensures multiset(FlatMap(rows, e)) ==
            multiset(FlatMap(rows[..|rows| - 1], e)) + multiset(e(rows[|rows| - 1]))
  {
  }

  lemma Added(a: multiset<Row>, b: multiset<Row>, c: multiset<Row>, d: multiset<Row>,
              a': multiset<Row>, b': multiset<Row>, c': multiset<Row>, d': multiset<Row>)
    requires a + b == c + d && a' + b' == c' + d'
    ensures (a + a') + (b + b') == (c + c') + (d + d')
  {
    assert (a + a') + (b + b') == (a + b) + (a' + b');
    assert (c + c') + (d + d') == (c + d) + (c' + d');
  }

  lemma RightJoinBalance(op: JoinOp, lefts: seq<Row>, rights: seq<Row>)
    ensures multiset(FlatMap(rights, InnerStepRight(op, lefts))) + multiset(FlatMap(rights, Lacking(op, lefts))) ==
            multiset(SqlRightJoin(op, lefts, rights)) + multiset(FlatMap(rights, Surplus(op, lefts)))
  {
    forall x ensures multiset(InnerStepRight(op, lefts)(x)) + multiset(Lacking(op, lefts)(x)) ==
                     multiset(SqlRightStep(op, lefts)(x)) + multiset(Surplus(op, lefts)(x))
    {
      RightRowBalance(op, lefts, x);
    }
    FlatMapBalance(rights, InnerStepRight(op, lefts), Lacking(op, lefts), SqlRightStep(op, lefts), Surplus(op, lefts));
  }

  /** What is maintained for a right join is SQL's answer exactly when the pairs of NULL with NULL make up for the
      padded rows. Without left rows that are NULL in the key: when every right row has a partner. */
  lemma RightAgrees(op: JoinOp, lefts: seq<Row>, rights: seq<Row>)
    ensures multiset(InnerJoin(op, lefts, rights)) == multiset(SqlRightJoin(op, lefts, rights)) <==>
            multiset(FlatMap(rights, Surplus(op, lefts))) == multiset(FlatMap(rights, Lacking(op, lefts)))
    ensures NullRows(op.leftKey, lefts) == [] ==>
              (multiset(InnerJoin(op, lefts, rights)) == multiset(SqlRightJoin(op, lefts, rights)) <==>
               forall right :: right in rights ==> FlatMap(lefts, SqlPairRight(op, right)) != [])
  {
    var more, less := FlatMap(rights, Surplus(op, lefts)), FlatMap(rights, Lacking(op, lefts));
    JoinSymmetric(op, lefts, rights);
    RightJoinBalance(op, lefts, rights);
    Cancelled(multiset(InnerJoin(op, lefts, rights)), multiset(less), multiset(SqlRightJoin(op, lefts, rights)),
              multiset(more));
    if NullRows(op.leftKey, lefts) == [] {
      forall right | right in rights ensures Surplus(op, lefts)(right) == [] { NoNullPairs(op, lefts, right); }
      FlatMapEmpty(rights, Surplus(op, lefts));
      FlatMapEmpty(rights, Lacking(op, lefts));
      assert |multiset(less)| == |less|;
    }
  }

  lemma Cancelled(a: multiset<Row>, b: multiset<Row>, c: multiset<Row>, d: multiset<Row>)
    requires a + b == c + d
    ensures a == c <==> d == b
  {
    if d == b { assert a == (a + b) - b && c == (c + d) - d; }
    if a == c { assert b == (a + b) - a && d == (c + d) - c; }
  }

  lemma {:induction false} NoNullPairs(op: JoinOp, lefts: seq<Row>, right: Row)
    requires NullRows(op.leftKey, lefts) == []
    ensures SurplusOf(op, lefts, right) == []
  {
    if lefts != [] { NoNullPairs(op, lefts[..|lefts| - 1], right); }
  }
}
