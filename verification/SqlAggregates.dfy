/** The aggregates a query asks for, as SQL defines them, against the ones the grouping operator shows. */
module SqlAggregates {
  import opened Values
  import opened MemoryStates
  import opened Aggregates

  datatype Wanted =
    | CountAll
    | CountOf(col: nat)
    | SumOf(col: nat)
    | AvgOf(col: nat)
    | MinOf(col: nat)
    | MaxOf(col: nat)

  /** The operator an aggregate is compiled to. COUNT loses its column. */
  function Compiled(w: Wanted): AggregateFunc {
    match w
    case CountAll => Count
    case CountOf(_) => Count
    case SumOf(c) => Sum(c)
    case AvgOf(c) => Avg(c)
    case MinOf(c) => Min(c)
    case MaxOf(c) => Max(c)
  }

  // ---------------------------------------------------------------------------
  // What SQL asks for
  // ---------------------------------------------------------------------------

  const BILLION := 1_000_000_000

  predicate IsNumber(v: Value) {
    v.Integer? || v.Fixed?
  }

  /** A number in billionths. */
  function Amount(v: Value): int
    requires IsNumber(v)
  {
    if v.Integer? then v.n * BILLION else v.whole * BILLION + v.frac
  }

  predicate LexBefore(a: seq<Byte>, b: seq<Byte>) {
    if b == [] then false
    else if a == [] then true
    else a[0] < b[0] || (a[0] == b[0] && LexBefore(a[1..], b[1..]))
  }

  /** SQL's order of values other than NULL: numbers, then text, then instants. */
  predicate Before(a: Value, b: Value)
    requires !a.Null? && !b.Null?
  {
    if IsNumber(a) then !IsNumber(b) || Amount(a) < Amount(b)
    else if a.Chars? then b.Instant? || (b.Chars? && LexBefore(a.bytes, b.bytes))
    else b.Instant? && (a.secs < b.secs || (a.secs == b.secs && a.nanos < b.nanos))
  }

  lemma {:induction false} LexTransitive(a: seq<Byte>, b: seq<Byte>, c: seq<Byte>)
    requires LexBefore(a, b) && LexBefore(b, c)
    ensures LexBefore(a, c)
  {
    if a != [] && a[0] == b[0] == c[0] { LexTransitive(a[1..], b[1..], c[1..]); }
  }

  lemma {:induction false} LexIrreflexive(a: seq<Byte>)
    ensures !LexBefore(a, a)
  {
    if a != [] { LexIrreflexive(a[1..]); }
  }

  lemma BeforeIrreflexive(a: Value)
    requires !a.Null?
    ensures !Before(a, a)
  {
    if a.Chars? { LexIrreflexive(a.bytes); }
  }

  lemma BeforeTransitive(a: Value, b: Value, c: Value)
    requires !a.Null? && !b.Null? && !c.Null? && Before(a, b) && Before(b, c)
    ensures Before(a, c)
  {
    if a.Chars? && b.Chars? && c.Chars? { LexTransitive(a.bytes, b.bytes, c.bytes); }
  }

  /** The values of a column other than NULL. */
  function Present(c: nat, rows: seq<Row>): (xs: seq<Value>)
    ensures forall i :: 0 <= i < |xs| ==> !xs[i].Null?
    ensures |xs| <= |rows|
  {
    if rows == [] then []
    else
      var x := Column(rows[|rows| - 1], c);
      Present(c, rows[..|rows| - 1]) + if x.Null? then [] else [x]
  }

  predicate AllIntegers(xs: seq<Value>) {
    forall i :: 0 <= i < |xs| ==> xs[i].Integer?
  }

  function Integers(xs: seq<Value>): int {
    if xs == [] then 0
    else Integers(xs[..|xs| - 1]) + if xs[|xs| - 1].Integer? then xs[|xs| - 1].n else 0
  }

  /** `v` is among `xs` and nothing among them comes before (or, for the greatest, after) it. */
  predicate IsExtreme(least: bool, xs: seq<Value>, v: Value)
    requires forall i :: 0 <= i < |xs| ==> !xs[i].Null?
  {
    v in xs && !v.Null? && forall i :: 0 <= i < |xs| ==> !(if least then Before(xs[i], v) else Before(v, xs[i]))
  }

  predicate Ahead(least: bool, a: Value, b: Value)
    requires !a.Null? && !b.Null?
  {
    if least then Before(a, b) else Before(b, a)
  }

  lemma AheadTransitive(least: bool, a: Value, b: Value, c: Value)
    requires !a.Null? && !b.Null? && !c.Null? && Ahead(least, a, b) && Ahead(least, b, c)
    ensures Ahead(least, a, c)
  {
    if least { BeforeTransitive(a, b, c); } else { BeforeTransitive(c, b, a); }
  }

  lemma ExtremeNext(least: bool, xs: seq<Value>, v: Value)
    requires xs != [] && forall i :: 0 <= i < |xs| ==> !xs[i].Null?
    requires IsExtreme(least, xs[..|xs| - 1], v)
    ensures IsExtreme(least, xs, if Ahead(least, xs[|xs| - 1], v) then xs[|xs| - 1] else v)
  {
    var last := xs[|xs| - 1];
    BeforeIrreflexive(last);
    if Ahead(least, last, v) {
      forall i | 0 <= i < |xs| ensures !Ahead(least, xs[i], last) {
        if i < |xs| - 1 {
          assert xs[i] == xs[..|xs| - 1][i];
          if Ahead(least, xs[i], last) { AheadTransitive(least, xs[i], last, v); }
        }
      }
    } else {
      assert forall i :: 0 <= i < |xs| - 1 ==> xs[i] == xs[..|xs| - 1][i];
    }
  }

  /** The first least or greatest value. */
  function Extreme(least: bool, xs: seq<Value>): (v: Value)
    requires xs != [] && forall i :: 0 <= i < |xs| ==> !xs[i].Null?
    ensures IsExtreme(least, xs, v)
  {
    var last := xs[|xs| - 1];
    BeforeIrreflexive(last);
    if |xs| == 1 then last
    else
      var v := Extreme(least, xs[..|xs| - 1]);
      ExtremeNext(least, xs, v);
      if Ahead(least, last, v) then last else v
  }

  /** `v` is what SQL gives for the aggregate over a group's rows. A sum that is not one of integers only is
      a real number; an average counts as right if it is that number, real or not. */
  ghost predicate Gives(w: Wanted, rows: seq<Row>, v: Value) {
    match w
    case CountAll => v == Integer(|rows|)
    case CountOf(c) => v == Integer(|Present(c, rows)|)
    case SumOf(c) =>
      var xs := Present(c, rows);
      if xs == [] then v == Null else if AllIntegers(xs) then v == Integer(Integers(xs)) else v.Fixed?
    case AvgOf(c) =>
      var xs := Present(c, rows);
      if xs == [] then v == Null
      else if AllIntegers(xs) then IsNumber(v) && Amount(v) * |xs| == BILLION * Integers(xs)
      else v.Fixed?
    case MinOf(c) => var xs := Present(c, rows); if xs == [] then v == Null else IsExtreme(true, xs, v)
    case MaxOf(c) => var xs := Present(c, rows); if xs == [] then v == Null else IsExtreme(false, xs, v)
  }

  // ---------------------------------------------------------------------------
  // What the view shows
  // ---------------------------------------------------------------------------

  function GroupRows(op: AggregateOp, rows: seq<Row>, key: Row): seq<Row> {
    if rows == [] then []
    else GroupRows(op, rows[..|rows| - 1], key) +
         if HasValues(rows[|rows| - 1], op.groupBy, key) then [rows[|rows| - 1]] else []
  }

  /** The group a row is in has, column by column, the row's values. */
  lemma GroupColumns(op: AggregateOp, row: Row, key: Row)
    ensures GroupOf(op, row) == key <==> HasValues(row, op.groupBy, key)
  {
    ColumnsExactly(row, op.groupBy, key);
  }

  /** The running count and sum of a group are those of its rows. */
  lemma {:induction false} StatsOfRows(op: AggregateOp, rows: seq<Row>, key: Row)
    ensures GroupCount(op, rows, key) == |GroupRows(op, rows, key)|
    ensures op.func.Sum? || op.func.Avg? ==>
              GroupSum(op, rows, key) == Integers(Present(op.func.col, GroupRows(op, rows, key)))
  {
    if rows != [] {
      var init, last := rows[..|rows| - 1], rows[|rows| - 1];
      StatsOfRows(op, init, key);
      GroupColumns(op, last, key);
      if GroupOf(op, last) != key { assert GroupRows(op, rows, key) == GroupRows(op, init, key); }
      if GroupOf(op, last) == key && (op.func.Sum? || op.func.Avg?) {
        PresentNext(op.func.col, GroupRows(op, init, key), last);
      }
    }
  }

  lemma PresentNext(c: nat, rows: seq<Row>, last: Row)
    ensures var x := Column(last, c);
            && Present(c, rows + [last]) == Present(c, rows) + (if x.Null? then [] else [x])
            && Integers(Present(c, rows + [last])) == Integers(Present(c, rows)) + if x.Integer? then x.n else 0
  {
    var x := Column(last, c);
    assert (rows + [last])[..|rows|] == rows;
    if x.Null? {
      assert Present(c, rows) + [] == Present(c, rows);
    } else {
      assert (Present(c, rows) + [x])[..|Present(c, rows)|] == Present(c, rows);
    }
  }

  /** A value other than NULL is present exactly when some row has it. */
  lemma {:induction false} PresentIn(c: nat, rows: seq<Row>, v: Value)
    ensures v in Present(c, rows) <==> !v.Null? && exists i :: 0 <= i < |rows| && Column(rows[i], c) == v
  {
    if rows != [] {
      PresentIn(c, rows[..|rows| - 1], v);
      if v in Present(c, rows[..|rows| - 1]) {
        var i :| 0 <= i < |rows| - 1 && Column(rows[..|rows| - 1][i], c) == v;
        assert Column(rows[i], c) == v;
      }
      if i :| 0 <= i < |rows| && Column(rows[i], c) == v && !v.Null? {
        if i < |rows| - 1 { assert Column(rows[..|rows| - 1][i], c) == v; }
      }
    }
  }

  /** Nothing is missing exactly when no row is NULL in the column. */
  lemma {:induction false} PresentAll(c: nat, rows: seq<Row>)
    ensures |Present(c, rows)| == |rows| <==> forall i :: 0 <= i < |rows| ==> !Column(rows[i], c).Null?
  {
    if rows != [] {
      PresentAll(c, rows[..|rows| - 1]);
      assert forall i :: 0 <= i < |rows| - 1 ==> rows[i] == rows[..|rows| - 1][i];
    }
  }

  ghost predicate Divides(c: int, a: int) {
    exists q :: q * c == a
  }

  /** Division towards zero leaves a remainder on the dividend's side of zero. */
  lemma {:induction false} DivRemainder(a: int, b: int) returns (rem: int)
    requires b > 0
    ensures a == DivTowardZero(a, b) * b + rem && -b < rem < b
    ensures a >= 0 ==> rem >= 0 && DivTowardZero(a, b) >= 0
    ensures a <= 0 ==> rem <= 0 && DivTowardZero(a, b) <= 0
    decreases if a < 0 then -a else a
  {
    if a >= b {
      rem := DivRemainder(a - b, b);
    } else if a <= -b {
      rem := DivRemainder(a + b, b);
    } else {
      rem := a;
    }
  }

  lemma Growing(x: int, c: int)
    requires c > 0
    ensures x >= 1 ==> x * c >= c
    ensures x <= -1 ==> x * c <= -c
  {
    if x >= 1 { assert x * c == c + (x - 1) * c; }
    if x <= -1 { assert x * c == -c + (x + 1) * c; }
  }

  lemma Squeezed(q: int, c: int, rem: int, n: int)
    requires 0 < n <= c && -c < rem < c && q * c + rem == q * n
    requires q >= 0 ==> rem >= 0 || q == 0
    requires q <= 0 ==> rem <= 0 || q == 0
    ensures rem == 0 && (q == 0 || n == c)
  {
    assert q * (c - n) == -rem;
    if n < c { Growing(q, c - n); }
  }

  /** The quotient of a sum by a larger count is the average over fewer values only when the sum is 0. */
  lemma AverageShown(sum: int, count: int, n: int)
    requires 0 < n <= count
    ensures DivTowardZero(sum, count) * n == sum <==> sum == 0 || (n == count && Divides(count, sum))
  {
    var q := DivTowardZero(sum, count);
    var rem := DivRemainder(sum, count);
    if q * n == sum {
      Squeezed(q, count, rem, n);
    }
    if sum == 0 {
      assert q == 0;
    } else if n == count && Divides(count, sum) {
      var k :| k * count == sum;
      ExactQuotient(k, q, count, rem);
    }
  }

  lemma ExactQuotient(k: int, q: int, c: int, rem: int)
    requires c > 0 && -c < rem < c && k * c == q * c + rem
    ensures k == q
  {
    Growing(k - q, c);
    assert (k - q) * c == k * c - q * c;
  }

  lemma InBillionths(q: int, n: int, sum: int)
    ensures q * BILLION * n == BILLION * sum <==> q * n == sum
  {
    assert q * BILLION * n == BILLION * (q * n);
  }

  /** When the value the view shows for a group is the one SQL asks for. */
  ghost predicate Agrees(w: Wanted, rows: seq<Row>) {
    match w
    case CountAll => true
    case CountOf(c) => forall i :: 0 <= i < |rows| ==> !Column(rows[i], c).Null?
    case SumOf(c) =>
      && (exists i :: 0 <= i < |rows| && Column(rows[i], c).Integer?)
      && (forall i :: 0 <= i < |rows| ==> Column(rows[i], c).Integer? || Column(rows[i], c).Null?)
    case AvgOf(c) =>
      var xs := Present(c, rows);
      && xs != [] && AllIntegers(xs)
      && (Integers(xs) == 0 || (|xs| == |rows| && Divides(|rows|, Integers(xs))))
    case MinOf(c) =>
      && (exists i :: 0 <= i < |rows| && Column(rows[i], c) == Integer(0))
      && (forall i :: 0 <= i < |rows| && IsNumber(Column(rows[i], c)) ==> Amount(Column(rows[i], c)) >= 0)
    case MaxOf(c) =>
      && (exists i :: 0 <= i < |rows| && Column(rows[i], c) == Integer(0))
      && (forall i :: 0 <= i < |rows| ==>
            Column(rows[i], c).Null? || (IsNumber(Column(rows[i], c)) && Amount(Column(rows[i], c)) <= 0))
  }

  lemma SumRight(c: nat, rows: seq<Row>)
    ensures Gives(SumOf(c), rows, Integer(Integers(Present(c, rows)))) <==> Agrees(SumOf(c), rows)
  {
    var xs := Present(c, rows);
    if Agrees(SumOf(c), rows) {
      var i :| 0 <= i < |rows| && Column(rows[i], c).Integer?;
      PresentIn(c, rows, Column(rows[i], c));
      forall k | 0 <= k < |xs| ensures xs[k].Integer? { PresentIn(c, rows, xs[k]); }
    } else if xs != [] && AllIntegers(xs) {
      PresentIn(c, rows, xs[0]);
      forall i | 0 <= i < |rows| ensures Column(rows[i], c).Integer? || Column(rows[i], c).Null? {
        PresentIn(c, rows, Column(rows[i], c));
      }
    }
  }

  lemma ExtremeRight(w: Wanted, rows: seq<Row>)
    requires w.MinOf? || w.MaxOf?
    ensures Gives(w, rows, Integer(0)) <==> Agrees(w, rows)
  {
    var c := w.col;
    var xs := Present(c, rows);
    PresentIn(c, rows, Integer(0));
    if Agrees(w, rows) {
      forall k | 0 <= k < |xs| ensures !Ahead(w.MinOf?, xs[k], Integer(0)) { PresentIn(c, rows, xs[k]); }
    }
    if Gives(w, rows, Integer(0)) {
      forall i | 0 <= i < |rows| && !Column(rows[i], c).Null?
        ensures !Ahead(w.MinOf?, Column(rows[i], c), Integer(0))
      {
        PresentIn(c, rows, Column(rows[i], c));
        var k :| 0 <= k < |xs| && xs[k] == Column(rows[i], c);
      }
    }
  }

  lemma AvgRight(c: nat, rows: seq<Row>)
    requires rows != []
    ensures Gives(AvgOf(c), rows, Integer(DivTowardZero(Integers(Present(c, rows)), |rows|))) <==>
            Agrees(AvgOf(c), rows)
  {
    var xs := Present(c, rows);
    var sum := Integers(xs);
    if xs != [] {
      AverageShown(sum, |rows|, |xs|);
      InBillionths(DivTowardZero(sum, |rows|), |xs|, sum);
    }
  }

  /** For every group of a table, the view shows what SQL asks for exactly when `Agrees` says so. */
  lemma ShownIsRight(w: Wanted, groupBy: seq<nat>, rows: seq<Row>, key: Row)
    requires GroupCount(AggregateOp(groupBy, Compiled(w)), rows, key) > 0
    ensures var op := AggregateOp(groupBy, Compiled(w));
            Gives(w, GroupRows(op, rows, key), Shown(op, GroupStats(op, rows, key))) <==>
            Agrees(w, GroupRows(op, rows, key))
  {
    var op := AggregateOp(groupBy, Compiled(w));
    StatsOfRows(op, rows, key);
    match w
    case CountAll =>
    case CountOf(c) => PresentAll(c, GroupRows(op, rows, key));
    case SumOf(c) => SumRight(c, GroupRows(op, rows, key));
    case AvgOf(c) => AvgRight(c, GroupRows(op, rows, key));
    case MinOf(_) => NothingToSum(op, rows, key); ExtremeRight(w, GroupRows(op, rows, key));
    case MaxOf(_) => NothingToSum(op, rows, key); ExtremeRight(w, GroupRows(op, rows, key));
  }

  // ---------------------------------------------------------------------------
  // Whole answers
  // ---------------------------------------------------------------------------

  /** A SELECT of one aggregate over rows of `width` columns. `equality`: the column a WHERE clause compares
      with `=`, if there is one. */
  datatype Query = Query(wanted: Wanted, groupBy: Option<seq<nat>>, equality: Option<nat>, width: nat)

  /** The grouping a query is compiled to. Without GROUP BY it is the column of the equality, or the first. */
  function Grouping(q: Query): seq<nat> {
    match q.groupBy
    case Some(cols) => cols
    case None => if q.equality.Some? then [q.equality.value] else if q.width > 0 then [0] else []
  }

  function Operator(q: Query): AggregateOp {
    AggregateOp(Grouping(q), Compiled(q.wanted))
  }

  /** What the view of a query reports: group columns and aggregate, without GROUP BY the aggregate alone. */
  function Reported(q: Query, view: seq<Row>): (out: seq<Row>)
    ensures |out| == |view|
  {
    seq(|view|, i requires 0 <= i < |view| =>
      if q.groupBy.Some? then view[i] else [Column(view[i], |Grouping(q)|)])
  }

  ghost predicate HasGroup(op: AggregateOp, rows: seq<Row>, key: Row) {
    exists j :: 0 <= j < |rows| && GroupOf(op, rows[j]) == key
  }

  ghost predicate HasRow(op: AggregateOp, out: seq<Row>, key: Row) {
    exists i :: 0 <= i < |out| && GroupPart(op, out[i]) == key
  }

  /** `out` has one row for every group of the rows, and no other. */
  ghost predicate OneRowEach(op: AggregateOp, rows: seq<Row>, out: seq<Row>) {
    && (forall i :: 0 <= i < |out| ==> |out[i]| == |op.groupBy| + 1 && HasGroup(op, rows, GroupPart(op, out[i])))
    && (forall i, k :: 0 <= i < k < |out| ==> GroupPart(op, out[i]) != GroupPart(op, out[k]))
    && (forall j :: 0 <= j < |rows| ==> HasRow(op, out, GroupOf(op, rows[j])))
  }

  /** Every row has what SQL gives for its group. */
  ghost predicate EachGiven(op: AggregateOp, w: Wanted, rows: seq<Row>, out: seq<Row>) {
    forall i :: 0 <= i < |out| ==> Gives(w, GroupRows(op, rows, GroupPart(op, out[i])), Column(out[i], |op.groupBy|))
  }

  /** `out` is SQL's answer: a row for each group, or without GROUP BY exactly one row, also over no rows. */
  ghost predicate IsAnswer(q: Query, rows: seq<Row>, out: seq<Row>) {
    match q.groupBy
    case Some(_) => OneRowEach(Operator(q), rows, out) && EachGiven(Operator(q), q.wanted, rows, out)
    case None => |out| == 1 && |out[0]| == 1 && Gives(q.wanted, rows, out[0][0])
  }

  predicate OneGroup(op: AggregateOp, rows: seq<Row>) {
    forall i, j :: 0 <= i < j < |rows| ==> GroupOf(op, rows[i]) == GroupOf(op, rows[j])
  }

  lemma {:induction false} GroupsCover(op: AggregateOp, rows: seq<Row>, j: nat)
    requires j < |rows|
    ensures GroupOf(op, rows[j]) in GroupsOf(op, rows)
  {
    if j < |rows| - 1 { GroupsCover(op, rows[..|rows| - 1], j); }
  }

  lemma {:induction false} GroupsOccur(op: AggregateOp, rows: seq<Row>, key: Row) returns (j: nat)
    requires key in GroupsOf(op, rows)
    ensures j < |rows| && GroupOf(op, rows[j]) == key
  {
    if GroupOf(op, rows[|rows| - 1]) == key {
      j := |rows| - 1;
    } else {
      j := GroupsOccur(op, rows[..|rows| - 1], key);
    }
  }

  lemma {:induction false} AllInGroup(op: AggregateOp, rows: seq<Row>, key: Row)
    requires forall i :: 0 <= i < |rows| ==> GroupOf(op, rows[i]) == key
    ensures GroupRows(op, rows, key) == rows
  {
    if rows != [] {
      AllInGroup(op, rows[..|rows| - 1], key);
      GroupColumns(op, rows[|rows| - 1], key);
    }
  }

  /** The rows of the view: one for each group, with what the operator shows. */
  lemma ViewRow(op: AggregateOp, rows: seq<Row>, i: nat)
    requires i < |GroupsOf(op, rows)|
    ensures var key, r := GroupsOf(op, rows)[i], AggregateRows(op, rows)[i];
            && GroupCount(op, rows, key) > 0 && |r| == |op.groupBy| + 1 && GroupPart(op, r) == key
            && r[|op.groupBy|] == Shown(op, GroupStats(op, rows, key))
  {
    GroupsAreCounted(op, rows, GroupsOf(op, rows)[i]);
  }

  /** The view has one row for every group, whatever it shows. */
  lemma ViewHasOneRowEach(op: AggregateOp, rows: seq<Row>)
    ensures OneRowEach(op, rows, AggregateRows(op, rows))
  {
    var keys, out := GroupsOf(op, rows), AggregateRows(op, rows);
    forall i | 0 <= i < |out| ensures |out[i]| == |op.groupBy| + 1 && GroupPart(op, out[i]) == keys[i] {
      ViewRow(op, rows, i);
    }
    GroupsAreCounted(op, rows, []);
    OneRowPerKey(op, rows, keys, out);
  }

  lemma OneRowPerKey(op: AggregateOp, rows: seq<Row>, keys: seq<Row>, out: seq<Row>)
    requires keys == GroupsOf(op, rows) && Distinct(keys) && |out| == |keys|
    requires forall i :: 0 <= i < |out| ==> |out[i]| == |op.groupBy| + 1 && GroupPart(op, out[i]) == keys[i]
    ensures OneRowEach(op, rows, out)
  {
    forall i | 0 <= i < |out| ensures HasGroup(op, rows, GroupPart(op, out[i])) {
      var j := GroupsOccur(op, rows, keys[i]);
    }
    forall j | 0 <= j < |rows| ensures HasRow(op, out, GroupOf(op, rows[j])) {
      GroupsCover(op, rows, j);
      var i :| 0 <= i < |keys| && keys[i] == GroupOf(op, rows[j]);
      assert GroupPart(op, out[i]) == GroupOf(op, rows[j]);
    }
  }

  ghost predicate EveryGroupAgrees(op: AggregateOp, w: Wanted, rows: seq<Row>) {
    forall j :: 0 <= j < |rows| ==> Agrees(w, GroupRows(op, rows, GroupOf(op, rows[j])))
  }

  lemma GroupedIsRight(w: Wanted, groupBy: seq<nat>, rows: seq<Row>)
    ensures var op := AggregateOp(groupBy, Compiled(w));
            EachGiven(op, w, rows, AggregateRows(op, rows)) <==> EveryGroupAgrees(op, w, rows)
  {
    var op := AggregateOp(groupBy, Compiled(w));
    var keys, out := GroupsOf(op, rows), AggregateRows(op, rows);
    forall i | 0 <= i < |out|
      ensures Gives(w, GroupRows(op, rows, GroupPart(op, out[i])), Column(out[i], |groupBy|)) <==>
              Agrees(w, GroupRows(op, rows, keys[i]))
    {
      ViewRow(op, rows, i);
      ShownIsRight(w, groupBy, rows, keys[i]);
    }
    if EachGiven(op, w, rows, out) {
      forall j | 0 <= j < |rows| ensures Agrees(w, GroupRows(op, rows, GroupOf(op, rows[j]))) {
        GroupsCover(op, rows, j);
        var i :| 0 <= i < |keys| && keys[i] == GroupOf(op, rows[j]);
        assert Gives(w, GroupRows(op, rows, GroupPart(op, out[i])), Column(out[i], |groupBy|));
      }
    }
    if EveryGroupAgrees(op, w, rows) {
      forall i | 0 <= i < |out| ensures Agrees(w, GroupRows(op, rows, keys[i])) {
        var j := GroupsOccur(op, rows, keys[i]);
      }
    }
  }

  lemma {:induction false} OneGroupOneKey(op: AggregateOp, rows: seq<Row>)
    requires rows != [] && OneGroup(op, rows)
    ensures GroupsOf(op, rows) == [GroupOf(op, rows[0])]
  {
    var front := rows[..|rows| - 1];
    if front == [] {
      assert GroupsOf(op, front) == [];
    } else {
      OneGroupOneKey(op, front);
      assert GroupOf(op, rows[|rows| - 1]) == GroupOf(op, rows[0]);
    }
  }

  /** There is one row in the view exactly when the rows are of one group, and then they are all in it. */
  lemma OneKeyIsOneGroup(op: AggregateOp, rows: seq<Row>)
    ensures |GroupsOf(op, rows)| == 1 <==> rows != [] && OneGroup(op, rows)
    ensures |GroupsOf(op, rows)| == 1 ==> GroupRows(op, rows, GroupsOf(op, rows)[0]) == rows
  {
    var keys := GroupsOf(op, rows);
    if rows != [] && OneGroup(op, rows) { OneGroupOneKey(op, rows); }
    if |keys| == 1 {
      forall j | 0 <= j < |rows| ensures GroupOf(op, rows[j]) == keys[0] { GroupsCover(op, rows, j); }
      AllInGroup(op, rows, keys[0]);
    }
  }

  lemma WholeShown(q: Query, rows: seq<Row>, view: seq<Row>, key: Row)
    requires q.groupBy.None? && |view| == 1 && GroupCount(Operator(q), rows, key) > 0
    requires GroupRows(Operator(q), rows, key) == rows
    requires Column(view[0], |Grouping(q)|) == Shown(Operator(q), GroupStats(Operator(q), rows, key))
    ensures IsAnswer(q, rows, Reported(q, view)) <==> Agrees(q.wanted, rows)
  {
    ShownIsRight(q.wanted, Grouping(q), rows, key);
  }

  lemma WholeIsRight(q: Query, rows: seq<Row>)
    requires q.groupBy.None?
    ensures IsAnswer(q, rows, Reported(q, AggregateRows(Operator(q), rows))) <==>
            rows != [] && OneGroup(Operator(q), rows) && Agrees(q.wanted, rows)
  {
    var op := Operator(q);
    var keys, view := GroupsOf(op, rows), AggregateRows(op, rows);
    OneKeyIsOneGroup(op, rows);
    if |keys| == 1 {
      ViewRow(op, rows, 0);
      WholeShown(q, rows, view, keys[0]);
    }
  }

  /** The view reports SQL's answer exactly when, with GROUP BY, every group agrees, and without it, there are
      rows, they are all in one compiled group, and together they agree. */
  lemma ViewIsRight(q: Query, rows: seq<Row>)
    ensures IsAnswer(q, rows, Reported(q, AggregateRows(Operator(q), rows))) <==>
            if q.groupBy.Some? then EveryGroupAgrees(Operator(q), q.wanted, rows)
            else rows != [] && OneGroup(Operator(q), rows) && Agrees(q.wanted, rows)
  {
    if q.groupBy.Some? {
      assert Reported(q, AggregateRows(Operator(q), rows)) == AggregateRows(Operator(q), rows);
      ViewHasOneRowEach(Operator(q), rows);
      GroupedIsRight(q.wanted, Grouping(q), rows);
    } else {
      WholeIsRight(q, rows);
    }
  }

  // ---------------------------------------------------------------------------
  // One key of a view
  // ---------------------------------------------------------------------------

  /** The rows `c = v` selects: none for NULL. */
  function Selected(op: AggregateOp, rows: seq<Row>, v: Value): seq<Row> {
    if v.Null? then [] else GroupRows(op, rows, [v])
  }

  /** A view grouped by one column has at most one row under a key. */
  lemma UnderKey(op: AggregateOp, rows: seq<Row>, v: Value)
    requires |op.groupBy| == 1
    ensures RowsWith(AggregateRows(op, rows), [0], [v]) ==
            if GroupCount(op, rows, [v]) > 0 then [[v, Shown(op, GroupStats(op, rows, [v]))]] else []
  {
    var view, g := AggregateRows(op, rows), GroupStats(op, rows, [v]);
    var found := RowsWith(view, [0], [v]);
    forall r ensures multiset(found)[r] == if g.count > 0 && r == [v, Shown(op, g)] then 1 else 0 {
      RowsWithBag(view, [0], [v], r);
      CountAggregateRows(op, rows, r);
      FirstColumn(r, v);
    }
    if g.count > 0 {
      assert multiset(found) == multiset{[v, Shown(op, g)]};
      assert |multiset(found)| == |found| == 1 && found[0] in multiset(found);
    } else {
      assert multiset(found) == multiset{};
      assert |multiset(found)| == |found|;
    }
  }

  lemma FirstColumn(r: Row, v: Value)
    ensures Columns(r, [0]) == [Column(r, 0)]
    ensures |r| == 2 && r[..1] == [v] ==> Column(r, 0) == v && r == [v, r[1]]
    ensures |r| == 2 && Column(r, 0) == v ==> r[..1] == [v]
  {
    assert [0][..0] == [];
  }

  /** A query without GROUP BY whose WHERE compares a column with a parameter: looking one value up in the view
      reports SQL's answer exactly when that is not NULL, there are such rows, and they agree. */
  lemma KeyIsRight(q: Query, rows: seq<Row>, v: Value)
    requires q.groupBy.None? && q.equality.Some?
    ensures var selected := Selected(Operator(q), rows, v);
            IsAnswer(q, selected, Reported(q, RowsWith(AggregateRows(Operator(q), rows), [0], [v]))) <==>
            selected != [] && Agrees(q.wanted, selected)
  {
    var op := Operator(q);
    UnderKey(op, rows, v);
    StatsOfRows(op, rows, [v]);
    if GroupCount(op, rows, [v]) > 0 {
      ShownIsRight(q.wanted, op.groupBy, rows, [v]);
      if v.Null? { NothingSelected(op, q.wanted, GroupStats(op, rows, [v])); }
    }
  }

  /** Over no rows SQL gives 0 for COUNT and NULL for the others; the view shows neither. */
  lemma NothingSelected(op: AggregateOp, w: Wanted, g: Group)
    requires op.func == Compiled(w) && g.count > 0
    ensures !Gives(w, [], Shown(op, g))
  {
  }

  // ---------------------------------------------------------------------------
  // Inputs on which the view is wrong
  // ---------------------------------------------------------------------------

  lemma GroupOfFirst(op: AggregateOp, r: Row)
    requires op.groupBy == [0] && |r| > 0
    ensures GroupOf(op, r) == [r[0]]
  {
    assert op.groupBy[..0] == [];
  }

  lemma TwoGroups(op: AggregateOp, a: Row, b: Row)
    requires op.func.Count? && GroupOf(op, a) != GroupOf(op, b)
    ensures AggregateRows(op, [a, b]) == [GroupOf(op, a) + [Integer(1)], GroupOf(op, b) + [Integer(1)]]
  {
    var rows, first, none: seq<Row> := [a, b], [a], [];
    assert rows[..1] == first && first[..0] == none;
    assert GroupsOf(op, first) == [GroupOf(op, a)];
    assert GroupsOf(op, rows) == [GroupOf(op, a), GroupOf(op, b)];
    assert GroupCount(op, first, GroupOf(op, a)) == 1 && GroupCount(op, first, GroupOf(op, b)) == 0;
  }

  /** COUNT(*) without GROUP BY over 1 and 2: SQL gives 2, the view reports 1 twice. */
  lemma CountIsSplit()
    ensures var q, rows := Query(CountAll, None, None, 1), [[Integer(1)], [Integer(2)]];
            && IsAnswer(q, rows, [[Integer(2)]])
            && Reported(q, AggregateRows(Operator(q), rows)) == [[Integer(1)], [Integer(1)]]
  {
    var q := Query(CountAll, None, None, 1);
    var one, two: Row := [Integer(1)], [Integer(2)];
    GroupOfFirst(Operator(q), one);
    GroupOfFirst(Operator(q), two);
    TwoGroups(Operator(q), one, two);
    assert Column(one + [Integer(1)], 1) == Column(two + [Integer(1)], 1) == Integer(1);
  }

  /** Over no rows SQL gives one row, 0, and the view reports none. */
  lemma CountOfNothing()
    ensures var q := Query(CountAll, None, None, 1);
            IsAnswer(q, [], [[Integer(0)]]) && Reported(q, AggregateRows(Operator(q), [])) == []
  {
  }

  lemma PairShown(op: AggregateOp, a: Row, b: Row, c: nat, x: Value, y: Value)
    requires (op.func.Min? || op.func.Max?) && GroupOf(op, a) == GroupOf(op, b)
    requires Column(a, c) == x && Column(b, c) == y && !x.Null? && !y.Null?
    ensures AggregateRows(op, [a, b]) == [GroupOf(op, a) + [Integer(0)]]
    ensures GroupRows(op, [a, b], GroupOf(op, a)) == [a, b] && Present(c, [a, b]) == [x, y]
  {
    var rows, first, none: seq<Row> := [a, b], [a], [];
    assert rows[..1] == first && first[..0] == none;
    OneGroupOneKey(op, rows);
    AllInGroup(op, rows, GroupOf(op, a));
    StatsOfRows(op, rows, GroupOf(op, a));
    NothingToSum(op, rows, GroupOf(op, a));
    assert Present(c, first) == [x];
  }

  /** Two values other than 0, the first before the second: SQL gives one of them, the view shows 0. */
  lemma ExtremesOfPair(q: Query, a: Row, b: Row, c: nat, x: Value, y: Value)
    requires q.wanted == MinOf(c) || q.wanted == MaxOf(c)
    requires q.groupBy.Some? && GroupOf(Operator(q), a) == GroupOf(Operator(q), b)
    requires Column(a, c) == x && Column(b, c) == y && !x.Null? && !y.Null? && Before(x, y) && !Before(y, x)
    ensures var key := GroupOf(Operator(q), a);
            && IsAnswer(q, [a, b], [key + [if q.wanted.MinOf? then x else y]])
            && Reported(q, AggregateRows(Operator(q), [a, b])) == [key + [Integer(0)]]
  {
    var op, v := Operator(q), if q.wanted.MinOf? then x else y;
    PairShown(op, a, b, c, x, y);
    ExtremeOfPair(x, y);
    assert Gives(q.wanted, [a, b], v);
    OneOfPair(op, q.wanted, a, b, GroupOf(op, a), v);
    assert Reported(q, AggregateRows(op, [a, b])) == AggregateRows(op, [a, b]);
  }

  lemma ExtremeOfPair(x: Value, y: Value)
    requires !x.Null? && !y.Null? && Before(x, y) && !Before(y, x)
    ensures IsExtreme(true, [x, y], x) && IsExtreme(false, [x, y], y)
  {
    BeforeIrreflexive(x);
    BeforeIrreflexive(y);
    assert x == [x, y][0] && y == [x, y][1];
  }

  /** 5 and 7 in one group: the least is 5 and the greatest 7, and the view shows 0 for either. */
  lemma FiveAndSeven(w: Wanted)
    requires w == MinOf(1) || w == MaxOf(1)
    ensures var rows := [[Integer(1), Integer(5)], [Integer(1), Integer(7)]];
            var q := Query(w, Some([0]), None, 2);
            && IsAnswer(q, rows, [[Integer(1)] + [Integer(if w.MinOf? then 5 else 7)]])
            && Reported(q, AggregateRows(Operator(q), rows)) == [[Integer(1)] + [Integer(0)]]
  {
    var five, seven: Row := [Integer(1), Integer(5)], [Integer(1), Integer(7)];
    var q := Query(w, Some([0]), None, 2);
    GroupOfFirst(Operator(q), five);
    GroupOfFirst(Operator(q), seven);
    ExtremesOfPair(q, five, seven, 1, Integer(5), Integer(7));
  }

  lemma OneOfPair(op: AggregateOp, w: Wanted, a: Row, b: Row, key: Row, v: Value)
    requires GroupOf(op, a) == GroupOf(op, b) == key && GroupRows(op, [a, b], key) == [a, b]
    requires Gives(w, [a, b], v)
    ensures OneRowEach(op, [a, b], [key + [v]]) && EachGiven(op, w, [a, b], [key + [v]])
  {
    var rows, out := [a, b], [key + [v]];
    assert GroupPart(op, out[0]) == key && Column(out[0], |op.groupBy|) == v;
    assert GroupOf(op, rows[0]) == key;
  }
}
