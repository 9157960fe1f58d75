/** The join operator: what it emits for a delta on either side, against the join it maintains. */
module Joins {
  import opened Values
  import opened ZSets
  import opened MemoryStates
  import opened Operators

  datatype JoinType = Inner | Left | Right

  datatype JoinOp = JoinOp(joinType: JoinType, leftKey: nat, rightKey: nat, emit: seq<(bool, nat)>)

  function Combine(op: JoinOp, left: Row, right: Row): Row {
    seq(|op.emit|, i requires 0 <= i < |op.emit| =>
      if op.emit[i].0 then Column(left, op.emit[i].1) else Column(right, op.emit[i].1))
  }

  /** A left row without partner, NULLs on the right. */
  function PadRight(op: JoinOp, left: Row): Row {
    seq(|op.emit|, i requires 0 <= i < |op.emit| =>
      if op.emit[i].0 then Column(left, op.emit[i].1) else Null)
  }

  function PadLeft(op: JoinOp, right: Row): Row {
    seq(|op.emit|, i requires 0 <= i < |op.emit| =>
      if op.emit[i].0 then Null else Column(right, op.emit[i].1))
  }

  /** `x` shows, column by column, the named column of the named side. */
  predicate IsPair(op: JoinOp, left: Row, right: Row, x: Row) {
    |x| == |op.emit| &&
    forall k :: 0 <= k < |op.emit| ==> x[k] == Column(if op.emit[k].0 then left else right, op.emit[k].1)
  }

  predicate SameKey(op: JoinOp, left: Row, right: Row) {
    Column(left, op.leftKey) == Column(right, op.rightKey)
  }

  /** `x` shows the left row's columns, and NULL for the right's. */
  predicate IsPadded(op: JoinOp, left: Row, x: Row) {
    |x| == |op.emit| &&
    forall k :: 0 <= k < |op.emit| ==> x[k] == if op.emit[k].0 then Column(left, op.emit[k].1) else Null
  }

  predicate IsPaddedLeft(op: JoinOp, right: Row, x: Row) {
    |x| == |op.emit| &&
    forall k :: 0 <= k < |op.emit| ==> x[k] == if op.emit[k].0 then Null else Column(right, op.emit[k].1)
  }

  lemma CombineExactly(op: JoinOp, left: Row, right: Row, x: Row)
    ensures Combine(op, left, right) == x <==> IsPair(op, left, right, x)
  {
  }

  lemma PadExactly(op: JoinOp, left: Row, x: Row)
    ensures PadRight(op, left) == x <==> IsPadded(op, left, x)
  {
  }

  lemma PadLeftExactly(op: JoinOp, right: Row, x: Row)
    ensures PadLeft(op, right) == x <==> IsPaddedLeft(op, right, x)
  {
  }

  /** What the converter has a join show: all columns of the left side, then those of the right but its key. */
  function ConvertedEmit(lefts: nat, rights: nat, rightKey: nat): seq<(bool, nat)> {
    seq(lefts, i => (true, i)) +
    seq(if rightKey < rights then rights - 1 else rights, i => (false, if i < rightKey then i else i + 1))
  }

  /** So a joined row is the left row and the right row without its key, and a padded one ends in NULLs. */
  lemma ConvertedRows(op: JoinOp, left: Row, right: Row)
    requires op.rightKey < |right| && op.emit == ConvertedEmit(|left|, |right|, op.rightKey)
    ensures Combine(op, left, right) == left + right[..op.rightKey] + right[op.rightKey + 1..]
    ensures PadRight(op, left) == left + seq(|right| - 1, _ => Null)
  {
  }

  function OurKey(op: JoinOp, fromLeft: bool, row: Row): Row {
    [Column(row, if fromLeft then op.leftKey else op.rightKey)]
  }

  /** `row` next to a row of the other side. */
  function Matched(op: JoinOp, fromLeft: bool, row: Row, other: Row): seq<Row> {
    [if fromLeft then Combine(op, row, other) else Combine(op, other, row)]
  }

  function Beside(op: JoinOp, fromLeft: bool, row: Row): Row -> seq<Row> {
    other => Matched(op, fromLeft, row, other)
  }

  /** What one record of one side contributes, by looking its key up in the other side's state. */
  function Matches(op: JoinOp, fromLeft: bool, other: MemoryState, row: Row): seq<Row> {
    match Lookup(other, OurKey(op, fromLeft, row))
    case Found(rows) => FlatMap(rows, Beside(op, fromLeft, row))
    case _ => if op.joinType.Left? && fromLeft then [PadRight(op, row)] else []
  }

  function JoinStep(op: JoinOp, fromLeft: bool, other: MemoryState): Row -> seq<Row> {
    row => Matches(op, fromLeft, other, row)
  }

  /** Keys the other side's state knows nothing about, in record order. */
  function UnknownKeys(op: JoinOp, fromLeft: bool, other: MemoryState, records: seq<Record>): seq<Row> {
    if records == [] then []
    else
      var key := OurKey(op, fromLeft, records[|records| - 1].row);
      UnknownKeys(op, fromLeft, other, records[..|records| - 1]) +
      if Lookup(other, key).Missing? then [key] else []
  }

  /** Exactly the keys of the records that the other side has nothing under. */
  lemma {:induction false} UnknownExactly(op: JoinOp, fromLeft: bool, other: MemoryState, records: seq<Record>,
                                          key: Row)
    ensures key in UnknownKeys(op, fromLeft, other, records) <==>
            key !in other.data && exists i :: 0 <= i < |records| && OurKey(op, fromLeft, records[i].row) == key
  {
    if records != [] {
      var front, last := records[..|records| - 1], records[|records| - 1];
      UnknownExactly(op, fromLeft, other, front, key);
      assert forall i :: 0 <= i < |front| ==> front[i] == records[i];
      if OurKey(op, fromLeft, last.row) == key { assert OurKey(op, fromLeft, records[|records| - 1].row) == key; }
    }
  }

  /** One record beside each row the lookup found. */
  method JoinRecord(op: JoinOp, fromLeft: bool, rec: Record, others: seq<Row>) returns (results: seq<Record>)
    ensures results == Resign(rec, FlatMap(others, Beside(op, fromLeft, rec.row)))
  {
    results := [];
    for j := 0 to |others|
      invariant results == Resign(rec, FlatMap(others[..j], Beside(op, fromLeft, rec.row)))
    {
      assert others[..j + 1][..j] == others[..j];
      var combined := if fromLeft then Combine(op, rec.row, others[j]) else Combine(op, others[j], rec.row);
      results := results + [if rec.Positive? then Positive(combined) else Negative(combined)];
    }
    assert others[..|others|] == others;
  }

  method JoinLookup(op: JoinOp, fromLeft: bool, rec: Record, other: MemoryState) returns (results: seq<Record>)
    ensures results == Resign(rec, JoinStep(op, fromLeft, other)(rec.row))
  {
    match Lookup(other, OurKey(op, fromLeft, rec.row)) {
      case Found(others) =>
        results := JoinRecord(op, fromLeft, rec, others);
      case _ =>
        results := [];
        if op.joinType.Left? && fromLeft {
          var padded := PadRight(op, rec.row);
          results := [if rec.Positive? then Positive(padded) else Negative(padded)];
        }
    }
  }

  lemma ExpandNext(records: seq<Record>, i: nat, e: Row -> seq<Row>)
    requires i < |records|
    ensures Expand(records[..i + 1], e) == Expand(records[..i], e) + Resign(records[i], e(records[i].row))
  {
    assert records[..i + 1][..i] == records[..i];
  }

  lemma UnknownNext(op: JoinOp, fromLeft: bool, other: MemoryState, records: seq<Record>, i: nat)
    requires i < |records|
    ensures UnknownKeys(op, fromLeft, other, records[..i + 1]) ==
            UnknownKeys(op, fromLeft, other, records[..i]) +
            if Lookup(other, OurKey(op, fromLeft, records[i].row)).Missing? then [OurKey(op, fromLeft, records[i].row)]
            else []
  {
    assert records[..i + 1][..i] == records[..i];
  }

  /** What a row contributes: it and each row stored under its key, shown column by column; or, for a left join's
      left row without any, it and NULLs. */
  ghost predicate Contributes(op: JoinOp, fromLeft: bool, other: MemoryState, row: Row, x: Row) {
    match Lookup(other, OurKey(op, fromLeft, row))
    case Found(rows) =>
      exists j :: 0 <= j < |rows| && if fromLeft then IsPair(op, row, rows[j], x) else IsPair(op, rows[j], row, x)
    case _ => op.joinType.Left? && fromLeft && IsPadded(op, row, x)
  }

  lemma ContributesExactly(op: JoinOp, fromLeft: bool, other: MemoryState, row: Row, x: Row)
    ensures x in Matches(op, fromLeft, other, row) <==> Contributes(op, fromLeft, other, row, x)
  {
    match Lookup(other, OurKey(op, fromLeft, row))
    case Found(rows) =>
      FlatMapRow(rows, Beside(op, fromLeft, row), x);
      forall j | 0 <= j < |rows|
        ensures x in Beside(op, fromLeft, row)(rows[j]) <==>
                if fromLeft then IsPair(op, row, rows[j], x) else IsPair(op, rows[j], row, x)
      {
        CombineExactly(op, row, rows[j], x);
        CombineExactly(op, rows[j], row, x);
      }
    case _ => PadExactly(op, row, x);
  }

  /** The output has a record exactly if some record of the same sign contributes it. */
  lemma JoinRecords(op: JoinOp, fromLeft: bool, records: seq<Record>, other: MemoryState, out: Record)
    ensures out in Expand(records, JoinStep(op, fromLeft, other)) <==>
            exists i :: 0 <= i < |records| && SameSign(records[i], out) &&
                        Contributes(op, fromLeft, other, records[i].row, out.row)
  {
    ExpandRecord(records, JoinStep(op, fromLeft, other), out);
    forall i | 0 <= i < |records|
      ensures out.row in JoinStep(op, fromLeft, other)(records[i].row) <==>
              Contributes(op, fromLeft, other, records[i].row, out.row)
    {
      ContributesExactly(op, fromLeft, other, records[i].row, out.row);
    }
  }

  method ProcessJoin(op: JoinOp, fromLeft: bool, records: seq<Record>, state: Option<MemoryState>)
    returns (results: seq<Record>, lookupsNeeded: seq<Row>)
    ensures state.None? ==> results == [] && lookupsNeeded == []
    ensures state.Some? ==>
              forall out :: out in results <==>
                exists i :: 0 <= i < |records| && SameSign(records[i], out) &&
                            Contributes(op, fromLeft, state.value, records[i].row, out.row)
    ensures state.Some? ==> results == Expand(records, JoinStep(op, fromLeft, state.value))
    ensures state.Some? ==> lookupsNeeded == UnknownKeys(op, fromLeft, state.value, records)
    ensures state.Some? ==>
              forall key :: key in lookupsNeeded <==>
                key !in state.value.data &&
                exists i :: 0 <= i < |records| && OurKey(op, fromLeft, records[i].row) == key
  {
    results, lookupsNeeded := [], [];
    if state.None? { return; }
    ghost var e := JoinStep(op, fromLeft, state.value);
    for i := 0 to |records|
      invariant results == Expand(records[..i], e)
      invariant lookupsNeeded == UnknownKeys(op, fromLeft, state.value, records[..i])
    {
      var joined := JoinLookup(op, fromLeft, records[i], state.value);
      results := results + joined;
      assert results == Expand(records[..i + 1], e) by { ExpandNext(records, i, e); }
      var key := OurKey(op, fromLeft, records[i].row);
      UnknownNext(op, fromLeft, state.value, records, i);
      if Lookup(state.value, key).Missing? {
        lookupsNeeded := lookupsNeeded + [key];
      }
    }
    assert records[..|records|] == records;
    forall out
      ensures out in results <==>
              exists i :: 0 <= i < |records| && SameSign(records[i], out) &&
                          Contributes(op, fromLeft, state.value, records[i].row, out.row)
    {
      JoinRecords(op, fromLeft, records, state.value, out);
    }
    forall key
      ensures key in lookupsNeeded <==>
              key !in state.value.data && exists i :: 0 <= i < |records| && OurKey(op, fromLeft, records[i].row) == key
    {
      UnknownExactly(op, fromLeft, state.value, records, key);
    }
  }

  // ---------------------------------------------------------------------------
  // The joins as queries
  // ---------------------------------------------------------------------------

  function PairOf(op: JoinOp, left: Row, right: Row): seq<Row> {
    if Column(left, op.leftKey) == Column(right, op.rightKey) then [Combine(op, left, right)] else []
  }

  function Pair(op: JoinOp, left: Row): Row -> seq<Row> {
    right => PairOf(op, left, right)
  }

  function PairRight(op: JoinOp, right: Row): Row -> seq<Row> {
    left => PairOf(op, left, right)
  }

  function InnerStep(op: JoinOp, rights: seq<Row>): Row -> seq<Row> {
    left => FlatMap(rights, Pair(op, left))
  }

  function InnerStepRight(op: JoinOp, lefts: seq<Row>): Row -> seq<Row> {
    right => FlatMap(lefts, PairRight(op, right))
  }

  function LeftRows(op: JoinOp, rights: seq<Row>, left: Row): seq<Row> {
    var pairs := FlatMap(rights, Pair(op, left));
    if pairs == [] then [PadRight(op, left)] else pairs
  }

  function LeftStep(op: JoinOp, rights: seq<Row>): Row -> seq<Row> {
    left => LeftRows(op, rights, left)
  }

  function RightRows(op: JoinOp, lefts: seq<Row>, right: Row): seq<Row> {
    var pairs := FlatMap(lefts, PairRight(op, right));
    if pairs == [] then [PadLeft(op, right)] else pairs
  }

  function RightStep(op: JoinOp, lefts: seq<Row>): Row -> seq<Row> {
    right => RightRows(op, lefts, right)
  }

  /** Nested loops over both tables. */
  function InnerJoin(op: JoinOp, lefts: seq<Row>, rights: seq<Row>): seq<Row> {
    FlatMap(lefts, InnerStep(op, rights))
  }

  function LeftJoin(op: JoinOp, lefts: seq<Row>, rights: seq<Row>): seq<Row> {
    FlatMap(lefts, LeftStep(op, rights))
  }

  function RightJoin(op: JoinOp, lefts: seq<Row>, rights: seq<Row>): seq<Row> {
    FlatMap(rights, RightStep(op, lefts))
  }

  /** The NULL-padded rows a left join adds for its unmatched left rows. */
  function PadOf(op: JoinOp, rights: seq<Row>, left: Row): seq<Row> {
    if FlatMap(rights, Pair(op, left)) == [] then [PadRight(op, left)] else []
  }

  function PadStep(op: JoinOp, rights: seq<Row>): Row -> seq<Row> {
    left => PadOf(op, rights, left)
  }

  function Padding(op: JoinOp, lefts: seq<Row>, rights: seq<Row>): seq<Row> {
    FlatMap(lefts, PadStep(op, rights))
  }

  /** The rows of an inner join: a left and a right row with equal keys, shown side by side. */
  lemma InnerRow(op: JoinOp, lefts: seq<Row>, rights: seq<Row>, x: Row)
    ensures x in InnerJoin(op, lefts, rights) <==>
            exists i, j :: 0 <= i < |lefts| && 0 <= j < |rights| &&
                           SameKey(op, lefts[i], rights[j]) && IsPair(op, lefts[i], rights[j], x)
  {
    FlatMapRow(lefts, InnerStep(op, rights), x);
    forall i | 0 <= i < |lefts|
      ensures x in InnerStep(op, rights)(lefts[i]) <==>
              exists j :: 0 <= j < |rights| && SameKey(op, lefts[i], rights[j]) && IsPair(op, lefts[i], rights[j], x)
    {
      PairsOf(op, lefts[i], rights, x);
    }
  }

  lemma PairsOf(op: JoinOp, left: Row, rights: seq<Row>, x: Row)
    ensures x in FlatMap(rights, Pair(op, left)) <==>
            exists j :: 0 <= j < |rights| && SameKey(op, left, rights[j]) && IsPair(op, left, rights[j], x)
  {
    FlatMapRow(rights, Pair(op, left), x);
    forall j | 0 <= j < |rights| ensures Combine(op, left, rights[j]) == x <==> IsPair(op, left, rights[j], x) {
      CombineExactly(op, left, rights[j], x);
    }
  }

  /** Those of a left join: these, and a left row without partner next to NULLs. */
  lemma LeftRow(op: JoinOp, lefts: seq<Row>, rights: seq<Row>, x: Row)
    ensures x in LeftJoin(op, lefts, rights) <==>
            exists i :: 0 <= i < |lefts| && LeftShows(op, lefts[i], rights, x)
  {
    FlatMapRow(lefts, LeftStep(op, rights), x);
    forall i | 0 <= i < |lefts| ensures x in LeftStep(op, rights)(lefts[i]) <==> LeftShows(op, lefts[i], rights, x) {
      PairsOf(op, lefts[i], rights, x);
      PadExactly(op, lefts[i], x);
      Partners(op, lefts[i], rights);
    }
  }

  /** What a left join shows for one left row. */
  ghost predicate LeftShows(op: JoinOp, left: Row, rights: seq<Row>, x: Row) {
    if HasPartner(op, left, rights)
    then exists j :: 0 <= j < |rights| && SameKey(op, left, rights[j]) && IsPair(op, left, rights[j], x)
    else IsPadded(op, left, x)
  }

  ghost predicate HasPartner(op: JoinOp, left: Row, rights: seq<Row>) {
    exists j :: 0 <= j < |rights| && SameKey(op, left, rights[j])
  }

  lemma {:induction false} Partners(op: JoinOp, left: Row, rights: seq<Row>)
    ensures FlatMap(rights, Pair(op, left)) != [] <==> HasPartner(op, left, rights)
  {
    if rights != [] {
      var front, last := rights[..|rights| - 1], rights[|rights| - 1];
      Partners(op, left, front);
      assert forall j :: 0 <= j < |front| ==> front[j] == rights[j];
      if SameKey(op, left, last) { assert SameKey(op, left, rights[|rights| - 1]); }
    }
  }

  lemma {:induction false} JoinAddRight(op: JoinOp, lefts: seq<Row>, left: Row, rights: seq<Row>)
    ensures multiset(FlatMap(rights, InnerStepRight(op, lefts + [left]))) ==
            multiset(FlatMap(rights, InnerStepRight(op, lefts))) + multiset(FlatMap(rights, Pair(op, left)))
  {
    if rights != [] {
      JoinAddRight(op, lefts, left, rights[..|rights| - 1]);
      assert (lefts + [left])[..|lefts|] == lefts;
    }
  }

  /** It does not matter which side drives the loop. */
  lemma {:induction false} JoinSymmetric(op: JoinOp, lefts: seq<Row>, rights: seq<Row>)
    ensures multiset(InnerJoin(op, lefts, rights)) == multiset(FlatMap(rights, InnerStepRight(op, lefts)))
  {
    if lefts == [] {
      NoPairs(op, rights);
    } else {
      var init, left := lefts[..|lefts| - 1], lefts[|lefts| - 1];
      assert lefts == init + [left];
      JoinSymmetric(op, init, rights);
      JoinAddRight(op, init, left, rights);
    }
  }

  lemma {:induction false} NoPairs(op: JoinOp, rights: seq<Row>)
    ensures FlatMap(rights, InnerStepRight(op, [])) == []
  {
    if rights != [] { NoPairs(op, rights[..|rights| - 1]); }
  }

  lemma {:induction false} SelectThenCombine(op: JoinOp, left: Row, rights: seq<Row>)
    ensures FlatMap(RowsWith(rights, [op.rightKey], OurKey(op, true, left)), Beside(op, true, left)) ==
            FlatMap(rights, Pair(op, left))
  {
    if rights != [] {
      var n := |rights| - 1;
      SelectThenCombine(op, left, rights[..n]);
      var kept := RowsWith(rights[..n], [op.rightKey], OurKey(op, true, left));
      assert Columns(rights[n], [op.rightKey]) == [Column(rights[n], op.rightKey)];
      if Column(left, op.leftKey) == Column(rights[n], op.rightKey) {
        assert RowsWith(rights, [op.rightKey], OurKey(op, true, left)) == kept + [rights[n]];
        assert (kept + [rights[n]])[..|kept|] == kept;
      } else {
        assert Columns(rights[n], [op.rightKey])[0] != OurKey(op, true, left)[0];
        assert RowsWith(rights, [op.rightKey], OurKey(op, true, left)) == kept;
      }
    }
  }

  lemma {:induction false} SelectThenCombineRight(op: JoinOp, right: Row, lefts: seq<Row>)
    ensures FlatMap(RowsWith(lefts, [op.leftKey], OurKey(op, false, right)), Beside(op, false, right)) ==
            FlatMap(lefts, PairRight(op, right))
  {
    if lefts != [] {
      var n := |lefts| - 1;
      SelectThenCombineRight(op, right, lefts[..n]);
      var kept := RowsWith(lefts[..n], [op.leftKey], OurKey(op, false, right));
      assert Columns(lefts[n], [op.leftKey]) == [Column(lefts[n], op.leftKey)];
      if Column(lefts[n], op.leftKey) == Column(right, op.rightKey) {
        assert RowsWith(lefts, [op.leftKey], OurKey(op, false, right)) == kept + [lefts[n]];
        assert (kept + [lefts[n]])[..|kept|] == kept;
      } else {
        assert Columns(lefts[n], [op.leftKey])[0] != OurKey(op, false, right)[0];
        assert RowsWith(lefts, [op.leftKey], OurKey(op, false, right)) == kept;
      }
    }
  }

  lemma FlatMapPermuted(a: seq<Row>, b: seq<Row>, e: Row -> seq<Row>)
    requires multiset(a) == multiset(b)
    ensures multiset(FlatMap(a, e)) == multiset(FlatMap(b, e))
  {
    forall r ensures Net(Plus(a), r) == Net(Plus(b), r) {
      NetOfPlus(a, r);
      NetOfPlus(b, r);
    }
    forall r ensures multiset(FlatMap(a, e))[r] == multiset(FlatMap(b, e))[r] {
      CountFlatMap(a, e, r);
      CountFlatMap(b, e, r);
      SameNetTotal(Plus(a), Plus(b), Occurs(e, r));
    }
  }

  lemma FlatMapBesideEmpty(op: JoinOp, fromLeft: bool, row: Row, rows: seq<Row>)
    ensures FlatMap(rows, Beside(op, fromLeft, row)) == [] <==> rows == []
  {
  }

  /** A left record joins, through the right side's state, with the rows nested loops would find. */
  lemma JoinStepFromLeft(op: JoinOp, other: MemoryState, rights: seq<Row>)
    requires Holds(other, rights) && other.keyColumns == [op.rightKey]
    ensures op.joinType.Left? ==> Alike(JoinStep(op, true, other), LeftStep(op, rights))
    ensures !op.joinType.Left? ==> Alike(JoinStep(op, true, other), InnerStep(op, rights))
  {
    forall x
      ensures multiset(JoinStep(op, true, other)(x)) ==
              multiset(if op.joinType.Left? then LeftStep(op, rights)(x) else InnerStep(op, rights)(x))
    {
      LeftRowJoins(op, other, rights, x);
    }
  }

  lemma LeftRowJoins(op: JoinOp, other: MemoryState, rights: seq<Row>, x: Row)
    requires Holds(other, rights) && other.keyColumns == [op.rightKey]
    ensures multiset(JoinStep(op, true, other)(x)) ==
            multiset(if op.joinType.Left? then LeftStep(op, rights)(x) else InnerStep(op, rights)(x))
  {
    LeftPartners(op, other, rights, x);
    var found := Lookup(other, OurKey(op, true, x));
    var pairs := FlatMap(rights, Pair(op, x));
    assert JoinStep(op, true, other)(x) ==
           if found.Found? then FlatMap(found.rows, Beside(op, true, x))
           else if op.joinType.Left? then [PadRight(op, x)] else [];
    assert LeftStep(op, rights)(x) == if pairs == [] then [PadRight(op, x)] else pairs;
  }

  lemma LeftPartners(op: JoinOp, other: MemoryState, rights: seq<Row>, x: Row)
    requires Holds(other, rights) && other.keyColumns == [op.rightKey]
    ensures var found, pairs := Lookup(other, OurKey(op, true, x)), FlatMap(rights, Pair(op, x));
            && (found.Found? <==> pairs != [])
            && (found.Found? ==> multiset(FlatMap(found.rows, Beside(op, true, x))) == multiset(pairs))
  {
    var key := OurKey(op, true, x);
    var partners := RowsWith(rights, [op.rightKey], key);
    LookupIsSelection(other, rights, key);
    SelectThenCombine(op, x, rights);
    FlatMapBesideEmpty(op, true, x, partners);
    if Lookup(other, key).Found? {
      FlatMapPermuted(Lookup(other, key).rows, partners, Beside(op, true, x));
    }
  }

  lemma JoinStepFromRight(op: JoinOp, other: MemoryState, lefts: seq<Row>)
    requires Holds(other, lefts) && other.keyColumns == [op.leftKey]
    ensures Alike(JoinStep(op, false, other), InnerStepRight(op, lefts))
  {
    forall x
      ensures multiset(JoinStep(op, false, other)(x)) == multiset(InnerStepRight(op, lefts)(x))
    {
      var key := OurKey(op, false, x);
      LookupIsSelection(other, lefts, key);
      SelectThenCombineRight(op, x, lefts);
      if Lookup(other, key).Found? {
        FlatMapPermuted(Lookup(other, key).rows, RowsWith(lefts, [op.leftKey], key), Beside(op, false, x));
      }
    }
  }

  /** A delta on the left maintains the inner join. */
  lemma InnerJoinLeftDelta(op: JoinOp, before: seq<Row>, d: seq<Record>, after: seq<Row>, other: MemoryState,
                           rights: seq<Row>)
    requires !op.joinType.Left? && Holds(other, rights) && other.keyColumns == [op.rightKey]
    requires Moves(before, d, after) && Applicable(before, d)
    ensures Moves(InnerJoin(op, before, rights), Expand(d, JoinStep(op, true, other)), InnerJoin(op, after, rights))
    ensures Applicable(InnerJoin(op, before, rights), Expand(d, JoinStep(op, true, other)))
  {
    JoinStepFromLeft(op, other, rights);
    LinearMoves(before, d, after, JoinStep(op, true, other), InnerStep(op, rights));
    LinearApplicable(before, d, JoinStep(op, true, other), InnerStep(op, rights));
  }

  /** A delta on the right maintains the inner join. */
  lemma InnerJoinRightDelta(op: JoinOp, before: seq<Row>, d: seq<Record>, after: seq<Row>, other: MemoryState,
                            lefts: seq<Row>)
    requires Holds(other, lefts) && other.keyColumns == [op.leftKey]
    requires Moves(before, d, after) && Applicable(before, d)
    ensures Moves(InnerJoin(op, lefts, before), Expand(d, JoinStep(op, false, other)), InnerJoin(op, lefts, after))
    ensures Applicable(InnerJoin(op, lefts, before), Expand(d, JoinStep(op, false, other)))
  {
    JoinStepFromRight(op, other, lefts);
    var e, f := JoinStep(op, false, other), InnerStepRight(op, lefts);
    LinearMoves(before, d, after, e, f);
    LinearApplicable(before, d, e, f);
    JoinSymmetric(op, lefts, before);
    JoinSymmetric(op, lefts, after);
    MovesPermuted(FlatMap(before, f), InnerJoin(op, lefts, before), Expand(d, e),
                  FlatMap(after, f), InnerJoin(op, lefts, after));
    ApplicablePermuted(FlatMap(before, f), InnerJoin(op, lefts, before), Expand(d, e));
  }

  /** A delta on the left maintains the left join too. */
  lemma LeftJoinLeftDelta(op: JoinOp, before: seq<Row>, d: seq<Record>, after: seq<Row>, other: MemoryState,
                          rights: seq<Row>)
    requires op.joinType.Left? && Holds(other, rights) && other.keyColumns == [op.rightKey]
    requires Moves(before, d, after) && Applicable(before, d)
    ensures Moves(LeftJoin(op, before, rights), Expand(d, JoinStep(op, true, other)), LeftJoin(op, after, rights))
    ensures Applicable(LeftJoin(op, before, rights), Expand(d, JoinStep(op, true, other)))
  {
    JoinStepFromLeft(op, other, rights);
    LinearMoves(before, d, after, JoinStep(op, true, other), LeftStep(op, rights));
    LinearApplicable(before, d, JoinStep(op, true, other), LeftStep(op, rights));
  }

  lemma {:induction false} LeftJoinSplits(op: JoinOp, lefts: seq<Row>, rights: seq<Row>)
    ensures multiset(LeftJoin(op, lefts, rights)) ==
            multiset(InnerJoin(op, lefts, rights)) + multiset(Padding(op, lefts, rights))
  {
    if lefts != [] { LeftJoinSplits(op, lefts[..|lefts| - 1], rights); }
  }

  /** A delta that leads from `x` to `y` leads from `x + p` to `y + q` exactly when `p` and `q` agree. */
  lemma MovesBeside(x: seq<Row>, p: seq<Row>, u: seq<Row>, d: seq<Record>, y: seq<Row>, q: seq<Row>, v: seq<Row>)
    requires multiset(u) == multiset(x) + multiset(p) && multiset(v) == multiset(y) + multiset(q)
    requires Moves(x, d, y)
    ensures Moves(u, d, v) <==> multiset(p) == multiset(q)
  {
    forall r
      ensures Net(Plus(v), r) == Net(Plus(u) + d, r) <==> multiset(p)[r] == multiset(q)[r]
    {
      assert Net(Plus(y), r) == Net(Plus(x) + d, r);
      NetPermuted(x, x, d, r);
      NetPermuted(u, u, d, r);
      NetOfPlus(y, r);
      NetOfPlus(v, r);
    }
    if multiset(p) != multiset(q) {
      var r :| multiset(p)[r] != multiset(q)[r];
      assert Net(Plus(v), r) != Net(Plus(u) + d, r);
    }
  }

  /** A delta on the right maintains a left join exactly when it leaves the NULL-padded rows alone:
      the operator never adds or retracts them then. */
  lemma LeftJoinRightDelta(op: JoinOp, before: seq<Row>, d: seq<Record>, after: seq<Row>, other: MemoryState,
                           lefts: seq<Row>)
    requires Holds(other, lefts) && other.keyColumns == [op.leftKey]
    requires Moves(before, d, after) && Applicable(before, d)
    ensures Moves(LeftJoin(op, lefts, before), Expand(d, JoinStep(op, false, other)), LeftJoin(op, lefts, after))
            <==> multiset(Padding(op, lefts, before)) == multiset(Padding(op, lefts, after))
  {
    InnerJoinRightDelta(op, before, d, after, other, lefts);
    LeftJoinSplits(op, lefts, before);
    LeftJoinSplits(op, lefts, after);
    MovesBeside(InnerJoin(op, lefts, before), Padding(op, lefts, before), LeftJoin(op, lefts, before),
                Expand(d, JoinStep(op, false, other)),
                InnerJoin(op, lefts, after), Padding(op, lefts, after), LeftJoin(op, lefts, after));
  }

  lemma OnePadding(op: JoinOp, left: Row, rights: seq<Row>)
    ensures Padding(op, [left], rights) == PadStep(op, rights)(left)
  {
    var none: seq<Row> := [];
    assert [left][..0] == none;
    assert FlatMap(none, PadStep(op, rights)) == [];
  }

  /** The first partner of a left row leaves its NULL-padded row behind. */
  lemma LeftJoinKeepsStalePadding(op: JoinOp, left: Row, right: Row, other: MemoryState)
    requires Column(left, op.leftKey) == Column(right, op.rightKey)
    requires Holds(other, [left]) && other.keyColumns == [op.leftKey]
    ensures !Moves(LeftJoin(op, [left], []), Expand([Positive(right)], JoinStep(op, false, other)),
                   LeftJoin(op, [left], [right]))
  {
    InsertIsApplicable(right);
    LeftJoinRightDelta(op, [], [Positive(right)], [right], other, [left]);
    OnePadding(op, left, []);
    OnePadding(op, left, [right]);
    assert FlatMap([right], Pair(op, left)) == FlatMap([], Pair(op, left)) + [Combine(op, left, right)] by {
      assert [right][..0] == [];
    }
    assert multiset([PadRight(op, left)]) != multiset([]);
  }

  /** The NULL-padded rows a right join adds for its unmatched right rows. */
  function PadLeftOf(op: JoinOp, lefts: seq<Row>, right: Row): seq<Row> {
    if FlatMap(lefts, PairRight(op, right)) == [] then [PadLeft(op, right)] else []
  }

  function PadLeftStep(op: JoinOp, lefts: seq<Row>): Row -> seq<Row> {
    right => PadLeftOf(op, lefts, right)
  }

  lemma {:induction false} RightJoinSplits(op: JoinOp, lefts: seq<Row>, rights: seq<Row>)
    ensures multiset(RightJoin(op, lefts, rights)) ==
            multiset(FlatMap(rights, InnerStepRight(op, lefts))) + multiset(FlatMap(rights, PadLeftStep(op, lefts)))
  {
    if rights != [] { RightJoinSplits(op, lefts, rights[..|rights| - 1]); }
  }

  lemma {:induction false} FlatMapEmpty(rows: seq<Row>, e: Row -> seq<Row>)
    ensures FlatMap(rows, e) == [] <==> forall x :: x in rows ==> e(x) == []
  {
    if rows != [] {
      var init, last := rows[..|rows| - 1], rows[|rows| - 1];
      FlatMapEmpty(init, e);
      assert rows == init + [last];
      assert |FlatMap(rows, e)| == |FlatMap(init, e)| + |e(last)|;
    }
  }

  /** A right join is run as an inner join, which is right exactly when every right row has a partner. */
  lemma RightJoinIsInner(op: JoinOp, lefts: seq<Row>, rights: seq<Row>)
    ensures multiset(InnerJoin(op, lefts, rights)) == multiset(RightJoin(op, lefts, rights)) <==>
            forall right :: right in rights ==> FlatMap(lefts, PairRight(op, right)) != []
  {
    JoinSymmetric(op, lefts, rights);
    RightJoinSplits(op, lefts, rights);
    FlatMapEmpty(rights, PadLeftStep(op, lefts));
    var pad := FlatMap(rights, PadLeftStep(op, lefts));
    assert |multiset(pad)| == |pad|;
  }

  // ---------------------------------------------------------------------------
  // What the operator maintains
  // ---------------------------------------------------------------------------

  /** A left join is maintained as such, a right join like an inner one. */
  function Maintained(op: JoinOp, lefts: seq<Row>, rights: seq<Row>): seq<Row> {
    if op.joinType.Left? then LeftJoin(op, lefts, rights) else InnerJoin(op, lefts, rights)
  }

  lemma ApplicableBeside(x: seq<Row>, p: seq<Row>, u: seq<Row>, d: seq<Record>)
    requires multiset(u) == multiset(x) + multiset(p) && Applicable(x, d)
    ensures Applicable(u, d)
  {
    forall j | 0 <= j <= |d| ensures NonNegative(Plus(u) + d[..j]) {
      assert NonNegative(Plus(x) + d[..j]);
      forall r ensures Net(Plus(u) + d[..j], r) >= 0 {
        assert Net(Plus(x) + d[..j], r) >= 0;
        NetPermuted(x, x, d[..j], r);
        NetPermuted(u, u, d[..j], r);
      }
    }
  }

  lemma MaintainedLeftDelta(op: JoinOp, before: seq<Row>, d: seq<Record>, after: seq<Row>, other: MemoryState,
                            rights: seq<Row>)
    requires Holds(other, rights) && other.keyColumns == [op.rightKey]
    requires Moves(before, d, after) && Applicable(before, d)
    ensures Moves(Maintained(op, before, rights), Expand(d, JoinStep(op, true, other)), Maintained(op, after, rights))
    ensures Applicable(Maintained(op, before, rights), Expand(d, JoinStep(op, true, other)))
  {
    if op.joinType.Left? {
      LeftJoinLeftDelta(op, before, d, after, other, rights);
    } else {
      InnerJoinLeftDelta(op, before, d, after, other, rights);
    }
  }

  lemma MaintainedRightDelta(op: JoinOp, before: seq<Row>, d: seq<Record>, after: seq<Row>, other: MemoryState,
                             lefts: seq<Row>)
    requires Holds(other, lefts) && other.keyColumns == [op.leftKey]
    requires Moves(before, d, after) && Applicable(before, d)
    requires op.joinType.Left? ==> multiset(Padding(op, lefts, before)) == multiset(Padding(op, lefts, after))
    ensures Moves(Maintained(op, lefts, before), Expand(d, JoinStep(op, false, other)), Maintained(op, lefts, after))
    ensures Applicable(Maintained(op, lefts, before), Expand(d, JoinStep(op, false, other)))
  {
    InnerJoinRightDelta(op, before, d, after, other, lefts);
    if op.joinType.Left? {
      LeftJoinRightDelta(op, before, d, after, other, lefts);
      LeftJoinSplits(op, lefts, before);
      ApplicableBeside(InnerJoin(op, lefts, before), Padding(op, lefts, before), LeftJoin(op, lefts, before),
                       Expand(d, JoinStep(op, false, other)));
    }
  }

  lemma InnerPermuted(op: JoinOp, l: seq<Row>, r: seq<Row>, l': seq<Row>, r': seq<Row>)
    requires multiset(l) == multiset(l') && multiset(r) == multiset(r')
    ensures multiset(InnerJoin(op, l, r)) == multiset(InnerJoin(op, l', r'))
  {
    FlatMapPermuted(l, l', InnerStep(op, r));
    JoinSymmetric(op, l', r);
    JoinSymmetric(op, l', r');
    FlatMapPermuted(r, r', InnerStepRight(op, l'));
  }

  lemma PaddingPermuted(op: JoinOp, l: seq<Row>, r: seq<Row>, l': seq<Row>, r': seq<Row>)
    requires multiset(l) == multiset(l') && multiset(r) == multiset(r')
    ensures multiset(Padding(op, l, r)) == multiset(Padding(op, l', r'))
  {
    FlatMapPermuted(l, l', PadStep(op, r));
    forall x ensures PadStep(op, r)(x) == PadStep(op, r')(x) {
      FlatMapPermuted(r, r', Pair(op, x));
      assert |multiset(FlatMap(r, Pair(op, x)))| == |FlatMap(r, Pair(op, x))|;
      assert |multiset(FlatMap(r', Pair(op, x)))| == |FlatMap(r', Pair(op, x))|;
    }
    FlatMapSame(l', PadStep(op, r), PadStep(op, r'));
  }

  lemma {:induction false} FlatMapSame(rows: seq<Row>, e: Row -> seq<Row>, f: Row -> seq<Row>)
    requires forall x :: e(x) == f(x)
    ensures FlatMap(rows, e) == FlatMap(rows, f)
  {
    if rows != [] { FlatMapSame(rows[..|rows| - 1], e, f); }
  }

  /** Only the bags of the inputs matter. */
  lemma MaintainedPermuted(op: JoinOp, l: seq<Row>, r: seq<Row>, l': seq<Row>, r': seq<Row>)
    requires multiset(l) == multiset(l') && multiset(r) == multiset(r')
    ensures multiset(Maintained(op, l, r)) == multiset(Maintained(op, l', r'))
  {
    InnerPermuted(op, l, r, l', r');
    if op.joinType.Left? {
      PaddingPermuted(op, l, r, l', r');
      LeftJoinSplits(op, l, r);
      LeftJoinSplits(op, l', r');
    }
  }
}
