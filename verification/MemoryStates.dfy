/** Materialized state of a dataflow node: rows indexed by key columns. */
module MemoryStates {
  import opened Values
  import opened ZSets

  datatype MemoryState = MemoryState(keyColumns: seq<nat>, data: map<Row, seq<Row>>, rowCount: int)

  datatype LookupResult = Found(rows: seq<Row>) | Empty | Missing

  function KeyOf(s: MemoryState, row: Row): Row {
    Columns(row, s.keyColumns)
  }

  /** A delete may carry NULL for columns it does not know. */
  predicate MatchesWithNulls(stored: Row, given: Row) {
    |stored| == |given| &&
    forall i :: 0 <= i < |given| ==> stored[i] == given[i] || given[i] == Null
  }

  /** Index of the first row equal to `row`, or `|rows|`. */
  function Position(rows: seq<Row>, row: Row): (i: nat)
    ensures i <= |rows| && (i < |rows| ==> rows[i] == row)
    ensures i == |rows| <==> row !in rows
  {
    if rows == [] then 0 else if rows[0] == row then 0 else 1 + Position(rows[1..], row)
  }

  function PositionWithNulls(rows: seq<Row>, row: Row): (i: nat)
    ensures i <= |rows| && (i < |rows| ==> MatchesWithNulls(rows[i], row))
    ensures forall j :: 0 <= j < i ==> !MatchesWithNulls(rows[j], row)
  {
    if rows == [] then 0 else if MatchesWithNulls(rows[0], row) then 0 else 1 + PositionWithNulls(rows[1..], row)
  }

  function RemoveAt(rows: seq<Row>, i: nat): seq<Row>
    requires i < |rows|
  {
    rows[..i] + rows[i + 1..]
  }

  /** Replace the rows under `key`; a key without rows is dropped. */
  function Store(s: MemoryState, key: Row, rows: seq<Row>, count: int): (s': MemoryState)
    ensures s'.keyColumns == s.keyColumns && s'.rowCount == count
  {
    s.(data := if rows == [] then s.data - {key} else s.data[key := rows], rowCount := count)
  }

  /** One record: an insert appends, a delete takes the exact row or else the first partial match. */
  function Step(s: MemoryState, rec: Record): (s': MemoryState)
    ensures s'.keyColumns == s.keyColumns
  {
    var key := KeyOf(s, rec.row);
    if rec.Positive? then
      Store(s, key, (if key in s.data then s.data[key] else []) + [rec.row], s.rowCount + 1)
    else if key !in s.data then s
    else
      var rows := s.data[key];
      var exact := Position(rows, rec.row);
      var pos := if exact < |rows| then exact else PositionWithNulls(rows, rec.row);
      if pos < |rows| then Store(s, key, RemoveAt(rows, pos), s.rowCount - 1)
      else Store(s, key, rows, s.rowCount)
  }

  function Steps(s: MemoryState, records: seq<Record>): (s': MemoryState)
    ensures s'.keyColumns == s.keyColumns
  {
    if records == [] then s else Step(Steps(s, records[..|records| - 1]), records[|records| - 1])
  }

  function Lookup(s: MemoryState, key: Row): LookupResult {
    if key !in s.data then Missing
    else if s.data[key] == [] then Empty
    else Found(s.data[key])
  }

  method ProcessRecords(s: MemoryState, records: seq<Record>) returns (s': MemoryState)
    ensures s' == Steps(s, records)
  {
    s' := s;
    for i := 0 to |records|
      invariant s' == Steps(s, records[..i])
    {
      assert records[..i + 1][..i] == records[..i];
      s' := Step(s', records[i]);
    }
    assert records[..|records|] == records;
  }

  ghost predicate Valid(s: MemoryState) {
    forall k :: k in s.data ==>
      s.data[k] != [] && forall i :: 0 <= i < |s.data[k]| ==> KeyOf(s, s.data[k][i]) == k
  }

  ghost function CountOf(s: MemoryState, r: Row): nat {
    if KeyOf(s, r) in s.data then multiset(s.data[KeyOf(s, r)])[r] else 0
  }

  /** The state stores exactly the bag `rows`, each row under its key. */
  ghost predicate Holds(s: MemoryState, rows: seq<Row>) {
    Valid(s) && s.rowCount == |rows| && forall r :: CountOf(s, r) == multiset(rows)[r]
  }

  lemma HoldsEmpty(cols: seq<nat>)
    ensures Holds(MemoryState(cols, map[], 0), [])
  {
  }

  ghost function One(): Row -> int { x => 1 }

  lemma {:induction false} TotalOfOnes(rows: seq<Row>)
    ensures Total(Plus(rows), One()) == |rows|
  {
    if rows != [] {
      assert Plus(rows)[..|rows| - 1] == Plus(rows[..|rows| - 1]);
      TotalOfOnes(rows[..|rows| - 1]);
    }
  }

  lemma MovesOne(before: seq<Row>, rec: Record, after: seq<Row>)
    requires Moves(before, [rec], after)
    ensures |after| == |before| + Signed(rec, 1)
    ensures forall r :: multiset(after)[r] == multiset(before)[r] + Signed(rec, Is(r)(rec.row))
  {
    SameNetTotal(Plus(after), Plus(before) + [rec], One());
    TotalAppend(Plus(before), [rec], One());
    TotalOne(rec, One());
    TotalOfOnes(before);
    TotalOfOnes(after);
    forall r ensures multiset(after)[r] == multiset(before)[r] + Signed(rec, Is(r)(rec.row)) {
      assert Net(Plus(after), r) == Net(Plus(before) + [rec], r);
      TotalAppend(Plus(before), [rec], Is(r));
      TotalOne(rec, Is(r));
      NetOfPlus(before, r);
      NetOfPlus(after, r);
    }
  }

  lemma RemoveAtBag(rows: seq<Row>, i: nat)
    requires i < |rows|
    ensures multiset(RemoveAt(rows, i)) == multiset(rows) - multiset{rows[i]}
  {
    assert rows == rows[..i] + [rows[i]] + rows[i + 1..];
  }

  lemma StoreValid(s: MemoryState, key: Row, rows: seq<Row>, count: int)
    requires Valid(s) && forall i :: 0 <= i < |rows| ==> KeyOf(s, rows[i]) == key
    ensures Valid(Store(s, key, rows, count))
  {
  }

  lemma StoreCount(s: MemoryState, key: Row, rows: seq<Row>, count: int, r: Row)
    ensures CountOf(Store(s, key, rows, count), r) == if KeyOf(s, r) == key then multiset(rows)[r] else CountOf(s, r)
  {
  }

  lemma InsertCounts(s: MemoryState, row: Row)
    requires Valid(s)
    ensures Valid(Step(s, Positive(row)))
    ensures forall r :: CountOf(Step(s, Positive(row)), r) == CountOf(s, r) + Is(r)(row)
  {
  }

  /** A stored row is found as it is, and one copy of it taken. */
  lemma DeleteStep(s: MemoryState, row: Row) returns (left: seq<Row>)
    requires Valid(s) && CountOf(s, row) > 0
    ensures KeyOf(s, row) in s.data && row in s.data[KeyOf(s, row)]
    ensures Step(s, Negative(row)) == Store(s, KeyOf(s, row), left, s.rowCount - 1)
    ensures multiset(left) == multiset(s.data[KeyOf(s, row)]) - multiset{row}
    ensures forall i :: 0 <= i < |left| ==> KeyOf(s, left[i]) == KeyOf(s, row)
  {
    var rows := s.data[KeyOf(s, row)];
    assert row in rows;
    var pos := Position(rows, row);
    left := RemoveAt(rows, pos);
    RemoveAtBag(rows, pos);
    forall i | 0 <= i < |left| ensures KeyOf(s, left[i]) == KeyOf(s, row) {
      assert left[i] == rows[if i < pos then i else i + 1];
    }
  }

  /** Deleting a stored row takes one copy of it and leaves every other row alone. */
  lemma DeleteCounts(s: MemoryState, row: Row)
    requires Valid(s) && CountOf(s, row) > 0
    ensures Valid(Step(s, Negative(row)))
    ensures forall r :: CountOf(Step(s, Negative(row)), r) == CountOf(s, r) - Is(r)(row)
    ensures Step(s, Negative(row)).rowCount == s.rowCount - 1
  {
    var key := KeyOf(s, row);
    var left := DeleteStep(s, row);
    StoreValid(s, key, left, s.rowCount - 1);
    forall r ensures CountOf(Step(s, Negative(row)), r) == CountOf(s, r) - Is(r)(row) {
      StoreCount(s, key, left, s.rowCount - 1, r);
    }
  }

  /** A delete that carries NULL for what it does not know takes the first stored row that agrees with the rest. */
  lemma PartialDelete(s: MemoryState, row: Row, i: nat)
    requires Valid(s) && KeyOf(s, row) in s.data
    requires var rows := s.data[KeyOf(s, row)];
             && row !in rows && i < |rows| && MatchesWithNulls(rows[i], row)
             && forall j :: 0 <= j < i ==> !MatchesWithNulls(rows[j], row)
    ensures var key, rows := KeyOf(s, row), s.data[KeyOf(s, row)];
            && multiset(if key in Step(s, Negative(row)).data then Step(s, Negative(row)).data[key] else []) ==
               multiset(rows) - multiset{rows[i]}
            && Step(s, Negative(row)).rowCount == s.rowCount - 1
            && forall k :: k != key ==> (k in Step(s, Negative(row)).data <==> k in s.data) &&
                                        (k in s.data ==> Step(s, Negative(row)).data[k] == s.data[k])
  {
    var rows := s.data[KeyOf(s, row)];
    RemoveAtBag(rows, i);
    FirstMatch(rows, row, i);
    StoredUnder(s, KeyOf(s, row), RemoveAt(rows, i), s.rowCount - 1);
  }

  lemma FirstMatch(rows: seq<Row>, row: Row, i: nat)
    requires i < |rows| && MatchesWithNulls(rows[i], row) && forall j :: 0 <= j < i ==> !MatchesWithNulls(rows[j], row)
    ensures PositionWithNulls(rows, row) == i
  {
  }

  lemma StoredUnder(s: MemoryState, key: Row, rows: seq<Row>, count: int)
    ensures var s' := Store(s, key, rows, count);
            && (if key in s'.data then s'.data[key] else []) == rows
            && forall k :: k != key ==> (k in s'.data <==> k in s.data) && (k in s.data ==> s'.data[k] == s.data[k])
  {
  }

  /** And none, if no row agrees. */
  lemma NothingToDelete(s: MemoryState, row: Row)
    requires Valid(s)
    requires KeyOf(s, row) in s.data ==>
               forall i :: 0 <= i < |s.data[KeyOf(s, row)]| ==> !MatchesWithNulls(s.data[KeyOf(s, row)][i], row)
    ensures Step(s, Negative(row)) == s
  {
    if KeyOf(s, row) in s.data {
      var rows := s.data[KeyOf(s, row)];
      forall i | 0 <= i < |rows| ensures rows[i] != row { assert !MatchesWithNulls(rows[i], row); }
      assert s.data[KeyOf(s, row) := rows] == s.data;
    }
  }

  lemma StepHolds(s: MemoryState, rec: Record, before: seq<Row>, after: seq<Row>)
    requires Holds(s, before) && Moves(before, [rec], after)
    ensures Holds(Step(s, rec), after)
  {
    MovesOne(before, rec, after);
    assert CountOf(s, rec.row) == multiset(before)[rec.row];
    if rec.Positive? {
      InsertCounts(s, rec.row);
    } else {
      assert multiset(after)[rec.row] == multiset(before)[rec.row] - 1;
      DeleteCounts(s, rec.row);
    }
    var s' := Step(s, rec);
    forall r ensures CountOf(s', r) == multiset(after)[r] {
      assert CountOf(s, r) == multiset(before)[r];
    }
  }

  /** On a delta whose deletes carry stored rows, the state does exact bag arithmetic. */
  lemma {:induction false} StepsHolds(s: MemoryState, d: seq<Record>, before: seq<Row>, after: seq<Row>)
    requires Holds(s, before) && Applicable(before, d) && Moves(before, d, after)
    ensures Holds(Steps(s, d), after)
  {
    if d == [] {
      assert Plus(before) + d == Plus(before);
      forall r ensures multiset(after)[r] == multiset(before)[r] {
        assert Net(Plus(after), r) == Net(Plus(before), r);
        NetOfPlus(before, r);
        NetOfPlus(after, r);
      }
      assert multiset(after) == multiset(before);
      assert |multiset(after)| == |after| && |multiset(before)| == |before|;
    } else {
      var init, rec := d[..|d| - 1], d[|d| - 1];
      assert init == d[..|d| - 1];
      var mid := Settle(Plus(before) + init);
      forall r ensures Net(Plus(mid), r) == Net(Plus(before) + init, r) {
        assert Total(Plus(mid), Is(r)) == Total(Plus(before) + init, Is(r));
      }
      ApplicablePrefix(before, d, |d| - 1);
      StepsHolds(s, init, before, mid);
      forall r ensures Net(Plus(after), r) == Net(Plus(mid) + [rec], r) {
        assert Plus(before) + d == (Plus(before) + init) + [rec];
        TotalAppend(Plus(before) + init, [rec], Is(r));
        TotalAppend(Plus(mid), [rec], Is(r));
      }
      StepHolds(Steps(s, init), rec, mid, after);
    }
  }

  lemma ApplicablePrefix(rows: seq<Row>, d: seq<Record>, n: nat)
    requires Applicable(rows, d) && n <= |d|
    ensures Applicable(rows, d[..n])
  {
    forall j | 0 <= j <= n ensures NonNegative(Plus(rows) + d[..n][..j]) {
      assert d[..n][..j] == d[..j];
    }
  }

  /** The rows a lookup by key must return. */
  function RowsWith(rows: seq<Row>, cols: seq<nat>, key: Row): seq<Row> {
    if rows == [] then []
    else RowsWith(rows[..|rows| - 1], cols, key) +
         if Columns(rows[|rows| - 1], cols) == key then [rows[|rows| - 1]] else []
  }

  lemma {:induction false} RowsWithBag(rows: seq<Row>, cols: seq<nat>, key: Row, r: Row)
    ensures multiset(RowsWith(rows, cols, key))[r] == if Columns(r, cols) == key then multiset(rows)[r] else 0
  {
    if rows != [] {
      assert rows == rows[..|rows| - 1] + [rows[|rows| - 1]];
      RowsWithBag(rows[..|rows| - 1], cols, key, r);
    }
  }

  /** Column by column: the rows with these values in these columns, each as often as it is there. */
  lemma RowsWithExactly(rows: seq<Row>, cols: seq<nat>, key: Row, r: Row)
    ensures multiset(RowsWith(rows, cols, key))[r] == if HasValues(r, cols, key) then multiset(rows)[r] else 0
  {
    RowsWithBag(rows, cols, key, r);
    ColumnsExactly(r, cols, key);
  }

  /** A lookup answers `Missing` exactly when no stored row has the key, and otherwise the bag of
      all of them: rows with the key's values in the key columns. */
  lemma LookupIsSelection(s: MemoryState, rows: seq<Row>, key: Row)
    requires Holds(s, rows)
    ensures Lookup(s, key).Missing? <==> RowsWith(rows, s.keyColumns, key) == []
    ensures Lookup(s, key).Found? <==> RowsWith(rows, s.keyColumns, key) != []
    ensures Lookup(s, key).Found? ==>
              multiset(Lookup(s, key).rows) == multiset(RowsWith(rows, s.keyColumns, key))
    ensures Lookup(s, key).Found? ==>
              forall r :: multiset(Lookup(s, key).rows)[r] ==
                          if HasValues(r, s.keyColumns, key) then multiset(rows)[r] else 0
  {
    forall r ensures multiset(RowsWith(rows, s.keyColumns, key))[r] ==
                     if HasValues(r, s.keyColumns, key) then multiset(rows)[r] else 0
    {
      RowsWithExactly(rows, s.keyColumns, key, r);
    }
    var want := RowsWith(rows, s.keyColumns, key);
    var got := if key in s.data then s.data[key] else [];
    forall r ensures multiset(got)[r] == multiset(want)[r] {
      RowsWithBag(rows, s.keyColumns, key, r);
      assert CountOf(s, r) == multiset(rows)[r];
      if KeyOf(s, r) != key {
        assert r !in got;
      }
    }
    assert multiset(got) == multiset(want);
    assert |multiset(got)| == |got| && |multiset(want)| == |want|;
  }
}
