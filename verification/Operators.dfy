/** Dataflow operators: what each emits for a delta, and the query each one maintains. */
module Operators {
  import opened Values
  import opened ZSets
  import opened MemoryStates

  // ---------------------------------------------------------------------------
  // Operators that send every row to a list of rows, keeping its sign
  // ---------------------------------------------------------------------------

  function Resign(rec: Record, rows: seq<Row>): (h: seq<Record>)
    ensures |h| == |rows|
  {
    seq(|rows|, i requires 0 <= i < |rows| =>
      if rec.Positive? then Positive(rows[i]) else Negative(rows[i]))
  }

  /** The delta form: each record becomes records of the same sign. */
  function Expand(d: seq<Record>, e: Row -> seq<Row>): seq<Record> {
    if d == [] then []
    else Expand(d[..|d| - 1], e) + Resign(d[|d| - 1], e(d[|d| - 1].row))
  }

  /** The query form on a whole table. */
  function FlatMap(rows: seq<Row>, e: Row -> seq<Row>): seq<Row> {
    if rows == [] then []
    else FlatMap(rows[..|rows| - 1], e) + e(rows[|rows| - 1])
  }

  /** A row of the query comes from some row of the table. */
  lemma {:induction false} FlatMapRow(rows: seq<Row>, e: Row -> seq<Row>, x: Row)
    ensures x in FlatMap(rows, e) <==> exists i :: 0 <= i < |rows| && x in e(rows[i])
  {
    if rows != [] {
      var front, last := rows[..|rows| - 1], rows[|rows| - 1];
      FlatMapRow(front, e, x);
      assert forall i :: 0 <= i < |front| ==> front[i] == rows[i];
      if x in e(last) { assert x in e(rows[|rows| - 1]); }
    }
  }

  predicate SameSign(a: Record, b: Record) {
    a.Positive? == b.Positive?
  }

  /** A record of the output comes from some record of the delta, of the same sign. */
  lemma {:induction false} ExpandRecord(d: seq<Record>, e: Row -> seq<Row>, out: Record)
    ensures out in Expand(d, e) <==> exists i :: 0 <= i < |d| && SameSign(d[i], out) && out.row in e(d[i].row)
  {
    if d != [] {
      var front, last := d[..|d| - 1], d[|d| - 1];
      ExpandRecord(front, e, out);
      ResignRecord(last, e(last.row), out);
      assert forall i :: 0 <= i < |front| ==> front[i] == d[i];
      if out in Resign(last, e(last.row)) { assert SameSign(d[|d| - 1], out); }
    }
  }

  lemma ResignRecord(rec: Record, rows: seq<Row>, out: Record)
    ensures out in Resign(rec, rows) <==> SameSign(rec, out) && out.row in rows
  {
    if SameSign(rec, out) && out.row in rows {
      var i :| 0 <= i < |rows| && rows[i] == out.row;
      assert Resign(rec, rows)[i] == out;
    }
  }

  ghost function Occurs(e: Row -> seq<Row>, r: Row): Row -> int {
    x => multiset(e(x))[r]
  }

  ghost predicate Alike(e: Row -> seq<Row>, f: Row -> seq<Row>) {
    forall x :: multiset(e(x)) == multiset(f(x))
  }

  lemma NetResign(rec: Record, rows: seq<Row>, r: Row)
    ensures Net(Resign(rec, rows), r) == Signed(rec, multiset(rows)[r])
  {
    NetOfPlus(rows, r);
    if rec.Positive? {
      assert Resign(rec, rows) == Plus(rows);
    } else {
      assert Resign(rec, rows) == Opposite(Plus(rows));
      TotalOpposite(Plus(rows), Is(r));
    }
  }

  lemma {:induction false} NetExpand(d: seq<Record>, e: Row -> seq<Row>, r: Row)
    ensures Net(Expand(d, e), r) == Total(d, Occurs(e, r))
  {
    if d != [] {
      var init, last := d[..|d| - 1], d[|d| - 1];
      NetExpand(init, e, r);
      TotalAppend(Expand(init, e), Resign(last, e(last.row)), Is(r));
      NetResign(last, e(last.row), r);
    }
  }

  lemma {:induction false} CountFlatMap(rows: seq<Row>, e: Row -> seq<Row>, r: Row)
    ensures multiset(FlatMap(rows, e))[r] == Total(Plus(rows), Occurs(e, r))
  {
    if rows != [] {
      assert Plus(rows)[..|rows| - 1] == Plus(rows[..|rows| - 1]);
      CountFlatMap(rows[..|rows| - 1], e, r);
    }
  }

  lemma {:induction false} TotalSame(h: seq<Record>, v: Row -> int, w: Row -> int)
    requires forall x :: v(x) == w(x)
    ensures Total(h, v) == Total(h, w)
  {
    if h != [] { TotalSame(h[..|h| - 1], v, w); }
  }

  /** A signed, row-wise operator turns a change of its input into the change of its output. */
  lemma LinearMoves(before: seq<Row>, d: seq<Record>, after: seq<Row>, e: Row -> seq<Row>, f: Row -> seq<Row>)
    requires Moves(before, d, after) && Alike(e, f)
    ensures Moves(FlatMap(before, f), Expand(d, e), FlatMap(after, f))
  {
    forall r ensures Net(Plus(FlatMap(after, f)), r) == Net(Plus(FlatMap(before, f)) + Expand(d, e), r) {
      NetOfPlus(FlatMap(after, f), r);
      CountFlatMap(after, f, r);
      SameNetTotal(Plus(after), Plus(before) + d, Occurs(f, r));
      TotalAppend(Plus(before), d, Occurs(f, r));
      CountFlatMap(before, f, r);
      NetOfPlus(FlatMap(before, f), r);
      TotalSame(d, Occurs(e, r), Occurs(f, r));
      NetExpand(d, e, r);
      TotalAppend(Plus(FlatMap(before, f)), Expand(d, e), Is(r));
    }
  }

  lemma NonNegativeImage(before: seq<Row>, d: seq<Record>, e: Row -> seq<Row>, f: Row -> seq<Row>)
    requires NonNegative(Plus(before) + d) && Alike(e, f)
    ensures NonNegative(Plus(FlatMap(before, f)) + Expand(d, e))
  {
    var after := Settle(Plus(before) + d);
    forall r ensures Net(Plus(after), r) == Net(Plus(before) + d, r) {
      assert Total(Plus(after), Is(r)) == Total(Plus(before) + d, Is(r));
    }
    LinearMoves(before, d, after, e, f);
    forall r ensures Net(Plus(FlatMap(before, f)) + Expand(d, e), r) >= 0 {
      assert Net(Plus(FlatMap(after, f)), r) == Net(Plus(FlatMap(before, f)) + Expand(d, e), r);
      NetOfPlus(FlatMap(after, f), r);
    }
  }

  /** Between two non-negative points, records of one sign stay non-negative. */
  lemma OneSignBetween(h: seq<Record>, rec: Record, rows: seq<Row>, t: nat)
    requires t <= |rows| && NonNegative(h) && NonNegative(h + Resign(rec, rows))
    ensures NonNegative(h + Resign(rec, rows)[..t])
  {
    assert Resign(rec, rows)[..t] == Resign(rec, rows[..t]);
    assert rows == rows[..t] + rows[t..];
    forall r ensures Net(h + Resign(rec, rows)[..t], r) >= 0 {
      TotalAppend(h, Resign(rec, rows), Is(r));
      TotalAppend(h, Resign(rec, rows[..t]), Is(r));
      NetResign(rec, rows, r);
      NetResign(rec, rows[..t], r);
      assert multiset(rows)[r] == multiset(rows[..t])[r] + multiset(rows[t..])[r];
      assert Net(h, r) >= 0 && Net(h + Resign(rec, rows), r) >= 0;
    }
  }

  /** ... and never asks the node below to remove a row it does not have. */
  lemma {:induction false} LinearApplicable(before: seq<Row>, d: seq<Record>, e: Row -> seq<Row>, f: Row -> seq<Row>)
    requires Applicable(before, d) && Alike(e, f)
    ensures Applicable(FlatMap(before, f), Expand(d, e))
  {
    var rows := Plus(FlatMap(before, f));
    if d == [] {
      assert d[..0] == [];
      NonNegativeImage(before, [], e, f);
    } else {
      var n := |d| - 1;
      var init, last := d[..n], d[n];
      ApplicablePrefix(before, d, n);
      LinearApplicable(before, init, e, f);
      NonNegativeImage(before, init, e, f);
      assert d[..|d|] == d;
      NonNegativeImage(before, d, e, f);
      var x, y := Expand(init, e), Resign(last, e(last.row));
      forall j | 0 <= j <= |x + y| ensures NonNegative(rows + (x + y)[..j]) {
        if j <= |x| {
          assert (x + y)[..j] == x[..j];
        } else {
          assert rows + (x + y)[..j] == (rows + x) + y[..j - |x|];
          assert rows + (x + y) == (rows + x) + y;
          OneSignBetween(rows + x, last, e(last.row), j - |x|);
        }
      }
    }
  }

  // ---------------------------------------------------------------------------
  // Filter and project
  // ---------------------------------------------------------------------------

  function FilterStep(keep: Row -> bool): Row -> seq<Row> {
    x => if keep(x) then [x] else []
  }

  function ProjectStep(emit: seq<nat>): Row -> seq<Row> {
    x => [Columns(x, emit)]
  }

  function IdentityStep(): Row -> seq<Row> {
    x => [x]
  }

  /** A filter's query: the rows that pass, each as often as it is there, and no others. */
  lemma {:induction false} FilterQuery(rows: seq<Row>, keep: Row -> bool, r: Row)
    ensures multiset(FlatMap(rows, FilterStep(keep)))[r] == if keep(r) then multiset(rows)[r] else 0
  {
    if rows != [] {
      var front, last := rows[..|rows| - 1], rows[|rows| - 1];
      assert rows == front + [last];
      FilterQuery(front, keep, r);
    }
  }

  /** A projection's query: row by row, the named columns in the order named. */
  lemma {:induction false} ProjectQuery(rows: seq<Row>, emit: seq<nat>)
    ensures |FlatMap(rows, ProjectStep(emit))| == |rows|
    ensures forall j :: 0 <= j < |rows| ==> ShowsColumns(FlatMap(rows, ProjectStep(emit))[j], rows[j], emit)
  {
    if rows != [] {
      var front, last := rows[..|rows| - 1], rows[|rows| - 1];
      ProjectQuery(front, emit);
      ColumnsExactly(last, emit, Columns(last, emit));
      assert FlatMap(rows, ProjectStep(emit)) == FlatMap(front, ProjectStep(emit)) + [Columns(last, emit)];
    }
  }

  /** `shown` has the named columns of `row`, one by one. */
  predicate ShowsColumns(shown: Row, row: Row, emit: seq<nat>) {
    |shown| == |emit| && forall i :: 0 <= i < |emit| ==> shown[i] == Column(row, emit[i])
  }

  lemma {:induction false} TotalOfNothing(h: seq<Record>, v: Row -> int)
    requires forall x :: v(x) == 0
    ensures Total(h, v) == 0
  {
    if h != [] { TotalOfNothing(h[..|h| - 1], v); }
  }

  lemma FilterOccurs(keep: Row -> bool, r: Row, x: Row)
    ensures Occurs(FilterStep(keep), r)(x) == if keep(r) then Is(r)(x) else 0
  {
  }

  /** What a filter sends: every row that passes with its net count, and no other. */
  lemma FilterNet(records: seq<Record>, keep: Row -> bool, r: Row)
    ensures Net(Expand(records, FilterStep(keep)), r) == if keep(r) then Net(records, r) else 0
  {
    NetExpand(records, FilterStep(keep), r);
    forall x ensures Occurs(FilterStep(keep), r)(x) == if keep(r) then Is(r)(x) else 0 { FilterOccurs(keep, r, x); }
    if keep(r) {
      TotalSame(records, Occurs(FilterStep(keep), r), Is(r));
    } else {
      TotalOfNothing(records, Occurs(FilterStep(keep), r));
    }
  }

  method ProcessFilter(keep: Row -> bool, records: seq<Record>) returns (results: seq<Record>)
    ensures results == Expand(records, FilterStep(keep))
    ensures forall j :: 0 <= j < |results| ==> results[j] in records && keep(results[j].row)
    ensures forall r :: Net(results, r) == if keep(r) then Net(records, r) else 0
  {
    results := [];
    for i := 0 to |records|
      invariant results == Expand(records[..i], FilterStep(keep))
      invariant forall j :: 0 <= j < |results| ==> results[j] in records && keep(results[j].row)
    {
      assert records[..i + 1][..i] == records[..i];
      if keep(records[i].row) {
        assert Resign(records[i], [records[i].row]) == [records[i]];
        results := results + [records[i]];
      }
    }
    assert records[..|records|] == records;
    forall r ensures Net(results, r) == if keep(r) then Net(records, r) else 0 { FilterNet(records, keep, r); }
  }

  /** The same sign, and the named columns in the order named. */
  predicate Projects(result: Record, record: Record, emit: seq<nat>) {
    result.Positive? == record.Positive? && ShowsColumns(result.row, record.row, emit)
  }

  lemma {:induction false} ProjectRecords(records: seq<Record>, emit: seq<nat>)
    ensures |Expand(records, ProjectStep(emit))| == |records|
    ensures forall j :: 0 <= j < |records| ==> Projects(Expand(records, ProjectStep(emit))[j], records[j], emit)
  {
    if records != [] {
      var front, last := records[..|records| - 1], records[|records| - 1];
      ProjectRecords(front, emit);
      ColumnsExactly(last.row, emit, Columns(last.row, emit));
      var out := Resign(last, [Columns(last.row, emit)]);
      assert Expand(records, ProjectStep(emit)) == Expand(front, ProjectStep(emit)) + out;
      assert Projects(out[0], last, emit);
    }
  }

  method ProcessProject(emit: seq<nat>, records: seq<Record>) returns (results: seq<Record>)
    ensures results == Expand(records, ProjectStep(emit))
    ensures |results| == |records| && forall j :: 0 <= j < |records| ==> Projects(results[j], records[j], emit)
  {
    results := [];
    for i := 0 to |records|
      invariant results == Expand(records[..i], ProjectStep(emit))
    {
      assert records[..i + 1][..i] == records[..i];
      var projected := Columns(records[i].row, emit);
      results := results + [if records[i].Positive? then Positive(projected) else Negative(projected)];
    }
    assert records[..|records|] == records;
    ProjectRecords(records, emit);
  }

  method ProcessIdentity(records: seq<Record>) returns (results: seq<Record>)
    ensures results == Expand(records, IdentityStep())
  {
    ExpandIdentity(records);
    results := records;
  }

  lemma {:induction false} ExpandIdentity(records: seq<Record>)
    ensures Expand(records, IdentityStep()) == records
  {
    if records != [] {
      var front, last := records[..|records| - 1], records[|records| - 1];
      ExpandIdentity(front);
      calc {
        Expand(records, IdentityStep());
        Expand(front, IdentityStep()) + Resign(last, [last.row]);
        front + [last];
        records;
      }
    }
  }
}
