/** The rows of a table as a bag, and the records a captured change is applied as. */
module Tables {
  import opened Values
  import opened ZSets
  import opened MemoryStates
  import C = Capture

  ghost function BagOf(m: C.Content, ks: set<C.Key>): multiset<Row>
    requires ks <= m.Keys
  {
    if ks == {} then multiset{}
    else
      var k :| k in ks;
      multiset{m[k]} + BagOf(m, ks - {k})
  }

  lemma {:induction false} BagTake(m: C.Content, ks: set<C.Key>, k: C.Key)
    requires ks <= m.Keys && k in ks
    ensures BagOf(m, ks) == multiset{m[k]} + BagOf(m, ks - {k})
    decreases |ks|
  {
    var p :| p in ks && BagOf(m, ks) == multiset{m[p]} + BagOf(m, ks - {p});
    if p != k {
      BagTake(m, ks - {p}, k);
      BagTake(m, ks - {k}, p);
      assert ks - {p} - {k} == ks - {k} - {p};
    }
  }

  lemma {:induction false} BagSame(m: C.Content, m': C.Content, ks: set<C.Key>)
    requires ks <= m.Keys && ks <= m'.Keys && forall k :: k in ks ==> m[k] == m'[k]
    ensures BagOf(m, ks) == BagOf(m', ks)
    decreases |ks|
  {
    if ks != {} {
      var k :| k in ks;
      BagTake(m, ks, k);
      BagTake(m', ks, k);
      BagSame(m, m', ks - {k});
    }
  }

  function KeysOf(m: C.Content, table: string): set<C.Key> {
    set k | k in m && k.table == table
  }

  /** The rows of a table, as a bag. */
  ghost function TableBag(m: C.Content, table: string): multiset<Row> {
    BagOf(m, KeysOf(m, table))
  }

  lemma BagAt(m: C.Content, k: C.Key)
    ensures TableBag(m, k.table) == C.Copies(C.Get(m, k)) + BagOf(m, KeysOf(m, k.table) - {k})
  {
    var ks := KeysOf(m, k.table);
    if k in m { BagTake(m, ks, k); } else { assert ks - {k} == ks; }
  }

  /** Putting a row in place of another. */
  lemma BagPut(m: C.Content, k: C.Key, row: Option<Row>)
    ensures C.Copies(C.Get(m, k)) <= TableBag(m, k.table)
    ensures TableBag(C.Put(m, k, row), k.table) == TableBag(m, k.table) - C.Copies(C.Get(m, k)) + C.Copies(row)
  {
    BagAt(m, k);
    BagAt(C.Put(m, k, row), k);
    OthersSame(m, k, row);
  }

  lemma OthersSame(m: C.Content, k: C.Key, row: Option<Row>)
    ensures var m' := C.Put(m, k, row);
            BagOf(m', KeysOf(m', k.table) - {k}) == BagOf(m, KeysOf(m, k.table) - {k})
  {
    var m' := C.Put(m, k, row);
    assert KeysOf(m', k.table) - {k} == KeysOf(m, k.table) - {k};
    BagSame(m, m', KeysOf(m, k.table) - {k});
  }

  lemma BagPutElsewhere(m: C.Content, k: C.Key, row: Option<Row>, table: string)
    requires k.table != table
    ensures TableBag(C.Put(m, k, row), table) == TableBag(m, table)
  {
    assert KeysOf(C.Put(m, k, row), table) == KeysOf(m, table);
    BagSame(m, C.Put(m, k, row), KeysOf(m, table));
  }

  lemma BagRestrict(m: C.Content, tables: set<string>, table: string)
    requires table in tables
    ensures TableBag(C.Restrict(m, tables), table) == TableBag(m, table)
  {
    assert KeysOf(C.Restrict(m, tables), table) == KeysOf(m, table);
    BagSame(m, C.Restrict(m, tables), KeysOf(m, table));
  }

  // ---------------------------------------------------------------------------
  // One change
  // ---------------------------------------------------------------------------

  /** The records an INSERT, DELETE or UPDATE is applied as. */
  function RecordsOf(change: C.Change): seq<Record> {
    (if change.before.Some? then [Negative(change.before.value)] else []) +
    (if change.after.Some? then [Positive(change.after.value)] else [])
  }

  ghost function CopiesOf(row: Option<Row>, r: Row): int {
    if row == Some(r) then 1 else 0
  }

  lemma NetOfOne(rec: Record, r: Row)
    ensures Net([rec], r) == if rec.row != r then 0 else if rec.Positive? then 1 else -1
  {
    assert [rec][..0] == [];
    assert Total([rec], Is(r)) == Total([rec][..0], Is(r)) + Signed(rec, Is(r)(rec.row));
  }

  lemma NetOfChange(change: C.Change, r: Row)
    ensures Net(RecordsOf(change), r) == CopiesOf(change.after, r) - CopiesOf(change.before, r)
  {
    var minus: seq<Record> := if change.before.Some? then [Negative(change.before.value)] else [];
    var plus: seq<Record> := if change.after.Some? then [Positive(change.after.value)] else [];
    TotalAppend(minus, plus, Is(r));
    if change.before.Some? { NetOfOne(Negative(change.before.value), r); }
    if change.after.Some? { NetOfOne(Positive(change.after.value), r); }
  }

  /** A change of a row the table has can be applied to it. */
  lemma ChangeApplicable(rows: seq<Row>, change: C.Change)
    requires C.Copies(change.before) <= multiset(rows)
    ensures Applicable(rows, RecordsOf(change))
  {
    var d := RecordsOf(change);
    forall j | 0 <= j <= |d| ensures NonNegative(Plus(rows) + d[..j]) {
      forall r ensures Net(Plus(rows) + d[..j], r) >= 0 {
        NetPermuted(rows, rows, d[..j], r);
        NetOfPrefix(change, j, r);
        if change.before == Some(r) { assert r in C.Copies(change.before); }
      }
    }
  }

  lemma NetOfPrefix(change: C.Change, j: nat, r: Row)
    requires j <= |RecordsOf(change)|
    ensures Net(RecordsOf(change)[..j], r) >= -CopiesOf(change.before, r)
  {
    var d := RecordsOf(change);
    if j == |d| {
      assert d[..j] == d;
      NetOfChange(change, r);
    } else if j == 1 {
      assert d[..j] == [Negative(change.before.value)];
      NetOfOne(Negative(change.before.value), r);
    } else {
      assert d[..j] == [];
    }
  }

  lemma ChangeMoves(rows: seq<Row>, change: C.Change, rows': seq<Row>)
    requires C.Copies(change.before) <= multiset(rows) && Moves(rows, RecordsOf(change), rows')
    ensures multiset(rows') == multiset(rows) - C.Copies(change.before) + C.Copies(change.after)
  {
    forall r ensures multiset(rows')[r] == (multiset(rows) - C.Copies(change.before) + C.Copies(change.after))[r] {
      NetOfPlus(rows', r);
      NetPermuted(rows, rows, RecordsOf(change), r);
      NetOfChange(change, r);
      assert C.Copies(change.before)[r] == CopiesOf(change.before, r);
      assert C.Copies(change.after)[r] == CopiesOf(change.after, r);
    }
  }

  /** And only such a change. */
  lemma ChangeFits(rows: seq<Row>, change: C.Change)
    ensures Applicable(rows, RecordsOf(change)) <==> C.Copies(change.before) <= multiset(rows)
  {
    if C.Copies(change.before) <= multiset(rows) { ChangeApplicable(rows, change); }
    if Applicable(rows, RecordsOf(change)) && change.before.Some? {
      var x := change.before.value;
      assert RecordsOf(change)[..1] == [Negative(x)];
      assert NonNegative(Plus(rows) + RecordsOf(change)[..1]);
      NetPermuted(rows, rows, [Negative(x)], x);
      NetOfOne(Negative(x), x);
      assert multiset(rows)[x] >= 1;
    }
  }

  /** Two contents with the same rows in a table. */
  lemma BagAgrees(m: C.Content, m': C.Content, table: string)
    requires forall k: C.Key :: k.table == table ==> C.Get(m, k) == C.Get(m', k)
    ensures TableBag(m, table) == TableBag(m', table)
  {
    forall k | k in KeysOf(m, table) ensures k in m' && m[k] == m'[k] { assert C.Get(m, k) == C.Get(m', k); }
    forall k | k in KeysOf(m', table) ensures k in m { assert C.Get(m, k) == C.Get(m', k); }
    assert KeysOf(m, table) == KeysOf(m', table);
    BagSame(m, m', KeysOf(m, table));
  }

  // ---------------------------------------------------------------------------
  // Rows under a key, in two contents
  // ---------------------------------------------------------------------------

  /** Rows carry their primary key. */
  ghost predicate IdAt(m: C.Content, table: string, c: nat) {
    forall k :: k in m && k.table == table ==> Column(m[k], c) == k.id
  }

  lemma {:induction false} NotInBag(m: C.Content, ks: set<C.Key>, r: Row)
    requires ks <= m.Keys && forall k :: k in ks ==> m[k] != r
    ensures BagOf(m, ks)[r] == 0
    decreases |ks|
  {
    if ks != {} {
      var k :| k in ks;
      BagTake(m, ks, k);
      NotInBag(m, ks - {k}, r);
    }
  }

  lemma RowOnce(m: C.Content, table: string, c: nat, r: Row)
    requires IdAt(m, table, c)
    ensures TableBag(m, table)[r] == CopiesOf(C.Get(m, C.Key(table, Column(r, c))), r)
  {
    var k := C.Key(table, Column(r, c));
    BagAt(m, k);
    forall j | j in KeysOf(m, table) - {k} ensures m[j] != r {
      assert Column(m[j], c) == j.id;
    }
    NotInBag(m, KeysOf(m, table) - {k}, r);
  }

  predicate UnderKey(row: Option<Row>, cols: seq<nat>, key: Row) {
    row.Some? && HasValues(row.value, cols, key)
  }

  /** No row that differs between the two is, or was, under the key. */
  ghost predicate Untouched(m: C.Content, m': C.Content, table: string, cols: seq<nat>, key: Row) {
    forall k: C.Key :: k.table == table && C.Get(m, k) != C.Get(m', k) ==>
      !UnderKey(C.Get(m, k), cols, key) && !UnderKey(C.Get(m', k), cols, key)
  }

  lemma KeyCount(m: C.Content, table: string, c: nat, rows: seq<Row>, cols: seq<nat>, key: Row, r: Row)
    requires IdAt(m, table, c) && multiset(rows) == TableBag(m, table)
    ensures multiset(RowsWith(rows, cols, key))[r] ==
            if HasValues(r, cols, key) then CopiesOf(C.Get(m, C.Key(table, Column(r, c))), r) else 0
  {
    RowsWithExactly(rows, cols, key, r);
    RowOnce(m, table, c, r);
  }

  lemma UntouchedCount(m: C.Content, m': C.Content, table: string, c: nat, rows: seq<Row>, rows': seq<Row>,
                       cols: seq<nat>, key: Row, r: Row)
    requires IdAt(m, table, c) && multiset(rows) == TableBag(m, table)
    requires IdAt(m', table, c) && multiset(rows') == TableBag(m', table)
    requires Untouched(m, m', table, cols, key)
    ensures multiset(RowsWith(rows, cols, key))[r] == multiset(RowsWith(rows', cols, key))[r]
  {
    KeyCount(m, table, c, rows, cols, key, r);
    KeyCount(m', table, c, rows', cols, key, r);
    var k := C.Key(table, Column(r, c));
    assert C.Get(m, k) == C.Get(m', k) || !(UnderKey(C.Get(m, k), cols, key) || UnderKey(C.Get(m', k), cols, key));
  }

  /** A row that differs is missing from one of the two. */
  lemma TouchedCount(m: C.Content, m': C.Content, table: string, c: nat, rows: seq<Row>, rows': seq<Row>,
                     cols: seq<nat>, key: Row, k: C.Key)
    requires IdAt(m, table, c) && multiset(rows) == TableBag(m, table)
    requires IdAt(m', table, c) && multiset(rows') == TableBag(m', table)
    requires k.table == table && C.Get(m, k) != C.Get(m', k) && UnderKey(C.Get(m, k), cols, key)
    ensures var r := C.Get(m, k).value;
            multiset(RowsWith(rows, cols, key))[r] == 1 && multiset(RowsWith(rows', cols, key))[r] == 0
  {
    var r := C.Get(m, k).value;
    assert Column(r, c) == k.id && C.Key(table, Column(r, c)) == k;
    KeyCount(m, table, c, rows, cols, key, r);
    KeyCount(m', table, c, rows', cols, key, r);
  }

  /** Two contents have the same rows under a key exactly when no row that differs is or was under it. */
  lemma SameUnderKey(m: C.Content, m': C.Content, table: string, c: nat, rows: seq<Row>, rows': seq<Row>,
                     cols: seq<nat>, key: Row)
    requires IdAt(m, table, c) && multiset(rows) == TableBag(m, table)
    requires IdAt(m', table, c) && multiset(rows') == TableBag(m', table)
    ensures multiset(RowsWith(rows, cols, key)) == multiset(RowsWith(rows', cols, key)) <==>
            Untouched(m, m', table, cols, key)
  {
    if Untouched(m, m', table, cols, key) {
      forall r ensures multiset(RowsWith(rows, cols, key))[r] == multiset(RowsWith(rows', cols, key))[r] {
        UntouchedCount(m, m', table, c, rows, rows', cols, key, r);
      }
    } else {
      var k: C.Key :| k.table == table && C.Get(m, k) != C.Get(m', k) &&
                      (UnderKey(C.Get(m, k), cols, key) || UnderKey(C.Get(m', k), cols, key));
      if UnderKey(C.Get(m, k), cols, key) {
        TouchedCount(m, m', table, c, rows, rows', cols, key, k);
      } else {
        TouchedCount(m', m, table, c, rows', rows, cols, key, k);
      }
    }
  }
}
