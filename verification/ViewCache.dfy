/** One cached view: rows as bytes under string keys, with holes for keys not filled yet. */
module ViewCache {
  import opened Values
  import opened DataTypes
  import opened Codec
  import opened RowCodec
  import opened Bags

  type Bytes = seq<Byte>
  type Key = seq<DataType>
  type CachedRow = seq<DataType>

  /** A lookup misses, hits, or panics on a row it cannot decode. */
  datatype Lookup = Hole | Rows(rows: seq<CachedRow>) | Panic

  /** Rows and keys for which the codec is faithful. */
  predicate SafeOp(op: Op<Key, CachedRow>) {
    (!op.Clear? ==> AllKeySafe(op.key)) && (op.Insert? ==> AllWellFormed(op.row) && Storable(op.row))
  }

  predicate Safe(ops: seq<Op<Key, CachedRow>>) {
    forall i :: 0 <= i < |ops| ==> SafeOp(ops[i])
  }

  lemma SafeApart(ops: seq<Op<Key, CachedRow>>, key: Key)
    requires Safe(ops) && AllKeySafe(key)
    ensures Apart(SerializeKey, ops, key)
  {
    forall i | 0 <= i < |ops| ensures KeyApart(SerializeKey, ops[i], key) {
      assert SafeOp(ops[i]);
      if !ops[i].Clear? && SerializeKey(ops[i].key) == SerializeKey(key) {
        SerializeKeyInjective(ops[i].key, key);
      }
    }
  }

  function Reread(row: CachedRow): CachedRow {
    if AllWellFormed(row) then NormalizedRow(row) else row
  }

  ghost predicate AllStorable(rows: seq<CachedRow>) {
    forall i :: 0 <= i < |rows| ==> AllWellFormed(rows[i]) && Storable(rows[i])
  }

  lemma {:induction false} InsertedStorable(ops: seq<Op<Key, CachedRow>>, key: Key)
    requires Safe(ops)
    ensures AllStorable(InsertedUnder(ops, key))
  {
    if ops != [] {
      assert SafeOp(ops[|ops| - 1]);
      InsertedStorable(ops[..|ops| - 1], key);
    }
  }

  lemma HeldStorable(ops: seq<Op<Key, CachedRow>>, key: Key)
    requires Safe(ops) && Held(ops, key).Some?
    ensures AllStorable(Held(ops, key).value)
  {
    var tail := ops[LastReset(ops, key)..];
    assert Safe(tail);
    InsertedStorable(tail, key);
  }

  lemma RereadStored(row: CachedRow)
    requires AllWellFormed(row) && Storable(row)
    ensures DeserializeRow(SerializeRow(row)) == Some(Reread(row))
    ensures RowsEqual(row, Reread(row))
  {
    var full := SerializeRow(row);
    var k := CutRowDecodes(row, |full|);
    assert full[..|full|] == full && NormalizedRow(row)[..k] == NormalizedRow(row);
    RowRoundTrip(row);
  }

  function Decoded(bytes: Bytes): CachedRow {
    match DeserializeRow(bytes) case None => [] case Some(row) => row
  }

  lemma DecodedStored(rows: seq<CachedRow>)
    requires AllStorable(rows)
    ensures Images(Decoded, Images(SerializeRow, rows)) == Images(Reread, rows)
  {
    forall i | 0 <= i < |rows| ensures Decoded(SerializeRow(rows[i])) == Reread(rows[i]) {
      RereadStored(rows[i]);
    }
  }

  ghost predicate AllDecodable(items: seq<Bytes>) {
    forall i :: 0 <= i < |items| ==> DeserializeRow(items[i]).Some?
  }

  /** Whatever order the bag is read in, every row decodes. */
  lemma StoredDecodable(rows: seq<CachedRow>, items: seq<Bytes>)
    requires AllStorable(rows) && multiset(items) == multiset(Images(SerializeRow, rows))
    ensures AllDecodable(items)
  {
    forall i | 0 <= i < |items| ensures DeserializeRow(items[i]).Some? {
      assert items[i] in multiset(items);
      assert items[i] in Images(SerializeRow, rows);
      var j :| 0 <= j < |rows| && items[i] == SerializeRow(rows[j]);
      RereadStored(rows[j]);
    }
  }

  /** What a lookup is to answer after a history: nothing for a hole, else the bag of rows inserted
      since the key was last removed, cleared or marked filled, in any order. */
  ghost predicate AnswersHistory(ops: seq<Op<Key, CachedRow>>, key: Key, r: Lookup) {
    match Held(ops, key)
    case None => r.Hole?
    case Some(rows) => r.Rows? && multiset(r.rows) == multiset(Images(Reread, rows))
  }

  method DecodeRows(items: seq<Bytes>) returns (r: Lookup)
    ensures AllDecodable(items) ==> r == Rows(Images(Decoded, items))
    ensures !AllDecodable(items) ==> r == Panic
  {
    var rows: seq<CachedRow> := [];
    for i := 0 to |items|
      invariant AllDecodable(items[..i]) && rows == Images(Decoded, items[..i])
    {
      var row := DeserializeRow(items[i]);
      if row.None? {
        return Panic;
      }
      rows := rows + [row.value];
      assert items[..i + 1] == items[..i] + [items[i]];
      assert Images(Decoded, items[..i + 1]) == Images(Decoded, items[..i]) + [Decoded(items[i])];
    }
    assert items[..|items|] == items;
    r := Rows(rows);
  }

  class ViewHandle {
    const keyColumns: seq<nat>
    var store: map<Bytes, multiset<Bytes>>
    ghost var history: seq<Op<Key, CachedRow>>

    ghost predicate Valid()
      reads this
    {
      store == Replay(SerializeKey, SerializeRow, history)
    }

    constructor (keyColumns: seq<nat>)
      ensures Valid() && history == [] && this.keyColumns == keyColumns
    {
      this.keyColumns := keyColumns;
      store, history := map[], [];
    }

    ghost method Record(op: Op<Key, CachedRow>)
      modifies `history
      ensures history == old(history) + [op]
      ensures Replay(SerializeKey, SerializeRow, history) ==
              Apply(SerializeKey, SerializeRow, Replay(SerializeKey, SerializeRow, old(history)), op)
    {
      history := history + [op];
      assert history[..|history| - 1] == old(history);
    }

    method Insert(key: Key, row: CachedRow)
      requires Valid()
      modifies this
      ensures Valid() && history == old(history) + [Op.Insert(key, row)]
    {
      var k := SerializeKey(key);
      store := store[k := (if k in store then store[k] else multiset{}) + multiset{SerializeRow(row)}];
      Record(Op.Insert(key, row));
    }

    /** The key is read off the row; columns the row does not have are skipped. */
    method InsertRow(row: CachedRow)
      requires Valid()
      modifies this
      ensures Valid() && history == old(history) + [Op.Insert(KeyOf(keyColumns, row), row)]
    {
      var key: Key := [];
      for i := 0 to |keyColumns|
        invariant key == KeyOf(keyColumns[..i], row)
      {
        if keyColumns[i] < |row| {
          key := key + [row[keyColumns[i]]];
        }
        assert keyColumns[..i + 1][..i] == keyColumns[..i];
      }
      assert keyColumns[..|keyColumns|] == keyColumns;
      Insert(key, row);
    }

    method Remove(key: Key)
      requires Valid()
      modifies this
      ensures Valid() && history == old(history) + [Op.Remove(key)]
    {
      store := store - {SerializeKey(key)};
      Record(Op.Remove(key));
    }

    method Clear()
      requires Valid()
      modifies this
      ensures Valid() && history == old(history) + [Op.Clear]
    {
      store := map[];
      Record(Op.Clear);
    }

    method MarkFilled(key: Key)
      requires Valid()
      modifies this
      ensures Valid() && history == old(history) + [Op.MarkFilled(key)]
    {
      store := store[SerializeKey(key) := multiset{}];
      Record(Op.MarkFilled(key));
    }

    method LookupKey(key: Key) returns (r: Lookup)
      requires Valid()
      ensures Safe(history) && AllKeySafe(key) ==> AnswersHistory(history, key, r)
    {
      var k := SerializeKey(key);
      if Safe(history) && AllKeySafe(key) {
        SafeApart(history, key);
        ReplayHolds(SerializeKey, SerializeRow, history, key);
      }
      if k !in store {
        return Hole;
      }
      var items := Enumerate(store[k]);
      r := DecodeRows(items);
      if Safe(history) && AllKeySafe(key) {
        StoredAnswers(history, key, items, r);
      }
    }

    method IsHole(key: Key) returns (b: bool)
      requires Valid()
      ensures Safe(history) && AllKeySafe(key) ==> (b <==> Held(history, key).None?)
    {
      b := SerializeKey(key) !in store;
      if Safe(history) && AllKeySafe(key) {
        SafeApart(history, key);
        ReplayHolds(SerializeKey, SerializeRow, history, key);
      }
    }
  }

  /** Key columns of a row, those beyond its end left out. */
  function KeyOf(columns: seq<nat>, row: CachedRow): Key {
    if columns == [] then []
    else
      var c := columns[|columns| - 1];
      KeyOf(columns[..|columns| - 1], row) + if c < |row| then [row[c]] else []
  }

  /** Position by position. */
  lemma {:induction false} KeyOfColumns(columns: seq<nat>, row: CachedRow)
    requires forall i :: 0 <= i < |columns| ==> columns[i] < |row|
    ensures |KeyOf(columns, row)| == |columns|
    ensures forall i :: 0 <= i < |columns| ==> KeyOf(columns, row)[i] == row[columns[i]]
  {
    if columns != [] { KeyOfColumns(columns[..|columns| - 1], row); }
  }

  /** A row just inserted is found under the values it has in the key columns. */
  method InsertThenLookup(view: ViewHandle, row: CachedRow, key: Key) returns (r: Lookup)
    requires view.Valid() && Safe(view.history) && AllWellFormed(row) && Storable(row) && AllKeySafe(key)
    requires |key| == |view.keyColumns|
    requires forall i :: 0 <= i < |key| ==> view.keyColumns[i] < |row| && key[i] == row[view.keyColumns[i]]
    modifies view
    ensures r.Rows? && exists i :: 0 <= i < |r.rows| && RowsEqual(row, r.rows[i])
  {
    ghost var before := view.history;
    KeyOfColumns(view.keyColumns, row);
    assert KeyOf(view.keyColumns, row) == key;
    view.InsertRow(row);
    HeldAfterInsert(before, Op.Insert(key, row));
    assert Safe(view.history);
    r := view.LookupKey(key);
    LastRowShown(before, key, row, r);
  }

  lemma LastRowShown(before: seq<Op<Key, CachedRow>>, key: Key, row: CachedRow, r: Lookup)
    requires AllWellFormed(row) && Storable(row) && AnswersHistory(before + [Op.Insert(key, row)], key, r)
    ensures r.Rows? && exists i :: 0 <= i < |r.rows| && RowsEqual(row, r.rows[i])
  {
    HeldAfterInsert(before, Op.Insert(key, row));
    RereadStored(row);
    var rows := Held(before + [Op.Insert(key, row)], key).value;
    assert Images(Reread, rows)[|rows| - 1] == Reread(row);
    assert Reread(row) in multiset(r.rows);
    var i :| 0 <= i < |r.rows| && r.rows[i] == Reread(row);
  }

  lemma StoredAnswers(ops: seq<Op<Key, CachedRow>>, key: Key, items: seq<Bytes>, r: Lookup)
    requires Safe(ops) && Held(ops, key).Some?
    requires multiset(items) == multiset(Images(SerializeRow, Held(ops, key).value))
    requires AllDecodable(items) ==> r == Rows(Images(Decoded, items))
    ensures AnswersHistory(ops, key, r)
  {
    var rows := Held(ops, key).value;
    HeldStorable(ops, key);
    StoredDecodable(rows, items);
    DecodedStored(rows);
    ImagesPermuted(Decoded, items, Images(SerializeRow, rows));
  }
}
