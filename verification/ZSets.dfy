/** Signed rows (deltas) and the algebra the incremental operators rest on.
    A sequence of records stands for the integer weight it gives each row. */
module ZSets {
  import opened Values

  datatype Record = Positive(row: Row) | Negative(row: Row)

  function Signed(rec: Record, n: int): int {
    if rec.Positive? then n else -n
  }

  /** Sum of `w` over the records, each counted with its sign. */
  ghost function Total(h: seq<Record>, w: Row -> int): int {
    if h == [] then 0 else Total(h[..|h| - 1], w) + Signed(h[|h| - 1], w(h[|h| - 1].row))
  }

  /** The weight function that counts occurrences of `r`. */
  ghost function Is(r: Row): Row -> int {
    x => if x == r then 1 else 0
  }

  /** Net multiplicity of `r`. */
  ghost function Net(h: seq<Record>, r: Row): int {
    Total(h, Is(r))
  }

  function Plus(rows: seq<Row>): (h: seq<Record>)
    ensures |h| == |rows|
  {
    seq(|rows|, i requires 0 <= i < |rows| => Positive(rows[i]))
  }

  ghost function Opposite(h: seq<Record>): (o: seq<Record>)
    ensures |o| == |h|
  {
    seq(|h|, i requires 0 <= i < |h| =>
      if h[i].Positive? then Negative(h[i].row) else Positive(h[i].row))
  }

  ghost predicate NonNegative(h: seq<Record>) {
    forall r :: Net(h, r) >= 0
  }

  ghost predicate SameNet(a: seq<Record>, b: seq<Record>) {
    forall r :: Net(a, r) == Net(b, r)
  }

  lemma {:induction false} TotalAppend(a: seq<Record>, b: seq<Record>, w: Row -> int)
    ensures Total(a + b, w) == Total(a, w) + Total(b, w)
    decreases |b|
  {
    if b == [] {
      assert a + b == a;
    } else {
      assert (a + b)[..|a + b| - 1] == a + b[..|b| - 1];
      TotalAppend(a, b[..|b| - 1], w);
    }
  }

  lemma TotalOne(rec: Record, w: Row -> int)
    ensures Total([rec], w) == Signed(rec, w(rec.row))
  {
  }

  lemma {:induction false} TotalOpposite(h: seq<Record>, w: Row -> int)
    ensures Total(Opposite(h), w) == -Total(h, w)
  {
    if h != [] {
      assert Opposite(h)[..|h| - 1] == Opposite(h[..|h| - 1]);
      TotalOpposite(h[..|h| - 1], w);
    }
  }

  lemma TotalRemoveAt(h: seq<Record>, i: nat, w: Row -> int)
    requires i < |h|
    ensures Total(h, w) == Total(h[..i] + h[i + 1..], w) + Signed(h[i], w(h[i].row))
  {
    TotalAround(h[..i], h[i], h[i + 1..], w);
    assert h == h[..i] + [h[i]] + h[i + 1..];
  }

  lemma TotalAround(a: seq<Record>, rec: Record, b: seq<Record>, w: Row -> int)
    ensures Total(a + [rec] + b, w) == Total(a + b, w) + Signed(rec, w(rec.row))
  {
    TotalAppend(a + [rec], b, w);
    TotalAppend(a, [rec], w);
    TotalOne(rec, w);
    TotalAppend(a, b, w);
  }

  lemma {:induction false} TotalSign(h: seq<Record>, w: Row -> int)
    requires forall i :: 0 <= i < |h| ==> Signed(h[i], w(h[i].row)) >= 0
    ensures Total(h, w) >= 0
  {
    if h != [] { TotalSign(h[..|h| - 1], w); }
  }

  lemma {:induction false} NetOfPlus(rows: seq<Row>, r: Row)
    ensures Net(Plus(rows), r) == multiset(rows)[r]
  {
    if rows != [] {
      var init := rows[..|rows| - 1];
      assert rows == init + [rows[|rows| - 1]];
      assert Plus(rows)[..|rows| - 1] == Plus(init);
      NetOfPlus(init, r);
    }
  }

  lemma OnlyNegative(h: seq<Record>, i: nat)
    requires i < |h| && h[i].Negative?
    requires forall k :: 0 <= k < |h| ==> h[k] != Positive(h[i].row)
    ensures Net(h, h[i].row) < 0
  {
    var r := h[i].row;
    var rest := h[..i] + h[i + 1..];
    TotalRemoveAt(h, i, Is(r));
    forall k | 0 <= k < |rest| ensures Signed(Opposite(rest)[k], Is(r)(Opposite(rest)[k].row)) >= 0 {
      assert rest[k] == if k < i then h[k] else h[k + 1];
    }
    TotalSign(Opposite(rest), Is(r));
    TotalOpposite(rest, Is(r));
  }

  /** A record that lowers a non-negative weight is matched by one that raises it. */
  lemma MatchNegative(h: seq<Record>, i: nat) returns (j: nat)
    requires NonNegative(h) && i < |h| && h[i].Negative?
    ensures j < |h| && h[j] == Positive(h[i].row)
  {
    if k: nat :| k < |h| && h[k] == Positive(h[i].row) {
      j := k;
    } else {
      OnlyNegative(h, i);
      assert false;
    }
  }

  /** Every non-negative delta is a bag of rows: opposite records cancel in pairs. */
  lemma {:induction false} Settle(h: seq<Record>) returns (rows: seq<Row>)
    requires NonNegative(h)
    ensures forall w: Row -> int :: Total(Plus(rows), w) == Total(h, w)
    decreases |h|
  {
    if forall i :: 0 <= i < |h| ==> h[i].Positive? {
      rows := seq(|h|, i requires 0 <= i < |h| => h[i].row);
      assert Plus(rows) == h;
    } else {
      var i: nat :| i < |h| && h[i].Negative?;
      var j := MatchNegative(h, i);
      var mid := h[..i] + h[i + 1..];
      var k := if j < i then j else j - 1;
      assert mid[k] == h[j];
      var rest := mid[..k] + mid[k + 1..];
      forall w: Row -> int ensures Total(rest, w) == Total(h, w) {
        TotalRemoveAt(h, i, w);
        TotalRemoveAt(mid, k, w);
      }
      forall r ensures Net(rest, r) >= 0 {
        assert Total(rest, Is(r)) == Net(h, r);
      }
      rows := Settle(rest);
    }
  }

  /** Deltas with the same net weights have the same total for every weight function. */
  lemma SameNetTotal(a: seq<Record>, b: seq<Record>, w: Row -> int)
    requires SameNet(a, b)
    ensures Total(a, w) == Total(b, w)
  {
    var h := a + Opposite(b);
    forall f: Row -> int ensures Total(h, f) == Total(a, f) - Total(b, f) {
      TotalAppend(a, Opposite(b), f);
      TotalOpposite(b, f);
    }
    forall r ensures Net(h, r) == 0 {
      assert Total(h, Is(r)) == Net(a, r) - Net(b, r);
    }
    var rows := Settle(h);
    forall r ensures multiset(rows)[r] == 0 {
      NetOfPlus(rows, r);
      assert Total(Plus(rows), Is(r)) == Net(h, r);
    }
    assert multiset(rows) == multiset{};
    assert |multiset(rows)| == |rows|;
  }

  /** The delta can be applied to `rows` record by record: no prefix takes away an absent row. */
  ghost predicate Applicable(rows: seq<Row>, d: seq<Record>) {
    forall j :: 0 <= j <= |d| ==> NonNegative(Plus(rows) + d[..j])
  }

  /** `after` is `before` with the delta applied. */
  ghost predicate Moves(before: seq<Row>, d: seq<Record>, after: seq<Row>) {
    SameNet(Plus(after), Plus(before) + d)
  }

  lemma NetPermuted(a: seq<Row>, a': seq<Row>, h: seq<Record>, r: Row)
    requires multiset(a) == multiset(a')
    ensures Net(Plus(a) + h, r) == Net(Plus(a') + h, r) == multiset(a)[r] + Net(h, r)
  {
    NetOfPlus(a, r);
    NetOfPlus(a', r);
    TotalAppend(Plus(a), h, Is(r));
    TotalAppend(Plus(a'), h, Is(r));
  }

  /** Only the bag matters for whether a delta leads from one table to another. */
  lemma MovesPermuted(a: seq<Row>, a': seq<Row>, d: seq<Record>, b: seq<Row>, b': seq<Row>)
    requires multiset(a) == multiset(a') && multiset(b) == multiset(b') && Moves(a, d, b)
    ensures Moves(a', d, b')
  {
    forall r ensures Net(Plus(b'), r) == Net(Plus(a') + d, r) {
      assert Net(Plus(b), r) == Net(Plus(a) + d, r);
      NetPermuted(a, a', d, r);
      NetOfPlus(b, r);
      NetOfPlus(b', r);
    }
  }

  lemma ApplicablePermuted(a: seq<Row>, a': seq<Row>, d: seq<Record>)
    requires multiset(a) == multiset(a') && Applicable(a, d)
    ensures Applicable(a', d)
  {
    forall j | 0 <= j <= |d| ensures NonNegative(Plus(a') + d[..j]) {
      assert NonNegative(Plus(a) + d[..j]);
      forall r ensures Net(Plus(a') + d[..j], r) >= 0 {
        NetPermuted(a, a', d[..j], r);
        assert Net(Plus(a) + d[..j], r) >= 0;
      }
    }
  }

  lemma InsertIsApplicable(row: Row)
    ensures Moves([], [Positive(row)], [row]) && Applicable([], [Positive(row)])
  {
    assert Plus([]) + [Positive(row)] == Plus([row]);
    forall j | 0 <= j <= 1 ensures NonNegative(Plus([]) + [Positive(row)][..j]) {
      assert Plus([]) + [Positive(row)][..j] == Plus([row][..j]);
      forall r ensures Net(Plus([row][..j]), r) >= 0 { NetOfPlus([row][..j], r); }
    }
  }
}
