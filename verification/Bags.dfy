/** Histories of a map from keys to bags of rows, and the map kept under encoded keys and rows. */
module Bags {
  import opened Values

  datatype Op<K, R> = Insert(key: K, row: R) | Remove(key: K) | Clear | MarkFilled(key: K)

  // ---------------------------------------------------------------------------
  // What a history leaves under a key
  // ---------------------------------------------------------------------------

  /** The operation forgets the rows under `key`. */
  predicate Resets<K(==), R>(op: Op<K, R>, key: K) {
    op.Clear? || ((op.Remove? || op.MarkFilled?) && op.key == key)
  }

  /** Number of operations up to and including the last one that resets `key`. */
  function LastReset<K(==), R>(ops: seq<Op<K, R>>, key: K): (r: nat)
    ensures r <= |ops| && (r > 0 ==> Resets(ops[r - 1], key))
    ensures forall i :: r <= i < |ops| ==> !Resets(ops[i], key)
  {
    if ops == [] then 0
    else if Resets(ops[|ops| - 1], key) then |ops|
    else LastReset(ops[..|ops| - 1], key)
  }

  /** Rows inserted under `key`, oldest first. */
  function InsertedUnder<K(==), R>(ops: seq<Op<K, R>>, key: K): seq<R> {
    if ops == [] then []
    else
      var op := ops[|ops| - 1];
      InsertedUnder(ops[..|ops| - 1], key) + if op.Insert? && op.key == key then [op.row] else []
  }

  /** `None` for a hole, else the rows inserted under `key` since it was last reset. */
  function Held<K(==), R>(ops: seq<Op<K, R>>, key: K): Option<seq<R>> {
    var r := LastReset(ops, key);
    var rows := InsertedUnder(ops[r..], key);
    if rows == [] && !(r > 0 && ops[r - 1].MarkFilled?) then None else Some(rows)
  }

  lemma Appended<K, R>(ops: seq<Op<K, R>>, op: Op<K, R>, key: K)
    requires !Resets(op, key)
    ensures var r, all := LastReset(ops, key), ops + [op];
            && LastReset(all, key) == r && (r > 0 ==> all[r - 1] == ops[r - 1])
            && InsertedUnder(all[r..], key) ==
               InsertedUnder(ops[r..], key) + if op.Insert? && op.key == key then [op.row] else []
  {
    var r, all := LastReset(ops, key), ops + [op];
    assert all[..|all| - 1] == ops;
    var tail := all[r..];
    assert tail[..|tail| - 1] == ops[r..];
  }

  lemma HeldAfterReset<K, R>(ops: seq<Op<K, R>>, op: Op<K, R>, key: K)
    requires Resets(op, key)
    ensures Held(ops + [op], key) == if op.MarkFilled? then Some([]) else None
  {
  }

  lemma HeldAfterInsert<K, R>(ops: seq<Op<K, R>>, op: Op<K, R>)
    requires op.Insert?
    ensures Held(ops + [op], op.key) ==
            match Held(ops, op.key) case None => Some([op.row]) case Some(rows) => Some(rows + [op.row])
  {
    Appended(ops, op, op.key);
    assert [] + [op.row] == [op.row];
  }

  lemma HeldAfterOther<K, R>(ops: seq<Op<K, R>>, op: Op<K, R>, key: K)
    requires !op.Clear? && op.key != key
    ensures Held(ops + [op], key) == Held(ops, key)
  {
    Appended(ops, op, key);
    var rows := InsertedUnder(ops[LastReset(ops, key)..], key);
    assert rows + [] == rows;
  }

  // ---------------------------------------------------------------------------
  // The map under encoded keys and rows
  // ---------------------------------------------------------------------------

  type Store<A, !B> = map<A, multiset<B>>

  function BagOf<A(==), B>(m: Store<A, B>, a: A): multiset<B> {
    if a in m then m[a] else multiset{}
  }

  function Apply<K, R, A(==), B>(ek: K -> A, er: R -> B, m: Store<A, B>, op: Op<K, R>): Store<A, B> {
    match op
    case Insert(k, row) => m[ek(k) := BagOf(m, ek(k)) + multiset{er(row)}]
    case Remove(k) => m - {ek(k)}
    case Clear => map[]
    case MarkFilled(k) => m[ek(k) := multiset{}]
  }

  function Replay<K, R, A(==), B>(ek: K -> A, er: R -> B, ops: seq<Op<K, R>>): Store<A, B> {
    if ops == [] then map[] else Apply(ek, er, Replay(ek, er, ops[..|ops| - 1]), ops[|ops| - 1])
  }

  function Images<A, B>(f: A -> B, s: seq<A>): seq<B> {
    seq(|s|, i requires 0 <= i < |s| => f(s[i]))
  }

  ghost predicate KeyApart<K, R, A>(ek: K -> A, op: Op<K, R>, key: K) {
    !op.Clear? && ek(op.key) == ek(key) ==> op.key == key
  }

  /** No key of the history shares the encoding of another `key`. */
  ghost predicate Apart<K, R, A>(ek: K -> A, ops: seq<Op<K, R>>, key: K) {
    forall i :: 0 <= i < |ops| ==> KeyApart(ek, ops[i], key)
  }

  ghost predicate Agrees<K, R, A, B>(ek: K -> A, er: R -> B, m: Store<A, B>, key: K, held: Option<seq<R>>) {
    if held.None? then ek(key) !in m else ek(key) in m && m[ek(key)] == multiset(Images(er, held.value))
  }

  /** The encoded store holds, under every key, the encoded rows of that key: a hole if there are none to hold. */
  lemma {:induction false} ReplayHolds<K, R, A, B>(ek: K -> A, er: R -> B, ops: seq<Op<K, R>>, key: K)
    requires Apart(ek, ops, key)
    ensures Agrees(ek, er, Replay(ek, er, ops), key, Held(ops, key))
  {
    if ops != [] {
      var front, op := ops[..|ops| - 1], ops[|ops| - 1];
      assert ops == front + [op];
      ReplayHolds(ek, er, front, key);
      assert KeyApart(ek, op, key);
      StepHolds(ek, er, Replay(ek, er, front), front, op, key);
    }
  }

  lemma StepHolds<K, R, A, B>(ek: K -> A, er: R -> B, m: Store<A, B>, ops: seq<Op<K, R>>, op: Op<K, R>, key: K)
    requires KeyApart(ek, op, key) && Agrees(ek, er, m, key, Held(ops, key))
    ensures Agrees(ek, er, Apply(ek, er, m, op), key, Held(ops + [op], key))
  {
    if Resets(op, key) {
      HeldAfterReset(ops, op, key);
    } else if op.key == key {
      HeldAfterInsert(ops, op);
      var rows := match Held(ops, key) case None => [] case Some(rows) => rows;
      assert Images(er, rows + [op.row]) == Images(er, rows) + [er(op.row)];
    } else {
      HeldAfterOther(ops, op, key);
    }
  }

  // ---------------------------------------------------------------------------
  // Reading a bag in any order
  // ---------------------------------------------------------------------------

  function Without<A>(t: seq<A>, j: nat): seq<A>
    requires j < |t|
  {
    t[..j] + t[j + 1..]
  }

  lemma BagWithout<A>(t: seq<A>, j: nat)
    requires j < |t|
    ensures multiset(t) == multiset{t[j]} + multiset(Without(t, j))
  {
    assert t == t[..j] + [t[j]] + t[j + 1..];
  }

  lemma ImagesWithout<A, B>(f: A -> B, t: seq<A>, j: nat)
    requires j < |t|
    ensures multiset(Images(f, t)) == multiset{f(t[j])} + multiset(Images(f, Without(t, j)))
  {
    BagWithout(Images(f, t), j);
    assert Images(f, Without(t, j)) == Without(Images(f, t), j);
  }

  lemma {:induction false} ImagesPermuted<A, B>(f: A -> B, s: seq<A>, t: seq<A>)
    requires multiset(s) == multiset(t)
    ensures multiset(Images(f, s)) == multiset(Images(f, t))
    decreases |s|
  {
    if s == [] {
      assert |multiset(t)| == 0;
    } else {
      BagWithout(s, 0);
      assert s[0] in multiset(t);
      var j :| 0 <= j < |t| && t[j] == s[0];
      BagWithout(t, j);
      var one := multiset{s[0]};
      assert multiset(Without(s, 0)) == one + multiset(Without(s, 0)) - one;
      assert multiset(Without(t, j)) == one + multiset(Without(t, j)) - one;
      ImagesPermuted(f, Without(s, 0), Without(t, j));
      ImagesWithout(f, s, 0);
      ImagesWithout(f, t, j);
    }
  }

  method Enumerate<B(==)>(bag: multiset<B>) returns (s: seq<B>)
    ensures multiset(s) == bag
  {
    s := [];
    var rest := bag;
    while rest != multiset{}
      invariant multiset(s) + rest == bag
      decreases |rest|
    {
      var b :| b in rest;
      s, rest := s + [b], rest - multiset{b};
    }
  }
}
