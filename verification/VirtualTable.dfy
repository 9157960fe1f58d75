/** Query planning for a virtual table: constraints on its parameters are packed into a bitmap and an
    argument list, and unpacked when the scan starts. */
module VirtualTable {
  import opened Values

  const MAX_PARAMETERS := 32

  datatype Op = Eq | Limit | Offset | OtherOp

  datatype Constraint = Constraint(column: int, op: Op, usable: bool)

  /** `argvIndex[c]`: position, from 1, of constraint `c`'s value in the argument list; 0 if not passed. */
  datatype Plan =
    | Index(idxNum: nat, argvIndex: seq<nat>, omit: seq<bool>)
    | Error             // a parameter constrained by something else than '='
    | Unusable          // this plan would drop an argument

  /** The constraint is on a parameter; LIMIT and OFFSET have no column. */
  predicate OnParameter(c: Constraint, n: nat) {
    !c.op.Limit? && !c.op.Offset? && 0 <= c.column < n
  }

  predicate Rejected(c: Constraint, n: nat) {
    OnParameter(c, n) && !(c.op.Eq? && c.usable)
  }

  // ---------------------------------------------------------------------------
  // Bitmap, as the number it is
  // ---------------------------------------------------------------------------

  /** `bits & 1 << i` is not zero. */
  predicate Has(bits: nat, i: nat) {
    if i == 0 then bits % 2 == 1 else Has(bits / 2, i - 1)
  }

  /** `bits | 1 << i`. */
  function SetBit(bits: nat, i: nat): nat {
    if i == 0 then bits / 2 * 2 + 1 else SetBit(bits / 2, i - 1) * 2 + bits % 2
  }

  function Pow2(i: nat): nat {
    if i == 0 then 1 else 2 * Pow2(i - 1)
  }

  lemma {:induction false} HasSetBit(bits: nat, i: nat, j: nat)
    ensures Has(SetBit(bits, i), j) <==> Has(bits, j) || i == j
  {
    if i > 0 && j > 0 { HasSetBit(bits / 2, i - 1, j - 1); }
  }

  /** 32 parameters fit a 32-bit word. */
  lemma {:induction false} SetBitFits(bits: nat, i: nat, width: nat)
    requires bits < Pow2(width) && i < width
    ensures SetBit(bits, i) < Pow2(width)
  {
    if i > 0 { SetBitFits(bits / 2, i - 1, width - 1); }
  }

  lemma {:induction false} NoBits(i: nat)
    ensures !Has(0, i)
  {
    if i > 0 { NoBits(i - 1); }
  }

  // ---------------------------------------------------------------------------
  // What is to be passed, defined parameter by parameter
  // ---------------------------------------------------------------------------

  /** Lowest-numbered constraint on parameter `i`, from constraint `from` on. */
  function Lowest(cs: seq<Constraint>, n: nat, i: nat, from: nat): (r: Option<nat>)
    ensures r.Some? ==> from <= r.value < |cs| && OnParameter(cs[r.value], n) && cs[r.value].column == i
    ensures forall c :: from <= c < (if r.Some? then r.value else |cs|) ==>
              !(OnParameter(cs[c], n) && cs[c].column == i)
    decreases |cs| - from
  {
    if from >= |cs| then None
    else if OnParameter(cs[from], n) && cs[from].column == i then Some(from)
    else Lowest(cs, n, i, from + 1)
  }

  /** Constraints to pass for the parameters below `m`, in order of the parameters. */
  function Chosen(cs: seq<Constraint>, n: nat, m: nat): seq<nat> {
    if m == 0 then []
    else Chosen(cs, n, m - 1) + match Lowest(cs, n, m - 1, 0) case None => [] case Some(c) => [c]
  }

  lemma {:induction false} ChosenSkips(cs: seq<Constraint>, n: nat, lo: nat, hi: nat)
    requires lo <= hi && forall i :: lo <= i < hi ==> Lowest(cs, n, i, 0).None?
    ensures Chosen(cs, n, hi) == Chosen(cs, n, lo)
    decreases hi
  {
    if lo < hi { ChosenSkips(cs, n, lo, hi - 1); }
  }

  /** Constraints chosen for different parameters are on those parameters, so they differ. */
  lemma {:induction false} ChosenColumns(cs: seq<Constraint>, n: nat, m: nat)
    ensures forall r :: 0 <= r < |Chosen(cs, n, m)| ==>
              Chosen(cs, n, m)[r] < |cs| && 0 <= cs[Chosen(cs, n, m)[r]].column < m
    ensures forall r, q :: 0 <= r < q < |Chosen(cs, n, m)| ==>
              cs[Chosen(cs, n, m)[r]].column < cs[Chosen(cs, n, m)[q]].column
  {
    if m > 0 { ChosenColumns(cs, n, m - 1); }
  }

  // ---------------------------------------------------------------------------
  // Sorting the forwarded pairs
  // ---------------------------------------------------------------------------

  datatype Pair = Pair(column: nat, index: nat)

  predicate Before(a: Pair, b: Pair) {
    a.column < b.column || (a.column == b.column && a.index <= b.index)
  }

  predicate Sorted(ps: seq<Pair>) {
    forall i, j :: 0 <= i < j < |ps| ==> Before(ps[i], ps[j])
  }

  function InsertPair(p: Pair, ps: seq<Pair>): (r: seq<Pair>)
    ensures multiset(r) == multiset{p} + multiset(ps)
  {
    if ps == [] || Before(p, ps[0]) then [p] + ps
    else
      assert ps == [ps[0]] + ps[1..];
      [ps[0]] + InsertPair(p, ps[1..])
  }

  function SortPairs(ps: seq<Pair>): (r: seq<Pair>)
    ensures multiset(r) == multiset(ps)
  {
    if ps == [] then []
    else
      assert ps == [ps[0]] + ps[1..];
      InsertPair(ps[0], SortPairs(ps[1..]))
  }

  lemma {:induction false} InsertSorted(p: Pair, ps: seq<Pair>)
    requires Sorted(ps)
    ensures Sorted(InsertPair(p, ps))
  {
    if ps != [] && !Before(p, ps[0]) {
      InsertSorted(p, ps[1..]);
      var r := InsertPair(p, ps[1..]);
      forall i | 0 <= i < |r| ensures Before(ps[0], r[i]) {
        assert r[i] in multiset(r);
        assert r[i] == p || r[i] in ps[1..];
      }
    }
  }

  lemma {:induction false} SortSorted(ps: seq<Pair>)
    ensures Sorted(SortPairs(ps))
  {
    if ps != [] {
      SortSorted(ps[1..]);
      InsertSorted(ps[0], SortPairs(ps[1..]));
    }
  }

  // ---------------------------------------------------------------------------
  // xBestIndex
  // ---------------------------------------------------------------------------

  function PairsOf(cs: seq<Constraint>, n: nat): seq<Pair> {
    if cs == [] then []
    else
      var i := |cs| - 1;
      PairsOf(cs[..i], n) + if OnParameter(cs[i], n) then [Pair(cs[i].column, i)] else []
  }

  lemma {:induction false} PairsOfAll(cs: seq<Constraint>, n: nat, p: Pair)
    ensures p in PairsOf(cs, n) <==> p.index < |cs| && OnParameter(cs[p.index], n) && cs[p.index].column == p.column
  {
    if cs != [] { PairsOfAll(cs[..|cs| - 1], n, p); }
  }

  /** The first loop: constraints on parameters are collected, one that cannot be forwarded ends it. */
  method Forward(cs: seq<Constraint>, n: nat) returns (forwarded: seq<Pair>, failure: Option<Plan>)
    ensures failure.None? ==> forwarded == PairsOf(cs, n) && forall c :: 0 <= c < |cs| ==> !Rejected(cs[c], n)
    ensures failure.Some? ==>
              exists c :: 0 <= c < |cs| && Rejected(cs[c], n) && (forall b :: 0 <= b < c ==> !Rejected(cs[b], n))
                          && failure.value == if cs[c].op.Eq? then Unusable else Error
  {
    forwarded, failure := [], None;
    for i := 0 to |cs|
      invariant forwarded == PairsOf(cs[..i], n) && forall c :: 0 <= c < i ==> !Rejected(cs[c], n)
    {
      var item := cs[i];
      assert cs[..i + 1][..i] == cs[..i];
      if item.op.Limit? || item.op.Offset? {
        continue;
      }
      if 0 <= item.column < n {
        if !item.op.Eq? {
          return forwarded, Some(Error);
        }
        if !item.usable {
          return forwarded, Some(Unusable);
        }
        forwarded := forwarded + [Pair(item.column, i)];
      }
    }
    assert cs[..|cs|] == cs;
  }

  /** Bitmap and argument positions pass exactly the constraints chosen for the parameters below `m`,
      numbered 1, 2, ... without gaps. */
  ghost predicate Encodes(idxNum: nat, argvIndex: seq<nat>, omit: seq<bool>, cs: seq<Constraint>, n: nat, m: nat,
                          chosen: seq<nat>)
  {
    chosen == Chosen(cs, n, m) && Flags(idxNum, cs, n, m) && Numbered(argvIndex, omit, |cs|, chosen)
  }

  ghost predicate Flags(idxNum: nat, cs: seq<Constraint>, n: nat, m: nat) {
    forall i: nat :: Has(idxNum, i) <==> i < m && Lowest(cs, n, i, 0).Some?
  }

  ghost predicate Numbered(argvIndex: seq<nat>, omit: seq<bool>, size: nat, chosen: seq<nat>) {
    && |argvIndex| == size == |omit|
    && (forall r :: 0 <= r < |chosen| ==> chosen[r] < size && argvIndex[chosen[r]] == r + 1)
    && (forall c :: 0 <= c < size ==> (argvIndex[c] > 0 <==> c in chosen) && omit[c] == (argvIndex[c] > 0))
  }

  lemma NumberedNext(argvIndex: seq<nat>, omit: seq<bool>, size: nat, chosen: seq<nat>, c: nat)
    requires Numbered(argvIndex, omit, size, chosen) && c < size && c !in chosen
    ensures Numbered(argvIndex[c := |chosen| + 1], omit[c := true], size, chosen + [c])
  {
  }

  lemma FlagsNext(idxNum: nat, cs: seq<Constraint>, n: nat, m: nat)
    requires Flags(idxNum, cs, n, m) && Lowest(cs, n, m, 0).Some?
    ensures Flags(SetBit(idxNum, m), cs, n, m + 1)
  {
    forall i: nat ensures Has(SetBit(idxNum, m), i) <==> i < m + 1 && Lowest(cs, n, i, 0).Some? {
      HasSetBit(idxNum, m, i);
    }
  }

  lemma NotYetChosen(cs: seq<Constraint>, n: nat, m: nat, c: nat)
    requires c < |cs| && cs[c].column == m
    ensures c !in Chosen(cs, n, m)
  {
    ChosenColumns(cs, n, m);
  }

  ghost predicate AllPairs(ps: seq<Pair>, cs: seq<Constraint>, n: nat) {
    forall p :: p in ps <==> p.index < |cs| && OnParameter(cs[p.index], n) && cs[p.index].column == p.column
  }

  /** Columns below `m` are done; the next pair in sorted order is for the last of them, or is the
      lowest-numbered constraint on the next parameter that has any. */
  lemma NextPair(ps: seq<Pair>, cs: seq<Constraint>, n: nat, t: nat, m: nat)
    requires Sorted(ps) && AllPairs(ps, cs, n) && t < |ps| && m == if t == 0 then 0 else ps[t - 1].column + 1
    ensures m <= ps[t].column + 1
    ensures ps[t].column < m ==> Lowest(cs, n, ps[t].column, 0).Some?
    ensures ps[t].column >= m ==>
              && (forall i :: m <= i < ps[t].column ==> Lowest(cs, n, i, 0).None?)
              && Lowest(cs, n, ps[t].column, 0) == Some(ps[t].index)
  {
    var p := ps[t];
    assert p in ps;
    var own := Lowest(cs, n, p.column, 0);
    if t > 0 { assert Before(ps[t - 1], ps[t]); }
    if p.column >= m {
      forall i | m <= i < p.column ensures Lowest(cs, n, i, 0).None? {
        var low := Lowest(cs, n, i, 0);
        if low.Some? { PairPlace(ps, cs, n, t, m, Pair(i, low.value)); }
      }
      PairPlace(ps, cs, n, t, m, Pair(p.column, own.value));
    }
  }

  /** A pair with a column not done yet is not before the next one. */
  lemma PairPlace(ps: seq<Pair>, cs: seq<Constraint>, n: nat, t: nat, m: nat, q: Pair)
    requires Sorted(ps) && AllPairs(ps, cs, n) && t < |ps| && m == if t == 0 then 0 else ps[t - 1].column + 1
    requires q.index < |cs| && OnParameter(cs[q.index], n) && cs[q.index].column == q.column >= m
    ensures q == ps[t] || Before(ps[t], q)
  {
  }

  /** Nothing is left to choose once all pairs are done. */
  lemma NoMorePairs(ps: seq<Pair>, cs: seq<Constraint>, n: nat, m: nat, i: nat)
    requires Sorted(ps) && AllPairs(ps, cs, n) && m == if ps == [] then 0 else ps[|ps| - 1].column + 1
    requires m <= i
    ensures Lowest(cs, n, i, 0).None?
  {
    forall u | 0 <= u < |ps| ensures ps[u].column < m {
      if u < |ps| - 1 { assert Before(ps[u], ps[|ps| - 1]); }
    }
    forall c | 0 <= c < |cs| && OnParameter(cs[c], n) ensures cs[c].column != i {
      assert Pair(cs[c].column, c) in ps;
    }
  }

  lemma EncodesSkips(idxNum: nat, argvIndex: seq<nat>, omit: seq<bool>, cs: seq<Constraint>, n: nat, m: nat, m': nat,
                     chosen: seq<nat>)
    requires Encodes(idxNum, argvIndex, omit, cs, n, m, chosen) && m <= m'
    requires forall i :: m <= i < m' ==> Lowest(cs, n, i, 0).None?
    ensures Encodes(idxNum, argvIndex, omit, cs, n, m', chosen)
  {
    ChosenSkips(cs, n, m, m');
  }

  lemma EncodesNext(idxNum: nat, argvIndex: seq<nat>, omit: seq<bool>, cs: seq<Constraint>, n: nat, m: nat, c: nat,
                    chosen: seq<nat>)
    requires Encodes(idxNum, argvIndex, omit, cs, n, m, chosen) && Lowest(cs, n, m, 0) == Some(c)
    ensures Encodes(SetBit(idxNum, m), argvIndex[c := |chosen| + 1], omit[c := true], cs, n, m + 1, chosen + [c])
  {
    NotYetChosen(cs, n, m, c);
    FlagsNext(idxNum, cs, n, m);
    NumberedNext(argvIndex, omit, |cs|, chosen, c);
  }

  /** The second loop: each parameter takes the first of its pairs. */
  method Assign(ps: seq<Pair>, cs: seq<Constraint>, n: nat) returns (idxNum: nat, argvIndex: seq<nat>, omit: seq<bool>)
    requires Sorted(ps) && AllPairs(ps, cs, n)
    ensures Encodes(idxNum, argvIndex, omit, cs, n, n, Chosen(cs, n, n))
    ensures idxNum < Pow2(n)
  {
    idxNum, argvIndex, omit := 0, seq(|cs|, _ => 0), seq(|cs|, _ => false);
    var argumentCount := 0;
    ghost var m := 0;
    PowPositive(n);
    assert Encodes(0, argvIndex, omit, cs, n, 0, []) by {
      forall i: nat ensures !Has(0, i) { NoBits(i); }
    }
    for t := 0 to |ps|
      invariant m == (if t == 0 then 0 else ps[t - 1].column + 1) && m <= n
      invariant Encodes(idxNum, argvIndex, omit, cs, n, m, Chosen(cs, n, m)) && argumentCount == |Chosen(cs, n, m)|
      invariant idxNum < Pow2(n)
    {
      var pair := ps[t];
      assert pair in ps;
      NextPair(ps, cs, n, t, m);
      if !Has(idxNum, pair.column) {
        ghost var chosen := Chosen(cs, n, m);
        EncodesSkips(idxNum, argvIndex, omit, cs, n, m, pair.column, chosen);
        EncodesNext(idxNum, argvIndex, omit, cs, n, pair.column, pair.index, chosen);
        SetBitFits(idxNum, pair.column, n);
        idxNum := SetBit(idxNum, pair.column);
        argumentCount := argumentCount + 1;
        argvIndex := argvIndex[pair.index := argumentCount];
        omit := omit[pair.index := true];
      }
      m := pair.column + 1;
    }
    forall i | m <= i < n ensures Lowest(cs, n, i, 0).None? { NoMorePairs(ps, cs, n, m, i); }
    EncodesSkips(idxNum, argvIndex, omit, cs, n, m, n, Chosen(cs, n, m));
  }

  lemma {:induction false} PowPositive(n: nat)
    ensures Pow2(n) > 0
  {
    if n > 0 { PowPositive(n - 1); }
  }

  /** The plan for a list of constraints, or the error of the first one that cannot be forwarded. */
  method BestIndex(n: nat, cs: seq<Constraint>) returns (plan: Plan)
    requires n <= MAX_PARAMETERS
    ensures plan.Index? <==> forall c :: 0 <= c < |cs| ==> !Rejected(cs[c], n)
    ensures plan.Index? <==> forall c :: 0 <= c < |cs| && 0 <= cs[c].column < n ==>
                                (cs[c].op.Eq? && cs[c].usable) || cs[c].op.Limit? || cs[c].op.Offset?
    ensures plan.Index? ==>
              && Encodes(plan.idxNum, plan.argvIndex, plan.omit, cs, n, n, Chosen(cs, n, n))
              && plan.idxNum < Pow2(n)
    ensures !plan.Index? ==>
              exists c :: 0 <= c < |cs| && Rejected(cs[c], n) && (forall b :: 0 <= b < c ==> !Rejected(cs[b], n))
                          && plan == if cs[c].op.Eq? then Unusable else Error
  {
    var forwarded, failure := Forward(cs, n);
    if failure.Some? {
      return failure.value;
    }
    var ps := SortPairs(forwarded);
    SortSorted(forwarded);
    forall p ensures p in ps <==> p.index < |cs| && OnParameter(cs[p.index], n) && cs[p.index].column == p.column {
      PairsOfAll(cs, n, p);
      assert p in ps <==> p in multiset(ps);
      assert p in forwarded <==> p in multiset(forwarded);
    }
    var idxNum, argvIndex, omit := Assign(ps, cs, n);
    plan := Index(idxNum, argvIndex, omit);
  }

  // ---------------------------------------------------------------------------
  // xFilter
  // ---------------------------------------------------------------------------

  /** The generator's arguments, `None` for undefined; a NULL argument makes the result empty. */
  datatype Scan = Empty | Generate(args: seq<Option<Value>>)

  /** Set bits below `m`. */
  function Rank(bits: nat, m: nat): nat {
    if m == 0 then 0 else Rank(bits, m - 1) + if Has(bits, m - 1) then 1 else 0
  }

  lemma {:induction false} RankGrows(bits: nat, i: nat, m: nat)
    requires i < m && Has(bits, i)
    ensures Rank(bits, i) < Rank(bits, m)
  {
    if i < m - 1 { RankGrows(bits, i, m - 1); }
  }

  function Slot(bits: nat, argv: seq<Value>, i: nat): Option<Value> {
    if Has(bits, i) && Rank(bits, i) < |argv| then Some(argv[Rank(bits, i)]) else None
  }

  function Slots(bits: nat, argv: seq<Value>, n: nat): seq<Option<Value>> {
    seq(n, i requires 0 <= i < n => Slot(bits, argv, i))
  }

  /** Arguments are unpacked in order of the parameters; SQLite passes one per set bit. */
  method Filter(idxNum: nat, n: nat, argv: seq<Value>) returns (scan: Scan)
    requires |argv| == Rank(idxNum, n)
    ensures scan == if Some(Null) in Slots(idxNum, argv, n) then Empty else Generate(Slots(idxNum, argv, n))
  {
    var args: seq<Option<Value>> := [];
    var argn := 0;
    for i := 0 to n
      invariant argn == Rank(idxNum, i) && args == Slots(idxNum, argv, i) && Some(Null) !in args
    {
      if Has(idxNum, i) {
        RankGrows(idxNum, i, n);
        var value := argv[argn];
        argn := argn + 1;
        if value == Null {
          assert Slots(idxNum, argv, n)[i] == Some(Null);
          return Empty;
        }
        args := args + [Some(value)];
      } else {
        args := args + [None];
      }
    }
    scan := Generate(args);
  }

  // ---------------------------------------------------------------------------
  // The two together
  // ---------------------------------------------------------------------------

  /** How SQLite passes values: the value of each constraint at the position it was given. */
  ghost predicate Passed(argvIndex: seq<nat>, values: seq<Value>, argv: seq<Value>)
    requires |argvIndex| == |values|
  {
    forall c :: 0 <= c < |argvIndex| && argvIndex[c] > 0 ==>
      argvIndex[c] <= |argv| && argv[argvIndex[c] - 1] == values[c]
  }

  lemma {:induction false} RankIsChosen(idxNum: nat, argvIndex: seq<nat>, omit: seq<bool>, cs: seq<Constraint>,
                                        n: nat, m: nat)
    requires Encodes(idxNum, argvIndex, omit, cs, n, n, Chosen(cs, n, n)) && m <= n
    ensures Rank(idxNum, m) == |Chosen(cs, n, m)|
    decreases m
  {
    if m > 0 { RankIsChosen(idxNum, argvIndex, omit, cs, n, m - 1); }
  }

  lemma {:induction false} ChosenPrefix(cs: seq<Constraint>, n: nat, m: nat, k: nat)
    requires m <= k
    ensures Chosen(cs, n, m) <= Chosen(cs, n, k)
  {
    if m < k { ChosenPrefix(cs, n, m, k - 1); }
  }

  lemma ChosenAt(cs: seq<Constraint>, n: nat, i: nat)
    requires i < n && Lowest(cs, n, i, 0).Some?
    ensures var r := |Chosen(cs, n, i)|;
            r < |Chosen(cs, n, n)| && Chosen(cs, n, n)[r] == Lowest(cs, n, i, 0).value
  {
    ChosenPrefix(cs, n, i + 1, n);
  }

  lemma PassedAt(plan: Plan, cs: seq<Constraint>, n: nat, chosen: seq<nat>, values: seq<Value>, argv: seq<Value>,
                 r: nat)
    requires plan.Index? && Encodes(plan.idxNum, plan.argvIndex, plan.omit, cs, n, n, chosen)
    requires |values| == |cs| && Passed(plan.argvIndex, values, argv) && |argv| == |chosen| && r < |chosen|
    ensures chosen[r] < |values| && argv[r] == values[chosen[r]]
  {
  }

  /** The constraint gives column `i` a value. */
  predicate Binds(c: Constraint, i: nat) {
    c.column == i && !c.op.Limit? && !c.op.Offset?
  }

  /** Every slot gets the value of the lowest-numbered constraint on its parameter, or undefined if
      there is none; as many values are passed as there are such parameters. */
  lemma ArgumentsArrive(plan: Plan, cs: seq<Constraint>, n: nat, values: seq<Value>, argv: seq<Value>, i: nat)
    requires plan.Index? && Encodes(plan.idxNum, plan.argvIndex, plan.omit, cs, n, n, Chosen(cs, n, n))
    requires |values| == |cs| && Passed(plan.argvIndex, values, argv) && |argv| == |Chosen(cs, n, n)| && i < n
    ensures |argv| == Rank(plan.idxNum, n)
    ensures Slots(plan.idxNum, argv, n)[i] ==
            match Lowest(cs, n, i, 0) case None => None case Some(c) => Some(values[c])
  {
    RankIsChosen(plan.idxNum, plan.argvIndex, plan.omit, cs, n, n);
    RankIsChosen(plan.idxNum, plan.argvIndex, plan.omit, cs, n, i);
    if Lowest(cs, n, i, 0).Some? {
      ChosenAt(cs, n, i);
      PassedAt(plan, cs, n, Chosen(cs, n, n), values, argv, |Chosen(cs, n, i)|);
    }
  }

  /** Said of the constraints alone: parameter `i` gets the value of the first constraint that binds it, and is
      undefined exactly if none does. */
  lemma FirstBindingArrives(plan: Plan, cs: seq<Constraint>, n: nat, values: seq<Value>, argv: seq<Value>, i: nat)
    requires plan.Index? && Encodes(plan.idxNum, plan.argvIndex, plan.omit, cs, n, n, Chosen(cs, n, n))
    requires |values| == |cs| && Passed(plan.argvIndex, values, argv) && |argv| == |Chosen(cs, n, n)| && i < n
    ensures Slots(plan.idxNum, argv, n)[i].None? <==> forall c :: 0 <= c < |cs| ==> !Binds(cs[c], i)
    ensures forall c :: 0 <= c < |cs| && FirstBinding(cs, i, c) ==> Slots(plan.idxNum, argv, n)[i] == Some(values[c])
  {
    ArgumentsArrive(plan, cs, n, values, argv, i);
    LowestBinds(cs, n, i);
  }

  ghost predicate FirstBinding(cs: seq<Constraint>, i: nat, c: int)
    requires 0 <= c < |cs|
  {
    Binds(cs[c], i) && forall b :: 0 <= b < c ==> !Binds(cs[b], i)
  }

  lemma LowestBinds(cs: seq<Constraint>, n: nat, i: nat)
    requires i < n
    ensures var low := Lowest(cs, n, i, 0);
            && (low.None? <==> forall c :: 0 <= c < |cs| ==> !Binds(cs[c], i))
            && forall c :: 0 <= c < |cs| && FirstBinding(cs, i, c) ==> low == Some(c)
  {
    var low := Lowest(cs, n, i, 0);
    assert forall c :: 0 <= c < |cs| ==> (Binds(cs[c], i) <==> OnParameter(cs[c], n) && cs[c].column == i);
    if low.Some? {
      assert Binds(cs[low.value], i);
      forall c | 0 <= c < |cs| && FirstBinding(cs, i, c) ensures low == Some(c) {
        assert c <= low.value;
      }
    }
  }
}
