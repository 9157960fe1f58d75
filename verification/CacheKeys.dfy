/** The key a cache lookup derives from the call's arguments, against what the binder bound. */
module CacheKeys {
  import opened Values
  import opened Binding

  /** What the key loop reads from an argument: like binding, but any object is one NULL. */
  function KeyParts(arg: Arg): seq<Value> {
    match arg
    case Scalar(js) => [js.value]
    case Array(elems) => ValuesOf(elems)
    case _ => [Null]
  }

  function AllKeyParts(args: seq<Arg>): seq<Value> {
    if args == [] then [] else AllKeyParts(args[..|args| - 1]) + KeyParts(args[|args| - 1])
  }

  /** The first `n` values, the rest NULL. */
  function Padded(values: seq<Value>, n: nat): (keys: seq<Value>) {
    seq(n, i => if 0 <= i < |values| then values[i] else Null)
  }

  lemma PaddedNext(values: seq<Value>, v: Value, n: nat)
    requires |values| < n
    ensures Padded(values + [v], n) == Padded(values, n)[|values| := v]
  {
  }

  function Min(a: nat, b: nat): nat {
    if a < b then a else b
  }

  /** The key array of a cache lookup: a nested index loop over arguments and array elements. */
  method ExtractKeys(paramCount: nat, args: seq<Arg>) returns (keys: seq<Value>)
    ensures keys == Padded(AllKeyParts(args), paramCount)
  {
    keys := seq(paramCount, _ => Null);
    var i, infoIndex := 0, 0;
    while i < paramCount && infoIndex < |args|
      invariant 0 <= infoIndex <= |args|
      invariant i == Min(|AllKeyParts(args[..infoIndex])|, paramCount)
      invariant keys == Padded(AllKeyParts(args[..infoIndex]), paramCount)
      decreases |args| - infoIndex
    {
      ghost var done := AllKeyParts(args[..infoIndex]);
      assert args[..infoIndex + 1][..infoIndex] == args[..infoIndex];
      var arg := args[infoIndex];
      match arg {
        case Array(elems) =>
          keys, i := ExtractElements(keys, i, elems, done);
          i := i - 1;
        case Scalar(js) =>
          keys := keys[i := js.value];
          PaddedNext(done, js.value, paramCount);
        case _ =>
          keys := keys[i := Null];
          PaddedNext(done, Null, paramCount);
      }
      infoIndex := infoIndex + 1;
      i := i + 1;
    }
    KeyPartsPrefix(args, infoIndex);
    assert args[..|args|] == args;
  }

  /** The inner loop: elements until either they or the parameters run out. */
  method ExtractElements(keys0: seq<Value>, start: nat, elems: seq<Option<Js>>, ghost done: seq<Value>)
    returns (keys: seq<Value>, i: nat)
    requires start == |done| < |keys0| && keys0 == Padded(done, |keys0|)
    ensures keys == Padded(done + ValuesOf(elems), |keys0|) && i == Min(|done + ValuesOf(elems)|, |keys0|)
  {
    keys, i := keys0, start;
    var j := 0;
    while j < |elems| && i < |keys0|
      invariant 0 <= j <= |elems| && i == start + j <= |keys0| == |keys|
      invariant forall m :: 0 <= m < |keys| ==> keys[m] == if m < i then (done + ValuesOf(elems))[m] else Null
    {
      keys := keys[i := ValueOf(elems[j])];
      j, i := j + 1, i + 1;
    }
  }

  lemma {:induction false} KeyPartsPrefix(args: seq<Arg>, n: nat)
    requires n <= |args|
    ensures AllKeyParts(args[..n]) <= AllKeyParts(args)
  {
    if n == |args| {
      assert args[..n] == args;
    } else {
      KeyPartsPrefix(args[..|args| - 1], n);
      assert args[..|args| - 1][..n] == args[..n];
    }
  }

  // ---------------------------------------------------------------------------
  // Keys against bound values
  // ---------------------------------------------------------------------------

  /** The key holds at each position the value bound to that parameter. */
  ghost predicate Agree(bound: seq<Bound>, keys: seq<Value>) {
    forall j :: 0 <= j < |bound| ==> 1 <= bound[j].index <= |keys| && keys[bound[j].index - 1] == bound[j].value
  }

  ghost predicate KeysAgree(names: Names, args: seq<Arg>)
    requires Complete(names, args)
  {
    Agree(Layout(names, args), Padded(AllKeyParts(args), |names|))
  }

  predicate Anonymous(names: Names) {
    forall i :: 0 <= i < |names| ==> names[i].None?
  }

  /** No object comes before a positional value. */
  predicate ObjectsLast(args: seq<Arg>) {
    forall i, j :: 0 <= i < j < |args| && !args[i].Scalar? && !args[i].Array? ==> PositionalOf(args[j]) == []
  }

  predicate NoObjects(args: seq<Arg>) {
    forall i :: 0 <= i < |args| ==> args[i].Scalar? || args[i].Array?
  }

  /** The same arguments up to the values in them. */
  predicate SameShape(a: Arg, b: Arg) {
    match (a, b)
    case (Scalar(_), Scalar(_)) => true
    case (Array(xs), Array(ys)) => |xs| == |ys|
    case (Plain(p), Plain(q)) => p.Keys == q.Keys
    case (Other, Other) => true
    case _ => false
  }

  predicate SameShapes(args: seq<Arg>, args': seq<Arg>) {
    |args| == |args'| && forall i :: 0 <= i < |args| ==> SameShape(args[i], args'[i])
  }

  lemma {:induction false} KeyPartsArePositional(args: seq<Arg>)
    requires NoObjects(args)
    ensures AllKeyParts(args) == ValuesOf(Positional(args))
  {
    if args != [] { KeyPartsArePositional(args[..|args| - 1]); }
  }

  /** With the object behind all positional values, the key starts with them. */
  lemma {:induction false} KeyPartsStart(args: seq<Arg>)
    requires ObjectsLast(args)
    ensures ValuesOf(Positional(args)) <= AllKeyParts(args)
  {
    if args != [] {
      var front, last := args[..|args| - 1], args[|args| - 1];
      KeyPartsStart(front);
      if NoObjects(front) {
        KeyPartsArePositional(front);
        assert ValuesOf(Positional(args)) == ValuesOf(Positional(front)) + ValuesOf(PositionalOf(last));
      } else {
        var i :| 0 <= i < |front| && !front[i].Scalar? && !front[i].Array?;
        assert !args[i].Scalar? && !args[i].Array?;
        assert PositionalOf(last) == [] && Positional(args) == Positional(front);
      }
    }
  }

  lemma {:induction false} AnonymousRank(names: Names, i: nat, j: nat)
    requires Anonymous(names) && j < |Anon(names, i)|
    ensures Anon(names, i)[j] == i + j + 1
    decreases j
  {
    if j > 0 { AnonymousRank(names, i + 1, j - 1); }
  }

  lemma {:induction false} AnonymousCount(names: Names, i: nat)
    requires Anonymous(names) && i <= |names|
    ensures |Anon(names, i)| == |names| - i
    decreases |names| - i
  {
    if i < |names| { AnonymousCount(names, i + 1); }
  }

  lemma {:induction false} AnonymousPairs(names: Names)
    requires Anonymous(names)
    ensures NamedPairs(names) == []
  {
    if names != [] { AnonymousPairs(names[..|names| - 1]); }
  }

  /** With only anonymous parameters and no object before a positional value, the key at each position is
      exactly the value bound there. */
  lemma KeysAreBoundValues(names: Names, args: seq<Arg>)
    requires Anonymous(names) && ObjectsLast(args) && Complete(names, args)
    ensures KeysAgree(names, args)
  {
    CompleteFits(names, args);
    KeyPartsStart(args);
    AnonymousCount(names, 0);
    AnonymousPairs(names);
    var bound, keys := Layout(names, args), Padded(AllKeyParts(args), |names|);
    forall j | 0 <= j < |bound| ensures 1 <= bound[j].index <= |keys| && keys[bound[j].index - 1] == bound[j].value {
      AnonymousRank(names, 0, j);
      assert ValuesOf(Positional(args))[j] == AllKeyParts(args)[j];
    }
  }

  // ---------------------------------------------------------------------------
  // Nothing less will do
  // ---------------------------------------------------------------------------

  const ONE := Js(Integer(1), true)

  /** The argument with 1 for every value in it. */
  function Ones(arg: Arg): (a: Arg)
    ensures SameShape(arg, a) && |PositionalOf(a)| == |PositionalOf(arg)|
  {
    match arg
    case Scalar(_) => Scalar(ONE)
    case Array(elems) => Array(seq(|elems|, _ => Some(ONE)))
    case Plain(props) => Plain(map k | k in props :: Some(ONE))
    case Other => Other
  }

  function AllOnes(args: seq<Arg>): (r: seq<Arg>)
    ensures |r| == |args|
  {
    seq(|args|, i requires 0 <= i < |args| => Ones(args[i]))
  }

  lemma {:induction false} OnesPositional(args: seq<Arg>)
    ensures |Positional(AllOnes(args))| == |Positional(args)|
    ensures forall i :: 0 <= i < |Positional(args)| ==> Positional(AllOnes(args))[i] == Some(ONE)
    ensures Plains(AllOnes(args)) == Plains(args)
    ensures ObjectOf(AllOnes(args)).Some? == ObjectOf(args).Some?
    ensures ObjectOf(args).Some? ==> ObjectOf(AllOnes(args)).value == map k | k in ObjectOf(args).value :: Some(ONE)
  {
    if args != [] {
      var front, last := args[..|args| - 1], args[|args| - 1];
      assert AllOnes(args)[..|args| - 1] == AllOnes(front);
      OnesPositional(front);
    }
  }

  lemma OnesComplete(names: Names, args: seq<Arg>)
    requires Complete(names, args)
    ensures Complete(names, AllOnes(args)) && SameShapes(args, AllOnes(args))
  {
    AcceptsExactly(names, args);
    AcceptsExactly(names, AllOnes(args));
    OnesPositional(args);
    forall i | 0 <= i < |args| ensures Ordinary(AllOnes(args)[i]) { assert Ordinary(args[i]); }
  }

  /** Every parameter is bound to 1. */
  lemma BoundToOne(names: Names, args: seq<Arg>, k: nat) returns (j: nat)
    requires Complete(names, args) && Complete(names, AllOnes(args)) && 1 <= k <= |names|
    ensures j < |Layout(names, AllOnes(args))| && Layout(names, AllOnes(args))[j] == Bound(k, Integer(1))
  {
    OnesPositional(args);
    if names[k - 1].None? {
      j := NamelessBound(names, AllOnes(args), k);
    } else {
      j := NamedBound(names, AllOnes(args), k);
    }
  }

  /** An object's place in the key is as many positions on as there are positional values before it. */
  lemma NullAtObject(args: seq<Arg>, i: nat)
    requires i < |args| && NoObjects(args[..i]) && args[i].Plain?
    ensures |Positional(args[..i])| < |AllKeyParts(args)| && AllKeyParts(args)[|Positional(args[..i])|] == Null
  {
    KeyPartsArePositional(args[..i]);
    KeyPartsPrefix(args, i + 1);
    assert args[..i + 1][..i] == args[..i];
    assert AllKeyParts(args[..i + 1]) == AllKeyParts(args[..i]) + [Null];
  }

  lemma OnesBefore(args: seq<Arg>, i: nat)
    requires i < |args| && NoObjects(args[..i])
    ensures NoObjects(AllOnes(args)[..i]) && |Positional(AllOnes(args)[..i])| == |Positional(args[..i])|
  {
    var ones := AllOnes(args);
    assert ones[..i] == AllOnes(args[..i]);
    OnesPositional(args[..i]);
    forall k | 0 <= k < i ensures ones[..i][k].Scalar? || ones[..i][k].Array? {
      assert args[..i][k].Scalar? || args[..i][k].Array?;
    }
  }

  /** So if that is before the last parameter, some choice of values breaks the key. */
  lemma ObjectBreaksKey(names: Names, args: seq<Arg>, i: nat)
    requires Complete(names, args) && i < |args| && NoObjects(args[..i]) && args[i].Plain?
    requires |Positional(args[..i])| < |names|
    ensures Complete(names, AllOnes(args)) && SameShapes(args, AllOnes(args)) && !KeysAgree(names, AllOnes(args))
  {
    OnesComplete(names, args);
    var ones, z := AllOnes(args), |Positional(args[..i])|;
    OnesBefore(args, i);
    NullAtObject(ones, i);
    var j := BoundToOne(names, args, z + 1);
    assert Padded(AllKeyParts(ones), |names|)[z] == Null;
  }

  lemma {:induction false} PositionalPrefix(args: seq<Arg>, n: nat)
    requires n <= |args|
    ensures |Positional(args[..n])| <= |Positional(args)|
    ensures forall b :: n <= b < |args| && PositionalOf(args[b]) != [] ==> |Positional(args[..n])| < |Positional(args)|
  {
    if n == |args| {
      assert args[..n] == args;
    } else {
      var front := args[..|args| - 1];
      PositionalPrefix(front, n);
      assert front[..n] == args[..n];
      assert forall b :: 0 <= b < |front| ==> front[b] == args[b];
    }
  }

  lemma {:induction false} ObjectAt(args: seq<Arg>) returns (i: nat)
    requires ObjectOf(args).Some?
    ensures i < |args| && args[i].Plain?
  {
    i := |args| - 1;
    if !args[i].Plain? {
      i := ObjectAt(args[..|args| - 1]);
    }
  }

  lemma {:induction false} FirstObject(args: seq<Arg>, a: nat) returns (i: nat)
    requires a < |args| && args[a].Plain? && forall k :: 0 <= k < |args| ==> Ordinary(args[k])
    ensures i <= a && NoObjects(args[..i]) && args[i].Plain?
    decreases a
  {
    if NoObjects(args[..a]) {
      i := a;
    } else {
      var b :| 0 <= b < a && !args[..a][b].Scalar? && !args[..a][b].Array?;
      assert Ordinary(args[b]);
      i := FirstObject(args, b);
    }
  }

  /** The object comes early enough to push some bound value out of its place in the key. */
  lemma ObjectIsEarly(names: Names, args: seq<Arg>) returns (i: nat)
    requires Complete(names, args) && !(Anonymous(names) && ObjectsLast(args))
    ensures i < |args| && NoObjects(args[..i]) && args[i].Plain? && |Positional(args[..i])| < |names|
  {
    CompleteFits(names, args);
    AcceptsExactly(names, args);
    NamedAndNameless(names);
    AnonCount(names, 0);
    if Anonymous(names) {
      var a, b :| 0 <= a < b < |args| && !args[a].Scalar? && !args[a].Array? && PositionalOf(args[b]) != [];
      assert Ordinary(args[a]);
      i := FirstObject(args, a);
      AnonymousCount(names, 0);
    } else {
      var k :| 0 <= k < |names| && names[k].Some?;
      var _ := NamedHas(names, k + 1);
      var a := ObjectAt(args);
      i := FirstObject(args, a);
    }
    PositionalPrefix(args, i);
  }

  /** A complete bind and the key agree whatever the values are exactly when no parameter is named and no
      object comes before a positional value. */
  lemma KeysAgreeExactly(names: Names, args: seq<Arg>)
    requires Complete(names, args)
    ensures (forall args' :: SameShapes(args, args') && Complete(names, args') ==> KeysAgree(names, args')) <==>
            Anonymous(names) && ObjectsLast(args)
  {
    if Anonymous(names) && ObjectsLast(args) {
      forall args' | SameShapes(args, args') && Complete(names, args') ensures KeysAgree(names, args') {
        ShapeKeepsOrder(args, args');
        KeysAreBoundValues(names, args');
      }
    } else {
      var i := ObjectIsEarly(names, args);
      ObjectBreaksKey(names, args, i);
    }
  }

  lemma ShapeKeepsOrder(args: seq<Arg>, args': seq<Arg>)
    requires SameShapes(args, args') && ObjectsLast(args)
    ensures ObjectsLast(args')
  {
    forall i, j | 0 <= i < j < |args'| && !args'[i].Scalar? && !args'[i].Array? ensures PositionalOf(args'[j]) == [] {
      assert SameShape(args[i], args'[i]) && SameShape(args[j], args'[j]);
      assert PositionalOf(args[j]) == [];
    }
  }

  /** One named parameter: its object binds it and leaves NULL in the key. */
  lemma ObjectKeyIsNull(name: string, js: Js)
    requires js.bindable && js.value != Null
    ensures var args := [Plain(map[name := Some(js)])];
            && Complete([Some(name)], args) && Layout([Some(name)], args) == [Bound(1, js.value)]
            && Padded(AllKeyParts(args), 1) == [Null]
  {
    var names: Names := [Some(name)];
    var props := map[name := Some(js)];
    var args := [Plain(props)];
    assert args[..0] == [] && names[..0] == [];
    assert NamedPairs(names) == [Pair(name, 1)];
    assert NextAnon(names, 0) == NextAnon(names, 1) == 2;
    assert Anon(names, 0) == [];
    assert args[|args| - 1] == Plain(props);
    assert ObjectOf(args) == Some(args[|args| - 1].props);
    assert Positional(args) == [];
    assert Good(props[name]);
    assert Provides(props, NamedPairs(names));
    assert AcceptsNext(names, args[..0], args[0]);
    assert Accepts(names, args);
    assert AllKeyParts(args) == [Null];
  }

  predicate PositionalNull(args: seq<Arg>) {
    forall i :: 0 <= i < |Positional(args)| ==> ValueOf(Positional(args)[i]) == Null
  }

  /** The object's values for the named parameters are NULL. */
  predicate NamedNull(names: Names, obj: Option<map<string, Option<Js>>>) {
    forall k :: 0 <= k < |names| && names[k].Some? ==>
      obj.Some? && names[k].value in obj.value && ValueOf(obj.value[names[k].value]) == Null
  }

  lemma NamedEntry(names: Names, props: map<string, Option<Js>>, pairs: seq<Pair>, l: nat)
    requires PairsOf(names, pairs) && Provides(props, pairs) && l < |pairs| && NamedNull(names, Some(props))
    ensures NamedValues(props, pairs)[l].value == Null && 1 <= NamedValues(props, pairs)[l].index <= |names|
  {
    var k := pairs[l].index - 1;
    assert names[k] == Some(pairs[l].name);
  }

  lemma ZippedEntry(names: Names, indices: seq<nat>, xs: seq<Option<Js>>, j: nat)
    requires NamelessAfter(names, 0, indices) && j < |xs| <= |indices|
    ensures Zip(indices, ValuesOf(xs))[j].value == ValueOf(xs[j]) && 1 <= Zip(indices, ValuesOf(xs))[j].index <= |names|
  {
  }

  lemma NullsAgree(names: Names, args: seq<Arg>, j: nat)
    requires Complete(names, args) && j < |Layout(names, args)|
    requires PositionalNull(args) && NamedNull(names, ObjectOf(args))
    ensures Layout(names, args)[j].value == Null && 1 <= Layout(names, args)[j].index <= |names|
  {
    CompleteFits(names, args);
    AcceptsFits(names, args);
    AnonInRange(names, 0);
    var xs := Positional(args);
    if j < |xs| {
      ZippedEntry(names, Anon(names, 0), xs, j);
    } else {
      NamedInRange(names);
      NamedEntry(names, ObjectOf(args).value, NamedPairs(names), j - |xs|);
      AtRight(Zip(Anon(names, 0), ValuesOf(xs)), ObjectValues(names, ObjectOf(args)), j - |xs|);
    }
  }

  lemma AgreedAreNull(names: Names, args: seq<Arg>)
    requires Complete(names, args) && Agree(Layout(names, args), Padded([], |names|))
    ensures PositionalNull(args) && NamedNull(names, ObjectOf(args))
  {
    CompleteFits(names, args);
    AnonInRange(names, 0);
    forall i | 0 <= i < |Positional(args)| ensures ValueOf(Positional(args)[i]) == Null {
      assert Layout(names, args)[i].value == ValueOf(Positional(args)[i]);
    }
    forall k | 0 <= k < |names| && names[k].Some?
      ensures ObjectOf(args).Some? && names[k].value in ObjectOf(args).value
      ensures ValueOf(ObjectOf(args).value[names[k].value]) == Null
    {
      var j := NamedBound(names, args, k + 1);
    }
  }

  /** A statement bound beforehand is called without arguments, and the lookup written for `all` reads none; the
      key then agrees with what is bound exactly when that is NULL throughout. */
  lemma BoundBeforehand(names: Names, args: seq<Arg>)
    requires Complete(names, args)
    ensures Agree(Layout(names, args), Padded(AllKeyParts([]), |names|)) <==>
            PositionalNull(args) && NamedNull(names, ObjectOf(args))
  {
    var bound, keys := Layout(names, args), Padded([], |names|);
    if PositionalNull(args) && NamedNull(names, ObjectOf(args)) {
      forall j | 0 <= j < |bound| ensures 1 <= bound[j].index <= |keys| && keys[bound[j].index - 1] == bound[j].value {
        NullsAgree(names, args, j);
      }
    }
    if Agree(bound, keys) { AgreedAreNull(names, args); }
  }
}
