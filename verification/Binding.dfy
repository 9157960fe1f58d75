/** Binding call arguments to statement parameters, and re-deriving the cache key from them. */
module Binding {
  import opened Values

  const INT_MAX := 0x7fff_ffff

  /** A JavaScript value and whether SQLite takes it: of a type it knows, and not too big. */
  datatype Js = Js(value: Value, bindable: bool)

  /** Reading an element or a property may throw: `None`. `Other` is an object that is not plain. */
  datatype Arg =
    | Scalar(js: Js)
    | Array(elems: seq<Option<Js>>)
    | Plain(props: map<string, Option<Js>>)
    | Other

  datatype Pair = Pair(name: string, index: nat)

  /** Name of every parameter, without its prefix character; `None` for a plain `?`. */
  type Names = seq<Option<string>>

  // ---------------------------------------------------------------------------
  // Growable array of the named parameters
  // ---------------------------------------------------------------------------

  class BindMap {
    var pairs: array<Pair>
    var length: nat

    ghost predicate Valid()
      reads this
    {
      length <= pairs.Length
    }

    ghost function Contents(): seq<Pair>
      requires Valid()
      reads this, pairs
    {
      pairs[..length]
    }

    constructor ()
      ensures Valid() && Contents() == [] && fresh(pairs)
    {
      pairs := new Pair[0];
      length := 0;
    }

    /** Twice the capacity with bit 1 set; nothing is lost or reordered. */
    method Grow()
      requires Valid() && length == pairs.Length
      modifies this
      ensures Valid() && fresh(pairs) && length < pairs.Length && Contents() == old(Contents())
    {
      var capacity := 2 * length + (if length % 2 == 0 then 2 else 0);
      var grown := new Pair[capacity](_ => Pair("", 0));
      for i := 0 to length
        invariant unchanged(this) && unchanged(pairs) && fresh(grown)
        invariant grown[..i] == pairs[..i]
      {
        grown[i] := pairs[i];
      }
      pairs := grown;
    }

    method Add(name: string, index: nat)
      requires Valid()
      modifies this, pairs
      ensures Valid() && (pairs == old(pairs) || fresh(pairs))
      ensures Contents() == old(Contents()) + [Pair(name, index)]
    {
      if length == pairs.Length {
        Grow();
      }
      pairs[length] := Pair(name, index);
      length := length + 1;
    }
  }

  /** Named parameters in order of their index. */
  function NamedPairs(names: Names): seq<Pair> {
    if names == [] then []
    else
      var i := |names|;
      NamedPairs(names[..i - 1]) + match names[i - 1] case None => [] case Some(n) => [Pair(n, i)]
  }

  method GetBindMap(names: Names) returns (bindMap: BindMap)
    ensures fresh(bindMap) && fresh(bindMap.pairs) && bindMap.Valid() && bindMap.Contents() == NamedPairs(names)
  {
    bindMap := new BindMap();
    for i := 1 to |names| + 1
      invariant fresh(bindMap) && fresh(bindMap.pairs) && bindMap.Valid()
      invariant bindMap.Contents() == NamedPairs(names[..i - 1])
    {
      if names[i - 1].Some? {
        bindMap.Add(names[i - 1].value, i);
      }
      assert names[..i][..i - 1] == names[..i - 1];
    }
    assert names[..|names|] == names;
  }

  // ---------------------------------------------------------------------------
  // Which value belongs where
  // ---------------------------------------------------------------------------

  /** First nameless parameter after `i`; beyond the last one every index counts as nameless. */
  function NextAnon(names: Names, i: nat): (k: nat)
    ensures k > i && (k <= |names| ==> names[k - 1].None?)
    ensures forall j :: i <= j < k - 1 && j < |names| ==> names[j].Some?
    decreases |names| - i
  {
    if i + 1 > |names| || names[i].None? then i + 1 else NextAnon(names, i + 1)
  }

  /** Nameless parameters after `i`, in increasing order. */
  function Anon(names: Names, i: nat): seq<nat>
    decreases |names| - i
  {
    var k := NextAnon(names, i);
    if k > |names| then [] else [k] + Anon(names, k)
  }

  datatype Bound = Bound(index: nat, value: Value)

  function Zip(indices: seq<nat>, values: seq<Value>): seq<Bound>
    requires |values| <= |indices|
  {
    seq(|values|, i requires 0 <= i < |values| => Bound(indices[i], values[i]))
  }

  predicate Good(x: Option<Js>) {
    x.Some? && x.value.bindable
  }

  predicate AllGood(xs: seq<Option<Js>>) {
    forall i :: 0 <= i < |xs| ==> Good(xs[i])
  }

  /** Positional values: scalars, and array elements, flattened in order. */
  function Positional(args: seq<Arg>): seq<Option<Js>> {
    if args == [] then []
    else Positional(args[..|args| - 1]) + PositionalOf(args[|args| - 1])
  }

  function PositionalOf(arg: Arg): seq<Option<Js>> {
    match arg
    case Scalar(js) => [Some(js)]
    case Array(elems) => elems
    case _ => []
  }

  function ValueOf(x: Option<Js>): Value {
    match x case None => Null case Some(js) => js.value
  }

  function ValuesOf(xs: seq<Option<Js>>): seq<Value> {
    seq(|xs|, i requires 0 <= i < |xs| => ValueOf(xs[i]))
  }

  /** The last plain object, if there is one. */
  function ObjectOf(args: seq<Arg>): Option<map<string, Option<Js>>> {
    if args == [] then None
    else if args[|args| - 1].Plain? then Some(args[|args| - 1].props)
    else ObjectOf(args[..|args| - 1])
  }

  predicate Provides(props: map<string, Option<Js>>, pairs: seq<Pair>) {
    forall i :: 0 <= i < |pairs| ==> pairs[i].name in props && Good(props[pairs[i].name])
  }

  function NamedValues(props: map<string, Option<Js>>, pairs: seq<Pair>): seq<Bound>
    requires Provides(props, pairs)
  {
    seq(|pairs|, i requires 0 <= i < |pairs| => Bound(pairs[i].index, ValueOf(props[pairs[i].name])))
  }

  function ObjectValues(names: Names, obj: Option<map<string, Option<Js>>>): seq<Bound>
    requires obj.Some? ==> Provides(obj.value, NamedPairs(names))
  {
    match obj case None => [] case Some(props) => NamedValues(props, NamedPairs(names))
  }

  /** The arguments can be bound one after the other. */
  predicate Accepts(names: Names, args: seq<Arg>) {
    args == [] ||
    var front, arg := args[..|args| - 1], args[|args| - 1];
    Accepts(names, front) && AcceptsNext(names, front, arg)
  }

  predicate AcceptsNext(names: Names, before: seq<Arg>, arg: Arg) {
    match arg
    case Scalar(js) => js.bindable && |Positional(before)| < |Anon(names, 0)|
    case Array(elems) =>
      |elems| <= INT_MAX && AllGood(elems) && |Positional(before)| + |elems| <= |Anon(names, 0)|
    case Plain(props) => ObjectOf(before).None? && Provides(props, NamedPairs(names))
    case Other => false
  }

  lemma {:induction false} AcceptsFront(names: Names, args: seq<Arg>, n: nat)
    requires Accepts(names, args) && n <= |args|
    ensures Accepts(names, args[..n])
  {
    if n == |args| {
      assert args[..n] == args;
    } else {
      AcceptsFront(names, args[..|args| - 1], n);
      assert args[..|args| - 1][..n] == args[..n];
    }
  }

  /** One argument that cannot be bound makes the whole list unbindable. */
  lemma RefusedAtAll(names: Names, args: seq<Arg>, i: nat)
    requires i < |args| && !AcceptsNext(names, args[..i], args[i])
    ensures !Accepts(names, args)
  {
    var front := args[..i + 1];
    assert front[..|front| - 1] == args[..i];
    if Accepts(names, args) { AcceptsFront(names, args, i + 1); }
  }

  lemma {:induction false} AcceptsFits(names: Names, args: seq<Arg>)
    requires Accepts(names, args)
    ensures |Positional(args)| <= |Anon(names, 0)|
    ensures ObjectOf(args).Some? ==> Provides(ObjectOf(args).value, NamedPairs(names))
  {
    if args != [] { AcceptsFits(names, args[..|args| - 1]); }
  }

  function Plains(args: seq<Arg>): nat {
    if args == [] then 0 else Plains(args[..|args| - 1]) + if args[|args| - 1].Plain? then 1 else 0
  }

  predicate Ordinary(arg: Arg) {
    !arg.Other? && (arg.Array? ==> |arg.elems| <= INT_MAX)
  }

  lemma {:induction false} NoObjectNoPlain(args: seq<Arg>)
    ensures ObjectOf(args).None? <==> Plains(args) == 0
  {
    if args != [] { NoObjectNoPlain(args[..|args| - 1]); }
  }

  /** Exactly which argument lists can be bound, in whatever order scalars, arrays and the object come. */
  lemma {:induction false} AcceptsExactly(names: Names, args: seq<Arg>)
    ensures Accepts(names, args) <==>
            && (forall i :: 0 <= i < |args| ==> Ordinary(args[i]))
            && AllGood(Positional(args)) && |Positional(args)| <= |Anon(names, 0)|
            && Plains(args) <= 1 && (ObjectOf(args).Some? ==> Provides(ObjectOf(args).value, NamedPairs(names)))
  {
    if args != [] {
      var front, arg := args[..|args| - 1], args[|args| - 1];
      AcceptsExactly(names, front);
      NoObjectNoPlain(front);
      GoodAppend(Positional(front), PositionalOf(arg));
      OrdinaryAppend(front, arg);
      assert args == front + [arg];
      assert Positional(args) == Positional(front) + PositionalOf(arg);
      match arg {
        case Scalar(js) => assert Good(PositionalOf(arg)[0]) <==> js.bindable;
        case Array(elems) => assert PositionalOf(arg) == elems;
        case _ => assert Positional(front) + [] == Positional(front);
      }
    }
  }

  lemma OrdinaryAppend(front: seq<Arg>, arg: Arg)
    ensures (forall i :: 0 <= i < |front + [arg]| ==> Ordinary((front + [arg])[i])) <==>
            (forall i :: 0 <= i < |front| ==> Ordinary(front[i])) && Ordinary(arg)
  {
    var all := front + [arg];
    if forall i :: 0 <= i < |all| ==> Ordinary(all[i]) {
      assert Ordinary(all[|front|]);
      forall i | 0 <= i < |front| ensures Ordinary(front[i]) { assert Ordinary(all[i]); }
    }
  }

  lemma GoodAppend(xs: seq<Option<Js>>, ys: seq<Option<Js>>)
    ensures AllGood(xs + ys) <==> AllGood(xs) && AllGood(ys)
  {
    if AllGood(xs + ys) {
      forall i | 0 <= i < |xs| ensures Good(xs[i]) { assert Good((xs + ys)[i]); }
      forall i | 0 <= i < |ys| ensures Good(ys[i]) { assert Good((xs + ys)[|xs| + i]); }
    }
  }

  /** What a complete binding hands to SQLite: positional values to the nameless parameters in
      increasing order, object values to the named ones. */
  function Layout(names: Names, args: seq<Arg>): seq<Bound>
    requires Accepts(names, args)
  {
    AcceptsFits(names, args);
    Zip(Anon(names, 0), ValuesOf(Positional(args))) + ObjectValues(names, ObjectOf(args))
  }

  function CountOf(names: Names, args: seq<Arg>): nat {
    |Positional(args)| + if ObjectOf(args).Some? then |NamedPairs(names)| else 0
  }

  lemma ZipAppend(indices: seq<nat>, xs: seq<Option<Js>>, ys: seq<Option<Js>>)
    requires |xs| + |ys| <= |indices|
    ensures Zip(indices, ValuesOf(xs + ys)) == Zip(indices, ValuesOf(xs)) + Zip(indices[|xs|..], ValuesOf(ys))
  {
  }

  /** One more argument: what it adds to the layout. */
  lemma LayoutNext(names: Names, before: seq<Arg>, arg: Arg)
    requires Accepts(names, before) && AcceptsNext(names, before, arg)
    ensures var all := before + [arg];
            && Accepts(names, all) && Positional(all) == Positional(before) + PositionalOf(arg)
            && (arg.Plain? ==>
                  multiset(Layout(names, all)) ==
                    multiset(Layout(names, before)) + multiset(NamedValues(arg.props, NamedPairs(names)))
                  && CountOf(names, all) == CountOf(names, before) + |NamedPairs(names)|)
            && (!arg.Plain? ==>
                  var n := |Positional(before)|;
                  n + |PositionalOf(arg)| <= |Anon(names, 0)| &&
                  multiset(Layout(names, all)) ==
                    multiset(Layout(names, before)) + multiset(Zip(Anon(names, 0)[n..], ValuesOf(PositionalOf(arg))))
                  && CountOf(names, all) == CountOf(names, before) + |PositionalOf(arg)|)
  {
    var all := before + [arg];
    assert all[..|all| - 1] == before;
    AcceptsFits(names, before);
    AcceptsFits(names, all);
    if arg.Plain? {
      assert Positional(before) + [] == Positional(before);
    } else {
      ZipAppend(Anon(names, 0), Positional(before), PositionalOf(arg));
    }
  }

  // ---------------------------------------------------------------------------
  // Binder
  // ---------------------------------------------------------------------------

  /** State of the binder after some arguments. */
  ghost predicate SoFar(names: Names, anonIndex: nat, bound: seq<Bound>, before: seq<Arg>, count: nat,
                        boundObject: bool)
  {
    && Accepts(names, before) && |Positional(before)| <= |Anon(names, 0)|
    && count == CountOf(names, before) && boundObject == ObjectOf(before).Some?
    && Anon(names, anonIndex) == Anon(names, 0)[|Positional(before)|..]
    && multiset(bound) == multiset(Layout(names, before))
  }

  /** What one argument adds. */
  ghost predicate Extends(names: Names, arg: Arg, ai: nat, bound: seq<Bound>, ai': nat, bound': seq<Bound>, count: nat)
  {
    if arg.Plain? then
      && Provides(arg.props, NamedPairs(names)) && count == |NamedPairs(names)|
      && bound' == bound + NamedValues(arg.props, NamedPairs(names)) && ai' == ai
    else
      && count == |PositionalOf(arg)| <= |Anon(names, ai)|
      && bound' == bound + Zip(Anon(names, ai), ValuesOf(PositionalOf(arg)))
      && Anon(names, ai') == Anon(names, ai)[|PositionalOf(arg)|..]
  }

  lemma SoFarNext(names: Names, before: seq<Arg>, arg: Arg, ai: nat, bound: seq<Bound>, count: nat, bo: bool,
                  ai': nat, bound': seq<Bound>, more: nat, bo': bool)
    requires SoFar(names, ai, bound, before, count, bo) && AcceptsNext(names, before, arg)
    requires Extends(names, arg, ai, bound, ai', bound', more) && bo' == (bo || arg.Plain?)
    ensures SoFar(names, ai', bound', before + [arg], count + more, bo')
  {
    var all := before + [arg];
    assert all[..|all| - 1] == before;
    LayoutNext(names, before, arg);
    var anon, n, m := Anon(names, 0), |Positional(before)|, |PositionalOf(arg)|;
    if arg.Plain? {
      assert anon[n..] == Anon(names, ai');
    } else {
      assert anon[n..][m..] == anon[n + m..];
    }
  }

  class Binder {
    const names: Names
    var anonIndex: nat
    var success: bool
    var bound: seq<Bound>  // every value handed to SQLite, in order

    constructor (names: Names)
      ensures this.names == names && anonIndex == 0 && success && bound == []
    {
      this.names := names;
      anonIndex, success, bound := 0, true, [];
    }

    method NextAnonIndex() returns (k: nat)
      modifies `anonIndex
      ensures k == anonIndex == NextAnon(names, old(anonIndex))
    {
      anonIndex := anonIndex + 1;
      while anonIndex <= |names| && names[anonIndex - 1].Some?
        invariant anonIndex > old(anonIndex)
        invariant NextAnon(names, anonIndex - 1) == NextAnon(names, old(anonIndex))
        decreases |names| - anonIndex
      {
        anonIndex := anonIndex + 1;
      }
      k := anonIndex;
    }

    /** SQLite refuses an index beyond the last parameter. */
    method BindValue(js: Js, index: nat)
      requires success && index > 0
      modifies `success, `bound
      ensures success == (js.bindable && index <= |names|)
      ensures bound == old(bound) + if success then [Bound(index, js.value)] else []
    {
      if js.bindable && index <= |names| {
        bound := bound + [Bound(index, js.value)];
      } else {
        success := false;
      }
    }

    method BindArray(elems: seq<Option<Js>>) returns (count: nat)
      requires success
      modifies `anonIndex, `success, `bound
      ensures var anon := Anon(names, old(anonIndex));
              && success == (|elems| <= INT_MAX && AllGood(elems) && |elems| <= |anon|)
              && (success ==>
                    && count == |elems| && Anon(names, anonIndex) == anon[|elems|..]
                    && bound == old(bound) + Zip(anon, ValuesOf(elems)))
    {
      if |elems| > INT_MAX {
        success := false;
        return 0;
      }
      ghost var anon := Anon(names, anonIndex);
      for i := 0 to |elems|
        invariant success && AllGood(elems[..i]) && i <= |anon| && Anon(names, anonIndex) == anon[i..]
        invariant bound == old(bound) + Zip(anon, ValuesOf(elems[..i]))
      {
        if elems[i].None? {
          success := false;
          return i;
        }
        var k := NextAnonIndex();
        BindValue(elems[i].value, k);
        if !success {
          return i;
        }
        assert anon[i..][0] == k && anon[i..][1..] == anon[i + 1..];
        assert Zip(anon, ValuesOf(elems[..i + 1])) ==
               Zip(anon, ValuesOf(elems[..i])) + [Bound(k, elems[i].value.value)];
      }
      assert elems[..|elems|] == elems;
      count := |elems|;
    }

    method BindObject(props: map<string, Option<Js>>) returns (count: nat)
      requires success
      modifies `success, `bound
      ensures success == Provides(props, NamedPairs(names))
      ensures success ==>
                && count == |NamedPairs(names)|
                && bound == old(bound) + NamedValues(props, NamedPairs(names))
    {
      var bindMap := GetBindMap(names);
      var pairs := bindMap.pairs[..bindMap.length];
      NamedInRange(names);
      for i := 0 to |pairs|
        invariant success && Provides(props, pairs[..i])
        invariant bound == old(bound) + NamedValues(props, pairs[..i])
      {
        if pairs[i].name !in props || props[pairs[i].name].None? {
          success := false;
          return i;
        }
        BindValue(props[pairs[i].name].value, pairs[i].index);
        if !success {
          return i;
        }
      }
      assert pairs[..|pairs|] == pairs;
      count := |pairs|;
    }

    /** The arguments up to the first that cannot be bound. */
    method BindArgs(args: seq<Arg>) returns (count: nat, boundObject: bool)
      requires success && anonIndex == 0 && bound == []
      modifies `anonIndex, `success, `bound
      ensures success == Accepts(names, args)
      ensures success ==>
                && count == CountOf(names, args) && boundObject == ObjectOf(args).Some?
                && multiset(bound) == multiset(Layout(names, args))
    {
      count, boundObject := 0, false;
      var i := 0;
      while i < |args|
        invariant 0 <= i <= |args| && success && BoundSoFar(args[..i], count, boundObject)
      {
        count, boundObject := BindNext(args, i, count, boundObject);
        if !success {
          RefusedAtAll(names, args, i);
          return;
        }
        i := i + 1;
      }
      assert args[..|args|] == args;
    }

    ghost predicate BoundSoFar(before: seq<Arg>, count: nat, boundObject: bool)
      reads this
    {
      SoFar(names, anonIndex, bound, before, count, boundObject)
    }

    method BindNext(args: seq<Arg>, i: nat, count: nat, boundObject: bool) returns (count': nat, boundObject': bool)
      requires success && i < |args| && BoundSoFar(args[..i], count, boundObject)
      modifies `anonIndex, `success, `bound
      ensures success == AcceptsNext(names, args[..i], args[i])
      ensures success ==> BoundSoFar(args[..i + 1], count', boundObject')
    {
      ghost var before, ai, b := args[..i], anonIndex, bound;
      var more;
      more, boundObject' := BindArg(before, args[i], boundObject);
      count' := count + more;
      assert args[..i + 1] == before + [args[i]];
      if success {
        SoFarNext(names, before, args[i], ai, b, count, boundObject, anonIndex, bound, more, boundObject');
      }
    }

    method BindArg(ghost before: seq<Arg>, arg: Arg, boundObject: bool) returns (count: nat, boundObject': bool)
      requires success && Accepts(names, before) && boundObject == ObjectOf(before).Some?
      requires |Positional(before)| <= |Anon(names, 0)|
      requires Anon(names, anonIndex) == Anon(names, 0)[|Positional(before)|..]
      modifies `anonIndex, `success, `bound
      ensures success == AcceptsNext(names, before, arg)
      ensures success ==>
                && boundObject' == (boundObject || arg.Plain?)
                && Extends(names, arg, old(anonIndex), old(bound), anonIndex, bound, count)
    {
      count, boundObject' := 0, boundObject;
      match arg {
        case Array(elems) =>
          count := BindArray(elems);
        case Plain(props) =>
          if boundObject {
            success := false;
            return;
          }
          boundObject' := true;
          count := BindObject(props);
        case Other =>
          success := false;
        case Scalar(js) =>
          var k := NextAnonIndex();
          BindValue(js, k);
          count := 1;
      }
    }

    /** Binding succeeds exactly when every argument can be bound and nothing is missing; every
        parameter then has its value, each bound once. */
    method Bind(args: seq<Arg>) returns (ok: bool)
      requires success && anonIndex == 0 && bound == []
      modifies `anonIndex, `success, `bound
      ensures ok == success == (Accepts(names, args) && CountOf(names, args) == |names|)
      ensures ok ==> multiset(bound) == multiset(Layout(names, args))
    {
      var count, boundObject := BindArgs(args);
      if success && count != |names| {
        success := false;
      }
      ok := success;
    }
  }

  /** Named pairs carry the indices of the named parameters, in increasing order. */
  lemma {:induction false} NamedInRange(names: Names)
    ensures PairsOf(names, NamedPairs(names))
  {
    if names != [] { NamedInRange(names[..|names| - 1]); }
  }

  ghost predicate PairsOf(names: Names, pairs: seq<Pair>) {
    && (forall j :: 0 <= j < |pairs| ==>
          1 <= pairs[j].index <= |names| && names[pairs[j].index - 1] == Some(pairs[j].name))
    && (forall j, l :: 0 <= j < l < |pairs| ==> pairs[j].index < pairs[l].index)
  }

  lemma NamedValuesOn(names: Names, props: map<string, Option<Js>>, pairs: seq<Pair>)
    requires PairsOf(names, pairs) && Provides(props, pairs)
    ensures OnNamed(names, NamedValues(props, pairs))
  {
  }

  lemma {:induction false} NamedHas(names: Names, k: nat) returns (j: nat)
    requires 1 <= k <= |names| && names[k - 1].Some?
    ensures j < |NamedPairs(names)| && NamedPairs(names)[j] == Pair(names[k - 1].value, k)
  {
    if k == |names| {
      j := |NamedPairs(names)| - 1;
    } else {
      j := NamedHas(names[..|names| - 1], k);
    }
  }

  /** Nameless parameters come in increasing order, and none is skipped. */
  lemma {:induction false} AnonInRange(names: Names, i: nat)
    ensures NamelessAfter(names, i, Anon(names, i))
    decreases |names| - i
  {
    var k := NextAnon(names, i);
    if k <= |names| { AnonInRange(names, k); }
  }

  ghost predicate NamelessAfter(names: Names, i: nat, indices: seq<nat>) {
    && (forall j :: 0 <= j < |indices| ==> i < indices[j] <= |names| && names[indices[j] - 1].None?)
    && (forall j, l :: 0 <= j < l < |indices| ==> indices[j] < indices[l])
  }

  lemma {:induction false} AnonHas(names: Names, i: nat, k: nat) returns (j: nat)
    requires i < k <= |names| && names[k - 1].None?
    ensures j < |Anon(names, i)| && Anon(names, i)[j] == k
    decreases |names| - i
  {
    var next := NextAnon(names, i);
    if next == k {
      j := 0;
    } else {
      var l := AnonHas(names, next, k);
      j := l + 1;
    }
  }

  function Nameless(names: Names): nat {
    if names == [] then 0 else Nameless(names[..|names| - 1]) + if names[|names| - 1].None? then 1 else 0
  }

  lemma {:induction false} NamedAndNameless(names: Names)
    ensures |NamedPairs(names)| + Nameless(names) == |names|
  {
    if names != [] { NamedAndNameless(names[..|names| - 1]); }
  }

  lemma {:induction false} NamelessStretch(names: Names, i: nat, k: nat)
    requires i <= k <= |names| && forall j :: i <= j < k ==> names[j].Some?
    ensures Nameless(names[..k]) == Nameless(names[..i])
    decreases k
  {
    if i < k {
      NamelessStretch(names, i, k - 1);
      assert names[..k][..k - 1] == names[..k - 1];
    }
  }

  lemma {:induction false} AnonCount(names: Names, i: nat)
    requires i <= |names|
    ensures |Anon(names, i)| + Nameless(names[..i]) == Nameless(names)
    decreases |names| - i
  {
    var k := NextAnon(names, i);
    if k > |names| {
      NamelessStretch(names, i, |names|);
      assert names[..|names|] == names;
    } else {
      AnonCount(names, k);
      NamelessStretch(names, i, k - 1);
      assert names[..k][..k - 1] == names[..k - 1];
    }
  }

  /** Bound to the last parameter, so that nothing is left over or missing. */
  ghost predicate Complete(names: Names, args: seq<Arg>) {
    Accepts(names, args) && CountOf(names, args) == |names|
  }

  lemma CompleteFits(names: Names, args: seq<Arg>)
    requires Complete(names, args)
    ensures |Positional(args)| == |Anon(names, 0)| && (ObjectOf(args).None? ==> NamedPairs(names) == [])
    ensures |Layout(names, args)| == |names|
  {
    AcceptsFits(names, args);
    NamedAndNameless(names);
    AnonCount(names, 0);
  }

  ghost predicate OnNamed(names: Names, bound: seq<Bound>) {
    && (forall j :: 0 <= j < |bound| ==> 1 <= bound[j].index <= |names| && names[bound[j].index - 1].Some?)
    && (forall j, l :: 0 <= j < l < |bound| ==> bound[j].index < bound[l].index)
  }

  lemma ApartIndices(names: Names, anon: seq<nat>, values: seq<Value>, named: seq<Bound>, j: nat, l: nat)
    requires NamelessAfter(names, 0, anon) && OnNamed(names, named) && |values| <= |anon|
    requires j < l < |Zip(anon, values) + named|
    ensures (Zip(anon, values) + named)[j].index != (Zip(anon, values) + named)[l].index
  {
  }

  lemma ObjectValuesNamed(names: Names, args: seq<Arg>)
    requires Accepts(names, args)
    ensures ObjectOf(args).Some? ==> Provides(ObjectOf(args).value, NamedPairs(names))
    ensures OnNamed(names, ObjectValues(names, ObjectOf(args)))
  {
    AcceptsFits(names, args);
    NamedInRange(names);
    if ObjectOf(args).Some? { NamedValuesOn(names, ObjectOf(args).value, NamedPairs(names)); }
  }

  /** After a successful bind no parameter is bound twice... */
  lemma BoundOnce(names: Names, args: seq<Arg>, j: nat, l: nat)
    requires Complete(names, args) && j < l < |Layout(names, args)|
    ensures Layout(names, args)[j].index != Layout(names, args)[l].index
  {
    CompleteFits(names, args);
    AnonInRange(names, 0);
    ObjectValuesNamed(names, args);
    ApartIndices(names, Anon(names, 0), ValuesOf(Positional(args)), ObjectValues(names, ObjectOf(args)), j, l);
  }

  /** ...and every parameter is bound: a nameless one to the positional value of its rank... */
  lemma NamelessBound(names: Names, args: seq<Arg>, k: nat) returns (j: nat)
    requires Complete(names, args) && 1 <= k <= |names| && names[k - 1].None?
    ensures |Positional(args)| == |Anon(names, 0)|
    ensures j < |Positional(args)| && Anon(names, 0)[j] == k
    ensures j < |Layout(names, args)| && Layout(names, args)[j] == Bound(k, ValueOf(Positional(args)[j]))
  {
    CompleteFits(names, args);
    j := AnonHas(names, 0, k);
  }

  /** ...and a named one to the object's value of its name. */
  lemma NamedBound(names: Names, args: seq<Arg>, k: nat) returns (j: nat)
    requires Complete(names, args) && 1 <= k <= |names| && names[k - 1].Some?
    ensures ObjectOf(args).Some? && names[k - 1].value in ObjectOf(args).value
    ensures j < |Layout(names, args)| &&
            Layout(names, args)[j] == Bound(k, ValueOf(ObjectOf(args).value[names[k - 1].value]))
  {
    CompleteFits(names, args);
    AcceptsFits(names, args);
    var l := NamedHas(names, k);
    var values := ValuesOf(Positional(args));
    AtRight(Zip(Anon(names, 0), values), ObjectValues(names, ObjectOf(args)), l);
    j := |values| + l;
  }

  lemma AtRight(a: seq<Bound>, b: seq<Bound>, l: nat)
    requires l < |b|
    ensures (a + b)[|a| + l] == b[l]
  {
  }
}
