/** The user-facing value type: several representations per value, one equality, hash and order. */
module DataTypes {
  import V = Values

  type Byte = V.Byte

  const TINYTEXT_WIDTH: nat := 15
  const WORD64: int := 0x1_0000_0000_0000_0000
  const I64_MIN: int := -0x8000_0000_0000_0000
  const I64_MAX: int := 0x7fff_ffff_ffff_ffff
  const GIGA: int := 1_000_000_000

  datatype DataType =
    | None
    | Int(i: int)
    | UnsignedInt(u: int)
    | BigInt(b: int)
    | UnsignedBigInt(g: int)
    | Real(whole: int, frac: int)
    | Text(chars: seq<Byte>)
    | TinyText(arr: seq<Byte>)
    | Timestamp(secs: int, nanos: int)

  // ---------------------------------------------------------------------------
  // Text
  // ---------------------------------------------------------------------------

  /** Number of bytes of the UTF-8 sequence that starts `s`, 0 if it is malformed. */
  function SequenceLength(s: seq<Byte>): (n: nat)
    ensures n <= |s| && n <= 4
  {
    if |s| == 0 then 0
    else if s[0] < 0x80 then 1
    else if 0xc2 <= s[0] < 0xe0 && |s| >= 2 && 0x80 <= s[1] < 0xc0 then 2
    else if 0xe0 <= s[0] < 0xf0 && |s| >= 3 && 0x80 <= s[1] < 0xc0 && 0x80 <= s[2] < 0xc0 &&
            (s[0] == 0xe0 ==> s[1] >= 0xa0) && (s[0] == 0xed ==> s[1] < 0xa0) then 3
    else if 0xf0 <= s[0] < 0xf5 && |s| >= 4 && 0x80 <= s[1] < 0xc0 && 0x80 <= s[2] < 0xc0 && 0x80 <= s[3] < 0xc0 &&
            (s[0] == 0xf0 ==> s[1] >= 0x90) && (s[0] == 0xf4 ==> s[1] < 0x90) then 4
    else 0
  }

  predicate ValidUtf8(s: seq<Byte>) {
    s == [] || (SequenceLength(s) > 0 && ValidUtf8(s[SequenceLength(s)..]))
  }

  predicate NulFree(s: seq<Byte>) {
    forall i :: 0 <= i < |s| ==> s[i] != 0
  }

  function Zeros(n: nat): (z: seq<Byte>)
    ensures |z| == n && forall i :: 0 <= i < n ==> z[i] == 0
  {
    seq(n, i => 0)
  }

  /** Index of the first NUL, or the length. */
  function FirstNul(s: seq<Byte>): (n: nat)
    ensures n <= |s| && NulFree(s[..n]) && (n < |s| ==> s[n] == 0)
  {
    if s == [] || s[0] == 0 then 0
    else
      var n := 1 + FirstNul(s[1..]);
      assert forall i :: 0 < i < n ==> s[i] == s[1..][i - 1];
      n
  }

  /** The text of either representation: a short array ends at its first NUL or fills its width. */
  function Str(d: DataType): seq<Byte>
    requires d.Text? || (d.TinyText? && |d.arr| == TINYTEXT_WIDTH)
  {
    if d.Text? then d.chars
    else if d.arr[TINYTEXT_WIDTH - 1] == 0 then d.arr[..FirstNul(d.arr)] else d.arr
  }

  /** Text of at most 15 bytes is stored in place, anything longer as a C string. */
  function TryFrom(b: seq<Byte>): V.Option<DataType> {
    if |b| <= TINYTEXT_WIDTH then V.Some(TinyText(b + Zeros(TINYTEXT_WIDTH - |b|)))
    else if NulFree(b) then V.Some(Text(b))
    else V.None
  }

  // ---------------------------------------------------------------------------
  // Well-formed values and what they mean
  // ---------------------------------------------------------------------------

  predicate IsInteger(d: DataType) {
    d.Int? || d.UnsignedInt? || d.BigInt? || d.UnsignedBigInt?
  }

  predicate IsText(d: DataType) {
    d.Text? || d.TinyText?
  }

  function IntegerValue(d: DataType): int
    requires IsInteger(d)
  {
    match d case Int(n) => n case UnsignedInt(n) => n case BigInt(n) => n case UnsignedBigInt(n) => n
  }

  /** Fields within their machine types; texts valid UTF-8 without NUL, short ones zero-padded. */
  predicate WellFormed(d: DataType) {
    match d
    case None => true
    case Int(n) => -0x8000_0000 <= n < 0x8000_0000
    case UnsignedInt(n) => 0 <= n < V.WORD32
    case BigInt(n) => I64_MIN <= n <= I64_MAX
    case UnsignedBigInt(n) => 0 <= n < WORD64
    case Real(w, f) => I64_MIN <= w <= I64_MAX && -0x8000_0000 <= f < 0x8000_0000
    case Text(s) => NulFree(s) && ValidUtf8(s)
    case TinyText(a) =>
      |a| == TINYTEXT_WIDTH && a[FirstNul(a)..] == Zeros(|a| - FirstNul(a)) && ValidUtf8(a[..FirstNul(a)])
    case Timestamp(_, n) => 0 <= n < 2 * GIGA
  }

  /** The value, whatever its representation. */
  function Meaning(d: DataType): V.Value
    requires WellFormed(d)
  {
    match d
    case None => V.Null
    case Real(w, f) => V.Fixed(w, f)
    case Text(_) => V.Chars(Str(d))
    case TinyText(_) => V.Chars(Str(d))
    case Timestamp(s, n) => V.Instant(s, n)
    case _ => V.Integer(IntegerValue(d))
  }

  lemma TinyStr(d: DataType)
    requires WellFormed(d) && d.TinyText?
    ensures Str(d) == d.arr[..FirstNul(d.arr)] && NulFree(Str(d)) && ValidUtf8(Str(d))
    ensures d.arr == Str(d) + Zeros(TINYTEXT_WIDTH - |Str(d)|)
  {
  }

  lemma FirstNulOfPadded(s: seq<Byte>, n: nat)
    requires NulFree(s)
    ensures FirstNul(s + Zeros(n)) == |s|
  {
    var p := s + Zeros(n);
    var k := FirstNul(p);
    assert forall i :: 0 <= i < |s| ==> p[i] == s[i];
    assert forall i :: 0 <= i < k ==> p[..k][i] == p[i];
    assert |s| < |p| ==> p[|s|] == 0;
  }

  /** Storing a text and reading it back gives the text. */
  lemma TextRoundTrip(s: seq<Byte>)
    requires NulFree(s) && ValidUtf8(s)
    ensures TryFrom(s).Some? && WellFormed(TryFrom(s).value) && IsText(TryFrom(s).value) && Str(TryFrom(s).value) == s
  {
    if |s| <= TINYTEXT_WIDTH {
      var a := s + Zeros(TINYTEXT_WIDTH - |s|);
      FirstNulOfPadded(s, TINYTEXT_WIDTH - |s|);
      assert a[..|s|] == s;
      assert a[|s|..] == Zeros(TINYTEXT_WIDTH - |s|);
      assert WellFormed(TinyText(a));
      TinyStr(TinyText(a));
    }
  }

  // ---------------------------------------------------------------------------
  // Equality, hash, shard
  // ---------------------------------------------------------------------------

  /** Byte-identical values are equal at once; otherwise integers compare as 128-bit numbers and
      texts of different representation as strings. */
  predicate Eq(a: DataType, b: DataType)
    requires WellFormed(a) && WellFormed(b)
  {
    if a == b then true
    else if a.Text? && b.Text? then a.chars == b.chars
    else if a.TinyText? && b.TinyText? then a.arr == b.arr
    else if IsText(a) && IsText(b) then Str(a) == Str(b)
    else if IsInteger(a) && IsInteger(b) then IntegerValue(a) == IntegerValue(b)
    else if a.Real? && b.Real? then a.whole == b.whole && a.frac == b.frac
    else if a.Timestamp? && b.Timestamp? then a.secs == b.secs && a.nanos == b.nanos
    else a.None? && b.None?
  }

  /** Equality forgets exactly the representation; so it is an equivalence. */
  lemma EqIsSameMeaning(a: DataType, b: DataType)
    requires WellFormed(a) && WellFormed(b)
    ensures Eq(a, b) <==> Meaning(a) == Meaning(b)
  {
    if IsText(a) && IsText(b) {
      EqTexts(a, b);
    } else if IsInteger(a) && IsInteger(b) {
      assert Meaning(a) == V.Integer(IntegerValue(a)) && Meaning(b) == V.Integer(IntegerValue(b));
    } else if IsText(a) || IsText(b) {
      assert Meaning(a) != Meaning(b) && a != b;
    }
  }

  lemma EqTexts(a: DataType, b: DataType)
    requires WellFormed(a) && WellFormed(b) && IsText(a) && IsText(b)
    ensures Eq(a, b) <==> Str(a) == Str(b)
    ensures Meaning(a) == V.Chars(Str(a)) && Meaning(b) == V.Chars(Str(b))
  {
  }

  lemma EqIsEquivalence(a: DataType, b: DataType, c: DataType)
    requires WellFormed(a) && WellFormed(b) && WellFormed(c)
    ensures Eq(a, a)
    ensures Eq(a, b) ==> Eq(b, a)
    ensures Eq(a, b) && Eq(b, c) ==> Eq(a, c)
  {
    EqIsSameMeaning(a, b);
    EqIsSameMeaning(b, a);
    EqIsSameMeaning(b, c);
    EqIsSameMeaning(a, c);
  }

  datatype Feed = Word64(n: int) | Word32(n: int) | Bytes(s: seq<Byte>)

  /** What a value writes to the hasher; signed numbers in two's complement. */
  function HashFeed(d: DataType): seq<Feed>
    requires WellFormed(d)
  {
    match d
    case None => []
    case Int(n) => [Word64(n % WORD64)]
    case BigInt(n) => [Word64(n % WORD64)]
    case UnsignedInt(n) => [Word64(n)]
    case UnsignedBigInt(n) => [Word64(n)]
    case Real(w, f) => [Word64(w % WORD64), Word32(f % V.WORD32)]
    case Text(_) => [Bytes(Str(d) + [0xff])]
    case TinyText(_) => [Bytes(Str(d) + [0xff])]
    case Timestamp(s, n) => [Word64(s % WORD64), Word32(n)]
  }

  predicate Shardable(d: DataType) {
    IsInteger(d) || IsText(d) || d.None?
  }

  /** Integers are cast to 64-bit machine words (negative ones sign-extended), texts hashed, NULL goes first. */
  function ShardBy(d: DataType, shards: nat, hash: seq<Byte> -> nat): nat
    requires WellFormed(d) && Shardable(d) && shards > 0
  {
    match d
    case None => 0
    case Text(_) => hash(Str(d)) % shards
    case TinyText(_) => hash(Str(d)) % shards
    case _ => (IntegerValue(d) % WORD64) % shards
  }

  /** Equal values hash alike and live in the same, existing shard. */
  lemma EqualValuesMeet(a: DataType, b: DataType, shards: nat, hash: seq<Byte> -> nat)
    requires WellFormed(a) && WellFormed(b) && Eq(a, b) && shards > 0
    ensures HashFeed(a) == HashFeed(b)
    ensures Shardable(a) <==> Shardable(b)
    ensures Shardable(a) ==> ShardBy(a, shards, hash) == ShardBy(b, shards, hash) < shards
  {
    EqIsSameMeaning(a, b);
    assert IsInteger(a) && IntegerValue(a) >= 0 ==> IntegerValue(a) % WORD64 == IntegerValue(a);
    assert IsInteger(b) && IntegerValue(b) >= 0 ==> IntegerValue(b) % WORD64 == IntegerValue(b);
  }

  /** Of one class, values that are not equal write different bytes to the hasher; two integers also the same if they
      are 2 to the 64 apart, one of them negative. */
  lemma UnequalTellApart(a: DataType, b: DataType)
    requires WellFormed(a) && WellFormed(b)
    requires (IsInteger(a) && IsInteger(b)) || (IsText(a) && IsText(b)) || (a.Real? && b.Real?) ||
             (a.Timestamp? && b.Timestamp? && I64_MIN <= a.secs <= I64_MAX && I64_MIN <= b.secs <= I64_MAX)
    ensures HashFeed(a) == HashFeed(b) <==>
            Eq(a, b) || (IsInteger(a) && IsInteger(b) &&
                         (IntegerValue(a) - IntegerValue(b) == WORD64 || IntegerValue(b) - IntegerValue(a) == WORD64))
  {
    EqIsSameMeaning(a, b);
    if IsText(a) { TextFeeds(a, b); }
    if IsInteger(a) { IntegerFeeds(a, b); }
  }

  lemma TextFeeds(a: DataType, b: DataType)
    requires WellFormed(a) && WellFormed(b) && IsText(a) && IsText(b)
    ensures HashFeed(a) == HashFeed(b) <==> Str(a) == Str(b)
  {
    var x, y := Str(a) + [0xff], Str(b) + [0xff];
    assert x[..|x| - 1] == Str(a) && y[..|y| - 1] == Str(b);
    assert HashFeed(a) == [Bytes(x)] && HashFeed(b) == [Bytes(y)];
  }

  lemma IntegerFeeds(a: DataType, b: DataType)
    requires WellFormed(a) && WellFormed(b) && IsInteger(a) && IsInteger(b)
    ensures var x, y := IntegerValue(a), IntegerValue(b);
            HashFeed(a) == HashFeed(b) <==> x == y || x - y == WORD64 || y - x == WORD64
  {
    Wrapped(IntegerValue(a));
    Wrapped(IntegerValue(b));
    assert HashFeed(a) == [Word64(IntegerValue(a) % WORD64)] && HashFeed(b) == [Word64(IntegerValue(b) % WORD64)];
  }

  lemma Wrapped(n: int)
    requires -WORD64 <= n < WORD64
    ensures n % WORD64 == if n < 0 then n + WORD64 else n
  {
  }

  /** Integers from 0 on go to the shards in turn: the first ones one to each, and then over again. */
  lemma ShardsInTurn(a: DataType, b: DataType, shards: nat, hash: seq<Byte> -> nat)
    requires WellFormed(a) && IsInteger(a) && shards > 0 && IntegerValue(a) >= 0
    requires WellFormed(b) && IsInteger(b)
    ensures IntegerValue(a) < shards ==> ShardBy(a, shards, hash) == IntegerValue(a)
    ensures IntegerValue(b) == IntegerValue(a) + shards ==> ShardBy(b, shards, hash) == ShardBy(a, shards, hash)
  {
    ShardOfInteger(a, shards, hash);
    OnceAround(IntegerValue(a), shards);
    if IntegerValue(b) == IntegerValue(a) + shards { ShardOfInteger(b, shards, hash); }
  }

  lemma ShardOfInteger(a: DataType, shards: nat, hash: seq<Byte> -> nat)
    requires WellFormed(a) && IsInteger(a) && shards > 0 && IntegerValue(a) >= 0
    ensures ShardBy(a, shards, hash) == IntegerValue(a) % shards
  {
    Wrapped(IntegerValue(a));
  }

  lemma OnceAround(n: nat, m: nat)
    requires m > 0
    ensures n < m ==> n % m == n
    ensures (n + m) % m == n % m
  {
    var q := n / m;
    RemainderIs(n, q, n % m, m);
    assert n + m == m * (q + 1) + n % m;
    RemainderIs(n + m, q + 1, n % m, m);
    if n < m { RemainderIs(n, 0, n, m); }
  }

  lemma RemainderIs(n: nat, q: nat, r: nat, m: nat)
    requires n == m * q + r && r < m
    ensures n % m == r
  {
    var q', r' := n / m, n % m;
    assert n == m * q' + r';
    if q' < q { MultiplesApart(m, q', q); } else if q < q' { MultiplesApart(m, q, q'); }
  }

  lemma {:induction false} MultiplesApart(m: nat, p: nat, q: nat)
    requires m > 0 && p < q
    ensures m * p + m <= m * q
    decreases q
  {
    assert m * q == m * (q - 1) + m;
    if p < q - 1 { MultiplesApart(m, p, q - 1); }
  }

  /** A text goes where its hash says, and NULL to the first shard. */
  lemma TextShards(s: seq<Byte>, shards: nat, hash: seq<Byte> -> nat)
    requires NulFree(s) && ValidUtf8(s) && shards > 0
    ensures var d := TryFrom(s);
            && d.Some? && WellFormed(d.value) && Shardable(d.value)
            && ShardBy(d.value, shards, hash) == hash(s) % shards
    ensures ShardBy(None, shards, hash) == 0
  {
    TextRoundTrip(s);
  }

  // ---------------------------------------------------------------------------
  // Order
  // ---------------------------------------------------------------------------

  datatype Ordering = Less | Equal | Greater

  function Reverse(o: Ordering): Ordering {
    match o case Less => Greater case Equal => Equal case Greater => Less
  }

  function Compare(a: int, b: int): Ordering {
    if a < b then Less else if a == b then Equal else Greater
  }

  function Then(a: Ordering, b: Ordering): Ordering {
    if a.Equal? then b else a
  }

  /** Lexicographic byte order. */
  function Lex(a: seq<Byte>, b: seq<Byte>): Ordering {
    if a == [] then (if b == [] then Equal else Less)
    else if b == [] then Greater
    else if a[0] != b[0] then Compare(a[0], b[0])
    else Lex(a[1..], b[1..])
  }

  function Cmp(a: DataType, b: DataType): Ordering
    requires WellFormed(a) && WellFormed(b)
  {
    if a.Text? && b.Text? then Lex(a.chars, b.chars)
    else if a.TinyText? && b.TinyText? then Lex(a.arr, b.arr)
    else if IsText(a) && IsText(b) then Lex(Str(a), Str(b))
    else if IsInteger(a) && IsInteger(b) then Compare(IntegerValue(a), IntegerValue(b))
    else if a.Real? && b.Real? then Then(Compare(a.whole, b.whole), Compare(a.frac, b.frac))
    else if a.Timestamp? && b.Timestamp? then Then(Compare(a.secs, b.secs), Compare(a.nanos, b.nanos))
    else if a.None? && b.None? then Equal
    else Greater
  }

  function CmpValue(a: V.Value, b: V.Value): Ordering {
    match (a, b)
    case (Integer(x), Integer(y)) => Compare(x, y)
    case (Chars(x), Chars(y)) => Lex(x, y)
    case (Fixed(x, f), Fixed(y, g)) => Then(Compare(x, y), Compare(f, g))
    case (Instant(x, f), Instant(y, g)) => Then(Compare(x, y), Compare(f, g))
    case (Null, Null) => Equal
    case _ => Greater
  }

  predicate SameClass(a: V.Value, b: V.Value) {
    (a.Null? && b.Null?) || (a.Integer? && b.Integer?) || (a.Fixed? && b.Fixed?) ||
    (a.Chars? && b.Chars?) || (a.Instant? && b.Instant?)
  }

  /** Padding NUL-free strings with zeros to a common width does not change their order. */
  lemma {:induction false} LexPadded(a: seq<Byte>, b: seq<Byte>, n: nat, m: nat)
    requires NulFree(a) && NulFree(b) && |a| + n == |b| + m
    ensures Lex(a + Zeros(n), b + Zeros(m)) == Lex(a, b)
  {
    var x, y := a + Zeros(n), b + Zeros(m);
    if a == [] && b == [] {
      LexSame(x);
      assert x == y;
    } else if a == [] || b == [] {
      assert a == [] ==> x[0] == 0 && y[0] == b[0];
      assert b == [] ==> y[0] == 0 && x[0] == a[0];
    } else if a[0] == b[0] {
      assert x[1..] == a[1..] + Zeros(n) && y[1..] == b[1..] + Zeros(m);
      LexPadded(a[1..], b[1..], n, m);
    }
  }

  lemma {:induction false} LexSame(a: seq<Byte>)
    ensures Lex(a, a).Equal?
  {
    if a != [] { LexSame(a[1..]); }
  }

  lemma {:induction false} LexAntisymmetric(a: seq<Byte>, b: seq<Byte>)
    ensures Lex(b, a) == Reverse(Lex(a, b))
    ensures Lex(a, b).Equal? <==> a == b
  {
    if a != [] && b != [] {
      LexAntisymmetric(a[1..], b[1..]);
      assert a == [a[0]] + a[1..] && b == [b[0]] + b[1..];
    }
  }

  lemma {:induction false} LexTransitive(a: seq<Byte>, b: seq<Byte>, c: seq<Byte>)
    requires !Lex(a, b).Greater? && !Lex(b, c).Greater?
    ensures !Lex(a, c).Greater?
  {
    if a != [] && b != [] && c != [] && a[0] == b[0] == c[0] {
      LexTransitive(a[1..], b[1..], c[1..]);
    }
  }

  /** The order sees only what a value means; zero-padded arrays sort like their strings. */
  lemma CmpByMeaning(a: DataType, b: DataType)
    requires WellFormed(a) && WellFormed(b)
    ensures Cmp(a, b) == CmpValue(Meaning(a), Meaning(b))
  {
    if IsText(a) && IsText(b) {
      CmpTexts(a, b);
    } else if IsInteger(a) && IsInteger(b) {
      CmpIntegers(a, b);
    } else {
      CmpOthers(a, b);
    }
  }

  lemma CmpIntegers(a: DataType, b: DataType)
    requires WellFormed(a) && WellFormed(b) && IsInteger(a) && IsInteger(b)
    ensures Cmp(a, b) == CmpValue(Meaning(a), Meaning(b))
  {
    assert Meaning(a) == V.Integer(IntegerValue(a)) && Meaning(b) == V.Integer(IntegerValue(b));
  }

  lemma CmpOthers(a: DataType, b: DataType)
    requires WellFormed(a) && WellFormed(b) && !(IsText(a) && IsText(b)) && !(IsInteger(a) && IsInteger(b))
    ensures Cmp(a, b) == CmpValue(Meaning(a), Meaning(b))
  {
  }

  lemma CmpTexts(a: DataType, b: DataType)
    requires WellFormed(a) && WellFormed(b) && IsText(a) && IsText(b)
    ensures Cmp(a, b) == Lex(Str(a), Str(b))
  {
    if a.TinyText? && b.TinyText? {
      TinyStr(a);
      TinyStr(b);
      LexPadded(Str(a), Str(b), TINYTEXT_WIDTH - |Str(a)|, TINYTEXT_WIDTH - |Str(b)|);
    }
  }

  /** Smaller numbers, earlier times and texts that are prefixes come first. */
  lemma CmpOrders(a: DataType, b: DataType)
    requires WellFormed(a) && WellFormed(b)
    ensures IsInteger(a) && IsInteger(b) ==> (Cmp(a, b).Less? <==> IntegerValue(a) < IntegerValue(b))
    ensures a.Real? && b.Real? ==>
              (Cmp(a, b).Less? <==> a.whole < b.whole || (a.whole == b.whole && a.frac < b.frac))
    ensures a.Timestamp? && b.Timestamp? ==>
              (Cmp(a, b).Less? <==> a.secs < b.secs || (a.secs == b.secs && a.nanos < b.nanos))
    ensures IsText(a) && IsText(b) ==> (Cmp(a, b).Less? <==> TextBefore(Str(a), Str(b)))
  {
    CmpByMeaning(a, b);
    if IsText(a) && IsText(b) { LexExactly(Str(a), Str(b)); }
  }

  /** Up to some byte they are the same, and then the first one ends or has the smaller byte. */
  ghost predicate TextBefore(s: seq<Byte>, t: seq<Byte>) {
    exists n: nat :: FirstDifference(s, t, n)
  }

  ghost predicate FirstDifference(s: seq<Byte>, t: seq<Byte>, n: nat) {
    n <= |s| && n < |t| && s[..n] == t[..n] && (n < |s| ==> s[n] < t[n])
  }

  lemma {:induction false} LexExactly(s: seq<Byte>, t: seq<Byte>)
    ensures Lex(s, t).Less? <==> TextBefore(s, t)
  {
    if s != [] && t != [] && s[0] == t[0] {
      LexExactly(s[1..], t[1..]);
      if n: nat :| FirstDifference(s[1..], t[1..], n) {
        assert s[..n + 1] == [s[0]] + s[1..][..n] && t[..n + 1] == [t[0]] + t[1..][..n];
        assert FirstDifference(s, t, n + 1);
      }
      if n: nat :| FirstDifference(s, t, n) {
        assert n > 0;
        assert s[1..][..n - 1] == s[..n][1..] && t[1..][..n - 1] == t[..n][1..];
        assert FirstDifference(s[1..], t[1..], n - 1);
      }
    } else {
      if t != [] && (s == [] || s[0] < t[0]) { assert FirstDifference(s, t, 0); }
      if s != [] && t != [] {
        forall n: nat | n > 0 ensures !FirstDifference(s, t, n) { DifferentAtOnce(s, t, n); }
      }
    }
  }

  lemma DifferentAtOnce(s: seq<Byte>, t: seq<Byte>, n: nat)
    requires s != [] && t != [] && s[0] != t[0] && n > 0
    ensures !FirstDifference(s, t, n)
  {
    if n <= |s| && n <= |t| { assert s[..n][0] == s[0] && t[..n][0] == t[0]; }
  }

  /** Within one class of values `cmp` is a total order that agrees with equality. */
  lemma CmpIsTotalOrder(a: DataType, b: DataType, c: DataType)
    requires WellFormed(a) && WellFormed(b) && WellFormed(c)
    requires SameClass(Meaning(a), Meaning(b)) && SameClass(Meaning(b), Meaning(c))
    ensures Cmp(a, b).Equal? <==> Eq(a, b)
    ensures Cmp(b, a) == Reverse(Cmp(a, b))
    ensures !Cmp(a, b).Greater? && !Cmp(b, c).Greater? ==> !Cmp(a, c).Greater?
  {
    CmpByMeaning(a, b);
    CmpByMeaning(b, a);
    CmpByMeaning(b, c);
    CmpByMeaning(a, c);
    EqIsSameMeaning(a, b);
    if Meaning(a).Chars? {
      LexAntisymmetric(Meaning(a).bytes, Meaning(b).bytes);
      if !Cmp(a, b).Greater? && !Cmp(b, c).Greater? {
        LexTransitive(Meaning(a).bytes, Meaning(b).bytes, Meaning(c).bytes);
      }
    }
  }

  /** `cmp` is antisymmetric exactly within a class: across classes it answers `Greater` both ways. */
  lemma CmpAntisymmetricWithinClass(a: DataType, b: DataType)
    requires WellFormed(a) && WellFormed(b)
    ensures Cmp(b, a) == Reverse(Cmp(a, b)) <==> SameClass(Meaning(a), Meaning(b))
  {
    if SameClass(Meaning(a), Meaning(b)) {
      CmpIsTotalOrder(a, b, b);
    }
  }

  // ---------------------------------------------------------------------------
  // Fixed-point reals
  // ---------------------------------------------------------------------------

  function Trunc(f: real): int {
    if f >= 0.0 then f.Floor else -((-f).Floor)
  }

  /** To the nearest integer, halves away from zero. */
  function Round(f: real): int {
    if f >= 0.0 then (f + 0.5).Floor else -((-f + 0.5).Floor)
  }

  predicate InI64Range(f: real) {
    I64_MIN as real <= f <= I64_MAX as real
  }

  function Number(d: DataType): real
    requires d.Real?
  {
    d.whole as real + d.frac as real / GIGA as real
  }

  /** Whole and fractional part have the same sign, and the fraction is below one. */
  predicate Normal(d: DataType) {
    d.Real? && -GIGA < d.frac < GIGA && (d.whole > 0 ==> d.frac >= 0) && (d.whole < 0 ==> d.frac <= 0)
  }

  /** The fixed-point number with `n` billionths. */
  function OfBillionths(n: int): DataType {
    if n >= 0 then Real(n / GIGA, n % GIGA) else Real(-((-n) / GIGA), -((-n) % GIGA))
  }

  function Billionths(d: DataType): int
    requires d.Real?
  {
    d.whole * GIGA + d.frac
  }

  /** Splits, rounds the fraction and carries: this is the nearest multiple of a billionth. */
  method FromF64(f: real) returns (d: DataType)
    requires InI64Range(f)
    ensures d == OfBillionths(Round(f * GIGA as real))
  {
    var i := Trunc(f);
    var frac := Round((f - i as real) * GIGA as real);
    FractionBounds(f);
    if frac == 1_000_000_000 {
      i := i + 1;
      frac := 0;
    } else if frac == -1_000_000_000 {
      i := i - 1;
      frac := 0;
    }
    d := Real(i, frac);
  }

  lemma FractionBounds(f: real)
    ensures var i := Trunc(f); var frac := Round((f - i as real) * GIGA as real);
            Round(f * GIGA as real) == i * GIGA + frac && -GIGA <= frac <= GIGA &&
            (f >= 0.0 ==> i >= 0 && frac >= 0) && (f < 0.0 ==> i <= 0 && frac <= 0)
  {
  }

  lemma OfBillionthsNormal(n: int)
    ensures Normal(OfBillionths(n)) && Billionths(OfBillionths(n)) == n
    ensures Number(OfBillionths(n)) == n as real / GIGA as real
  {
  }

  /** The conversion is normalised and off by at most half a billionth. */
  lemma FromF64Nearest(f: real)
    ensures var d := OfBillionths(Round(f * GIGA as real));
            Normal(d) && -0.5 <= (Number(d) - f) * GIGA as real <= 0.5
  {
  }

  /** A normalised number survives the trip through `f64`. */
  lemma F64RoundTrip(d: DataType)
    requires Normal(d)
    ensures OfBillionths(Round(Number(d) * GIGA as real)) == d
  {
  }

  /** The conversion never reverses the order of two numbers. */
  lemma FromF64Monotone(f: real, g: real)
    requires InI64Range(f) && InI64Range(g) && f <= g
    ensures var a, b := OfBillionths(Round(f * GIGA as real)), OfBillionths(Round(g * GIGA as real));
            WellFormed(a) && WellFormed(b) && !Cmp(a, b).Greater?
  {
  }

  /** Change capture converts reals differently: it truncates, and drops the sign of the fraction. */
  function CapturedReal(f: real): DataType {
    var x := (f - Trunc(f) as real) * GIGA as real;
    Real(Trunc(f), if x >= 0.0 then x.Floor else (-x).Floor)
  }

  /** The two conversions agree exactly when the fraction is not negative and rounds down, or vanishes. */
  lemma CapturedRealAgrees(f: real)
    ensures CapturedReal(f) == OfBillionths(Round(f * GIGA as real)) <==>
            var x := (f - Trunc(f) as real) * GIGA as real;
            (x >= 0.0 && x - x.Floor as real < 0.5) || -0.5 < x < 0.0
  {
    FractionBounds(f);
    OfBillionthsNormal(Round(f * GIGA as real));
    var i := Trunc(f);
    var x := (f - i as real) * GIGA as real;
    var frac := Round(x);
    assert Billionths(Real(i, frac)) == Round(f * GIGA as real);
  }
}
