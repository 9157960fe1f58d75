/** Byte encodings of values, rows and keys in the view cache. */
module Codec {
  import opened Values
  import opened DataTypes
  import opened Decimals

  const UNDERSCORE: Byte := 95

  // tags
  const TAG_NONE: Byte := 78        // N
  const TAG_INT: Byte := 73         // I
  const TAG_UINT: Byte := 85        // U
  const TAG_BIGINT: Byte := 66      // B
  const TAG_UBIGINT: Byte := 71     // G
  const TAG_REAL: Byte := 82        // R
  const TAG_TEXT: Byte := 84        // T
  const TAG_TINYTEXT: Byte := 116   // t
  const TAG_TIMESTAMP: Byte := 83   // S

  // ---------------------------------------------------------------------------
  // Values
  // ---------------------------------------------------------------------------

  function TrimNuls(s: seq<Byte>): seq<Byte> {
    if s != [] && s[|s| - 1] == 0 then TrimNuls(s[..|s| - 1]) else s
  }

  /** Nanoseconds since 1970, if they fit 64 bits. */
  function TimestampNanos(secs: int, nanos: int): Option<int> {
    Bounded(secs * GIGA + nanos, I64_MIN, I64_MAX)
  }

  function Serialize(d: DataType): (s: seq<Byte>)
    ensures s != []
  {
    match d
    case None => [TAG_NONE]
    case Int(n) => [TAG_INT] + Print(n)
    case UnsignedInt(n) => [TAG_UINT] + Print(n)
    case BigInt(n) => [TAG_BIGINT] + Print(n)
    case UnsignedBigInt(n) => [TAG_UBIGINT] + Print(n)
    case Real(w, f) => [TAG_REAL] + (Print(w) + [UNDERSCORE] + Print(f))
    case Text(t) => [TAG_TEXT] + (if ValidUtf8(t) then t else [])
    case TinyText(a) => [TAG_TINYTEXT] + (if ValidUtf8(a) then TrimNuls(a) else [])
    case Timestamp(s, n) => [TAG_TIMESTAMP] + Print(match TimestampNanos(s, n) case Some(t) => t case None => 0)
  }

  /** Parts between separators. */
  function Split(s: seq<Byte>, sep: Byte): (parts: seq<seq<Byte>>)
    ensures parts != []
  {
    if s == [] then [[]]
    else
      var rest := Split(s[1..], sep);
      if s[0] == sep then [[]] + rest else [[s[0]] + rest[0]] + rest[1..]
  }

  function OrNull(n: Option<int>, make: int -> DataType): DataType {
    match n case Some(v) => make(v) case None => DataType.None
  }

  function DecodeReal(rest: seq<Byte>): DataType {
    var parts := Split(rest, UNDERSCORE);
    if |parts| == 2 then
      match (Parse(parts[0], I64_MIN, I64_MAX), Parse(parts[1], -0x8000_0000, 0x7fff_ffff))
      case (Some(w), Some(f)) => Real(w, f)
      case _ => DataType.None
    else DataType.None
  }

  /** Division by a billion rounds towards zero; a negative remainder becomes a huge unsigned
      number, which no timestamp accepts. */
  function DecodeNanos(t: int): DataType {
    var secs := if t >= 0 then t / GIGA else -((-t) / GIGA);
    var sub := (t - secs * GIGA) % WORD32;
    if sub < GIGA then Timestamp(secs, sub) else DataType.None
  }

  /** `None` stands for a panic: a multi-byte first character, or a long text with NUL. */
  function Deserialize(s: seq<Byte>): Option<DataType> {
    if s == [] then Some(DataType.None)
    else if s[0] >= 0x80 then Option.None
    else
      var tag, rest := s[0], s[1..];
      if tag == TAG_NONE then Some(DataType.None)
      else if tag == TAG_INT then Some(OrNull(Parse(rest, -0x8000_0000, 0x7fff_ffff), n => Int(n)))
      else if tag == TAG_UINT then Some(OrNull(Parse(rest, 0, WORD32 - 1), n => UnsignedInt(n)))
      else if tag == TAG_BIGINT then Some(OrNull(Parse(rest, I64_MIN, I64_MAX), n => BigInt(n)))
      else if tag == TAG_UBIGINT then Some(OrNull(Parse(rest, 0, WORD64 - 1), n => UnsignedBigInt(n)))
      else if tag == TAG_REAL then Some(DecodeReal(rest))
      else if tag == TAG_TEXT || tag == TAG_TINYTEXT then TryFrom(rest)
      else if tag == TAG_TIMESTAMP then Some(OrNull(Parse(rest, I64_MIN, I64_MAX), t => DecodeNanos(t)))
      else Some(DataType.None)
  }

  /** What the codec promises to preserve: any well-formed value, except timestamps in a leap second,
      out of the nanosecond range, or before 1970 with a fraction of a second. */
  predicate Codable(d: DataType) {
    d.Timestamp? ==>
      KeySafe(d) && (d.secs >= 0 || d.nanos == 0)
  }

  /** Timestamps whose nanosecond count identifies them. */
  predicate KeySafe(d: DataType) {
    d.Timestamp? ==> TimestampNanos(d.secs, d.nanos).Some? && d.nanos < GIGA
  }

  /** Text in the representation the constructors choose. */
  function Normalized(d: DataType): DataType
    requires WellFormed(d)
  {
    if d.Text? && |d.chars| <= TINYTEXT_WIDTH then TinyText(d.chars + Zeros(TINYTEXT_WIDTH - |d.chars|)) else d
  }

  lemma NormalizedIsEqual(d: DataType)
    requires WellFormed(d)
    ensures WellFormed(Normalized(d)) && Eq(d, Normalized(d))
  {
    if d.Text? {
      TextRoundTrip(d.chars);
      if |d.chars| <= TINYTEXT_WIDTH { EqTexts(d, Normalized(d)); }
    }
  }

  lemma {:induction false} TrimPadded(s: seq<Byte>, n: nat)
    requires NulFree(s)
    ensures TrimNuls(s + Zeros(n)) == s
  {
    var p := s + Zeros(n);
    if n == 0 {
      assert p == s;
    } else {
      assert p[..|p| - 1] == s + Zeros(n - 1);
      TrimPadded(s, n - 1);
    }
  }

  lemma {:induction false} ValidConcat(s: seq<Byte>, t: seq<Byte>)
    requires ValidUtf8(s) && ValidUtf8(t)
    ensures ValidUtf8(s + t)
    decreases |s|
  {
    if s == [] {
      assert s + t == t;
    } else {
      var n := SequenceLength(s);
      assert SequenceLength(s + t) == n;
      assert (s + t)[n..] == s[n..] + t;
      ValidConcat(s[n..], t);
    }
  }

  lemma {:induction false} AsciiValid(s: seq<Byte>)
    requires forall i :: 0 <= i < |s| ==> s[i] < 0x80
    ensures ValidUtf8(s)
  {
    if s != [] { AsciiValid(s[1..]); }
  }

  lemma TinyTextSerialized(d: DataType)
    requires WellFormed(d) && d.TinyText?
    ensures Serialize(d) == [TAG_TINYTEXT] + Str(d)
  {
    TinyStr(d);
    var n := TINYTEXT_WIDTH - |Str(d)|;
    AsciiValid(Zeros(n));
    ValidConcat(Str(d), Zeros(n));
    TrimPadded(Str(d), n);
  }

  lemma {:induction false} SplitOne(a: seq<Byte>, sep: Byte)
    requires sep !in a
    ensures Split(a, sep) == [a]
  {
    if a != [] {
      SplitOne(a[1..], sep);
      assert a == [a[0]] + a[1..];
    }
  }

  lemma {:induction false} SplitTwo(a: seq<Byte>, b: seq<Byte>, sep: Byte)
    requires sep !in a && sep !in b
    ensures Split(a + [sep] + b, sep) == [a, b]
  {
    var s := a + [sep] + b;
    if a == [] {
      assert s[1..] == b;
      SplitOne(b, sep);
    } else {
      assert s[1..] == a[1..] + [sep] + b;
      SplitTwo(a[1..], b, sep);
      assert a == [a[0]] + a[1..];
    }
  }

  lemma RealRoundTrip(w: int, f: int)
    requires WellFormed(Real(w, f))
    ensures DecodeReal(Print(w) + [UNDERSCORE] + Print(f)) == Real(w, f)
  {
    PrintBytes(w);
    PrintBytes(f);
    SplitTwo(Print(w), Print(f), UNDERSCORE);
    ParsePrint(w, I64_MIN, I64_MAX);
    ParsePrint(f, -0x8000_0000, 0x7fff_ffff);
  }

  lemma TimestampRoundTrip(secs: int, nanos: int)
    requires 0 <= nanos < 2 * GIGA
    ensures var t := match TimestampNanos(secs, nanos) case Some(t) => t case None => 0;
            DecodeNanos(t) == Timestamp(secs, nanos) <==> Codable(Timestamp(secs, nanos))
  {
  }

  lemma IntegerRoundTrip(d: DataType)
    requires WellFormed(d) && IsInteger(d)
    ensures Deserialize(Serialize(d)) == Some(d)
  {
    assert Serialize(d)[1..] == Print(IntegerValue(d));
    match d {
      case Int(n) => ParsePrint(n, -0x8000_0000, 0x7fff_ffff);
      case UnsignedInt(n) => ParsePrint(n, 0, WORD32 - 1);
      case BigInt(n) => ParsePrint(n, I64_MIN, I64_MAX);
      case UnsignedBigInt(n) => ParsePrint(n, 0, WORD64 - 1);
    }
  }

  /** Decoding an encoded value never panics, and returns an equal value exactly for codable ones. */
  lemma ValueRoundTrip(d: DataType)
    requires WellFormed(d)
    ensures Deserialize(Serialize(d)).Some? && WellFormed(Deserialize(Serialize(d)).value)
    ensures Codable(d) <==> Eq(d, Deserialize(Serialize(d)).value)
    ensures Codable(d) ==> Deserialize(Serialize(d)) == Some(Normalized(d))
  {
    NormalizedIsEqual(d);
    if IsInteger(d) {
      IntegerRoundTrip(d);
    } else if IsText(d) {
      TextValueRoundTrip(d);
    } else if d.Real? {
      RealValueRoundTrip(d);
    } else if d.Timestamp? {
      TimestampValueRoundTrip(d);
    }
  }

  lemma RealValueRoundTrip(d: DataType)
    requires WellFormed(d) && d.Real?
    ensures Deserialize(Serialize(d)) == Some(d)
  {
    RealRoundTrip(d.whole, d.frac);
    assert Serialize(d)[1..] == Print(d.whole) + [UNDERSCORE] + Print(d.frac);
  }

  lemma TimestampValueRoundTrip(d: DataType)
    requires WellFormed(d) && d.Timestamp?
    ensures Deserialize(Serialize(d)).Some? && WellFormed(Deserialize(Serialize(d)).value)
    ensures Codable(d) <==> Eq(d, Deserialize(Serialize(d)).value)
    ensures Codable(d) ==> Deserialize(Serialize(d)) == Some(d)
  {
    var s := Serialize(d);
    var t := match TimestampNanos(d.secs, d.nanos) case Some(t) => t case None => 0;
    ParsePrint(t, I64_MIN, I64_MAX);
    TimestampRoundTrip(d.secs, d.nanos);
    assert s[1..] == Print(t);
    assert Deserialize(s) == Some(DecodeNanos(t));
  }

  lemma TryFromStr(d: DataType)
    requires WellFormed(d) && IsText(d)
    ensures TryFrom(Str(d)) == Some(Normalized(d))
  {
    if d.TinyText? { TinyStr(d); }
  }

  lemma TextValueRoundTrip(d: DataType)
    requires WellFormed(d) && IsText(d)
    ensures Deserialize(Serialize(d)) == Some(Normalized(d))
  {
    var s := Serialize(d);
    assert s[0] == TAG_TEXT || s[0] == TAG_TINYTEXT;
    assert Deserialize(s) == TryFrom(s[1..]);
    TextPayload(d);
    TryFromStr(d);
  }

  // ---------------------------------------------------------------------------
  // Keys
  // ---------------------------------------------------------------------------

  /** Parts with a NUL between them. */
  function Join(parts: seq<seq<Byte>>): seq<Byte> {
    if parts == [] then []
    else if |parts| == 1 then parts[0]
    else parts[0] + [0] + Join(parts[1..])
  }

  function Parts(key: seq<DataType>): (parts: seq<seq<Byte>>)
    ensures |parts| == |key|
  {
    seq(|key|, i requires 0 <= i < |key| => Serialize(key[i]))
  }

  /** Values encoded one by one, joined with NUL. */
  function SerializeKey(key: seq<DataType>): seq<Byte> {
    Join(Parts(key))
  }

  /** A key of the integer -305, a text and NULL, spelled out. */
  lemma KeySpelled()
    ensures SerializeKey([Int(-305), Text([104, 105]), DataType.None]) ==
            [73, 45, 51, 48, 53] + [0] + [84, 104, 105] + [0] + [78]
  {
    var key := [Int(-305), Text([104, 105]), DataType.None];
    Spelled();
    AsciiValid([104, 105]);
    var a, b, c: seq<Byte> := [73, 45, 51, 48, 53], [84, 104, 105], [78];
    assert Serialize(key[0]) == a && Serialize(key[1]) == b && Serialize(key[2]) == c;
    assert Parts(key) == [a, b, c];
    var abc, bc := [a, b, c], [b, c];
    assert abc[1..] == bc && bc[1..] == [c];
  }

  lemma SerializedNulFree(d: DataType)
    requires WellFormed(d)
    ensures NulFree(Serialize(d))
  {
    match d {
      case TinyText(a) => TinyTextSerialized(d); TinyStr(d);
      case Real(w, f) => PrintBytes(w); PrintBytes(f);
      case Int(n) => PrintBytes(n);
      case UnsignedInt(n) => PrintBytes(n);
      case BigInt(n) => PrintBytes(n);
      case UnsignedBigInt(n) => PrintBytes(n);
      case Timestamp(s, n) => PrintBytes(match TimestampNanos(s, n) case Some(t) => t case None => 0);
      case _ =>
    }
  }

  function Tag(d: DataType): Byte {
    match d
    case None => TAG_NONE
    case Int(_) => TAG_INT
    case UnsignedInt(_) => TAG_UINT
    case BigInt(_) => TAG_BIGINT
    case UnsignedBigInt(_) => TAG_UBIGINT
    case Real(_, _) => TAG_REAL
    case Text(_) => TAG_TEXT
    case TinyText(_) => TAG_TINYTEXT
    case Timestamp(_, _) => TAG_TIMESTAMP
  }

  lemma SplitTag(d: DataType, e: DataType)
    requires Serialize(d) == Serialize(e)
    ensures Tag(d) == Tag(e) && Serialize(d)[1..] == Serialize(e)[1..]
  {
    assert Serialize(d)[0] == Tag(d) && Serialize(e)[0] == Tag(e);
  }

  lemma NumberPayload(d: DataType)
    requires WellFormed(d) && (IsInteger(d) || (d.Timestamp? && KeySafe(d)))
    ensures Serialize(d)[1..] == Print(if IsInteger(d) then IntegerValue(d) else d.secs * GIGA + d.nanos)
  {
  }

  lemma TextPayload(d: DataType)
    requires WellFormed(d) && IsText(d)
    ensures Serialize(d)[1..] == Str(d)
  {
    if d.TinyText? { TinyTextSerialized(d); }
  }

  /** On values whose encoding identifies them, the encoding is injective. */
  lemma SerializeInjective(d: DataType, e: DataType)
    requires WellFormed(d) && WellFormed(e) && KeySafe(d) && KeySafe(e)
    requires Serialize(d) == Serialize(e)
    ensures d == e
  {
    SplitTag(d, e);
    if IsText(d) {
      TextInjective(d, e);
    } else if d.Real? {
      ValueRoundTrip(d);
      ValueRoundTrip(e);
    } else if !d.None? {
      NumberInjective(d, e);
    }
  }

  lemma TextInjective(d: DataType, e: DataType)
    requires WellFormed(d) && WellFormed(e) && IsText(d) && Tag(d) == Tag(e)
    requires Serialize(d)[1..] == Serialize(e)[1..]
    ensures d == e
  {
    TextPayload(d);
    TextPayload(e);
    if d.TinyText? {
      TinyStr(d);
      TinyStr(e);
    }
  }

  lemma NumberInjective(d: DataType, e: DataType)
    requires WellFormed(d) && WellFormed(e) && Tag(d) == Tag(e) && KeySafe(d) && KeySafe(e)
    requires (IsInteger(d) || d.Timestamp?) && Serialize(d)[1..] == Serialize(e)[1..]
    ensures d == e
  {
    NumberPayload(d);
    NumberPayload(e);
    PrintInjective(if IsInteger(d) then IntegerValue(d) else d.secs * GIGA + d.nanos,
                   if IsInteger(e) then IntegerValue(e) else e.secs * GIGA + e.nanos);
  }

  /** Every timestamp outside that class shares its encoding with another one. */
  lemma UnsafeTimestampCollides(d: DataType) returns (e: DataType)
    requires WellFormed(d) && !KeySafe(d)
    ensures WellFormed(e) && e != d && Serialize(e) == Serialize(d)
  {
    if TimestampNanos(d.secs, d.nanos).None? {
      e := Timestamp(0, 0);
    } else {
      e := Timestamp(d.secs + 1, d.nanos - GIGA);
    }
  }

  lemma JoinHead(a: seq<Byte>, s: seq<Byte>, b: seq<Byte>, t: seq<Byte>)
    requires NulFree(a) && NulFree(b) && a + [0] + s == b + [0] + t
    ensures a == b && s == t
  {
    var x, y := a + [0] + s, b + [0] + t;
    assert x[|a|] == 0 && y[|b|] == 0;
    assert (forall i :: 0 <= i < |a| ==> x[i] == a[i]) && (forall i :: 0 <= i < |b| ==> y[i] == b[i]);
    assert |a| == |b|;
    assert x[..|a|] == a && y[..|b|] == b;
    assert x[|a| + 1..] == s && y[|b| + 1..] == t;
  }

  predicate AllKeySafe(key: seq<DataType>) {
    forall i :: 0 <= i < |key| ==> WellFormed(key[i]) && KeySafe(key[i])
  }

  ghost predicate Separable(parts: seq<seq<Byte>>) {
    forall i :: 0 <= i < |parts| ==> parts[i] != [] && NulFree(parts[i])
  }

  lemma SeparatorInside(s: seq<Byte>, a: seq<Byte>, t: seq<Byte>)
    requires s == a + [0] + t
    ensures !NulFree(s)
  {
    assert s[|a|] == 0;
  }

  lemma {:induction false} JoinInjective(p: seq<seq<Byte>>, q: seq<seq<Byte>>)
    requires Separable(p) && Separable(q) && Join(p) == Join(q)
    ensures p == q
  {
    if |p| >= 2 && |q| >= 2 {
      JoinHead(p[0], Join(p[1..]), q[0], Join(q[1..]));
      JoinInjective(p[1..], q[1..]);
      assert p == [p[0]] + p[1..] && q == [q[0]] + q[1..];
    } else if |p| >= 2 {
      SeparatorInside(Join(p), p[0], Join(p[1..]));
    } else if |q| >= 2 {
      SeparatorInside(Join(q), q[0], Join(q[1..]));
    }
  }

  /** Key encoding is injective over all tuple lengths: no two keys share a cache entry. */
  lemma SerializeKeyInjective(k: seq<DataType>, l: seq<DataType>)
    requires AllKeySafe(k) && AllKeySafe(l) && SerializeKey(k) == SerializeKey(l)
    ensures k == l
  {
    forall i | 0 <= i < |k| ensures NulFree(Parts(k)[i]) { SerializedNulFree(k[i]); }
    forall i | 0 <= i < |l| ensures NulFree(Parts(l)[i]) { SerializedNulFree(l[i]); }
    JoinInjective(Parts(k), Parts(l));
    forall i | 0 <= i < |k| ensures k[i] == l[i] {
      assert Parts(k)[i] == Parts(l)[i];
      SerializeInjective(k[i], l[i]);
    }
  }

  /** Integers as 64-bit signed where they fit, texts as their constructor stores them. */
  predicate Canonical(d: DataType) {
    && WellFormed(d) && !d.Int? && !d.UnsignedInt? && (d.UnsignedBigInt? ==> d.g > I64_MAX)
    && (d.Text? ==> |d.chars| > TINYTEXT_WIDTH)
  }

  ghost predicate KeysEqual(k: seq<DataType>, l: seq<DataType>)
    requires forall i :: 0 <= i < |k| ==> WellFormed(k[i])
    requires forall i :: 0 <= i < |l| ==> WellFormed(l[i])
  {
    |k| == |l| && forall i :: 0 <= i < |k| ==> Eq(k[i], l[i])
  }

  lemma CanonicalEq(d: DataType, e: DataType)
    requires Canonical(d) && Canonical(e)
    ensures Eq(d, e) <==> d == e
  {
  }

  /** For canonical keys, the cache entry is the same exactly when the keys are equal values. */
  lemma CanonicalKeys(k: seq<DataType>, l: seq<DataType>)
    requires AllKeySafe(k) && AllKeySafe(l)
    requires (forall i :: 0 <= i < |k| ==> Canonical(k[i])) && (forall i :: 0 <= i < |l| ==> Canonical(l[i]))
    ensures SerializeKey(k) == SerializeKey(l) <==> KeysEqual(k, l)
  {
    if SerializeKey(k) == SerializeKey(l) {
      SerializeKeyInjective(k, l);
      forall i | 0 <= i < |k| ensures Eq(k[i], l[i]) { CanonicalEq(k[i], l[i]); }
    }
    if KeysEqual(k, l) {
      forall i | 0 <= i < |k| ensures k[i] == l[i] { CanonicalEq(k[i], l[i]); }
      assert k == l;
    }
  }
}
