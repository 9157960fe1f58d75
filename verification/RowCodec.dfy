/** Row encoding of the view cache: the encoded values as frames. */
module RowCodec {
  import opened Values
  import opened DataTypes
  import opened Decimals
  import opened Codec
  import opened Frames

  /** One stored text; invalid UTF-8 reads as the empty text. */
  function DecodeItem(text: seq<Byte>): Option<DataType> {
    Deserialize(if ValidUtf8(text) then text else [])
  }

  function SerializeRow(row: seq<DataType>): seq<Byte> {
    Pack(Parts(row))
  }

  function DeserializeRow(bytes: seq<Byte>): Option<seq<DataType>> {
    Unpack(DecodeItem, bytes)
  }

  // ---------------------------------------------------------------------------
  // Round trip
  // ---------------------------------------------------------------------------

  predicate AllWellFormed(row: seq<DataType>) {
    forall i :: 0 <= i < |row| ==> WellFormed(row[i])
  }

  /** Fewer than 2^32 columns, each of them codable and encoded in fewer than 2^32 bytes. */
  predicate Storable(row: seq<DataType>) {
    |row| < WORD32 && forall i :: 0 <= i < |row| ==> Codable(row[i]) && Small(Serialize(row[i]))
  }

  function NormalizedRow(row: seq<DataType>): (r: seq<DataType>)
    requires AllWellFormed(row)
    ensures |r| == |row|
  {
    seq(|row|, i requires 0 <= i < |row| => Normalized(row[i]))
  }

  ghost predicate RowsEqual(a: seq<DataType>, b: seq<DataType>)
    requires AllWellFormed(a)
  {
    |a| == |b| && AllWellFormed(b) && forall i :: 0 <= i < |a| ==> Eq(a[i], b[i])
  }

  lemma {:induction false} SerializedValid(d: DataType)
    requires WellFormed(d)
    ensures ValidUtf8(Serialize(d))
  {
    if IsText(d) {
      TextPayload(d);
      if d.TinyText? { TinyStr(d); }
      var s := Serialize(d);
      assert s == [s[0]] + Str(d);
      AsciiValid([s[0]]);
      ValidConcat([s[0]], Str(d));
    } else {
      SerializedAscii(d);
      AsciiValid(Serialize(d));
    }
  }

  lemma SerializedAscii(d: DataType)
    requires WellFormed(d) && !IsText(d)
    ensures forall i :: 0 <= i < |Serialize(d)| ==> Serialize(d)[i] < 0x80
  {
    match d {
      case Real(w, f) => PrintBytes(w); PrintBytes(f);
      case Int(n) => PrintBytes(n);
      case UnsignedInt(n) => PrintBytes(n);
      case BigInt(n) => PrintBytes(n);
      case UnsignedBigInt(n) => PrintBytes(n);
      case Timestamp(s, n) => PrintBytes(match TimestampNanos(s, n) case Some(t) => t case None => 0);
      case None =>
    }
  }

  lemma PartsDecode(row: seq<DataType>)
    requires AllWellFormed(row) && forall i :: 0 <= i < |row| ==> Codable(row[i])
    ensures Decodes(DecodeItem, Parts(row), NormalizedRow(row))
  {
    forall i | 0 <= i < |row| ensures DecodeItem(Parts(row)[i]) == Some(Normalized(row[i])) {
      SerializedValid(row[i]);
      ValueRoundTrip(row[i]);
    }
  }

  /** Decoding any prefix of a stored row gives a prefix of the row, and the whole encoding the
      whole row, up to the representation of its texts. */
  lemma CutRowDecodes(row: seq<DataType>, t: nat) returns (k: nat)
    requires AllWellFormed(row) && Storable(row) && t <= |SerializeRow(row)|
    ensures k <= |row| && DeserializeRow(SerializeRow(row)[..t]) == Some(NormalizedRow(row)[..k])
    ensures t == |SerializeRow(row)| ==> k == |row|
  {
    PartsDecode(row);
    k := CutPacked(DecodeItem, Parts(row), NormalizedRow(row), t);
  }

  // ---------------------------------------------------------------------------
  // Exactly the storable rows survive
  // ---------------------------------------------------------------------------

  function Pow10(k: nat): nat {
    if k == 0 then 1 else 10 * Pow10(k - 1)
  }

  lemma {:induction false} DigitsShort(n: nat, k: nat)
    requires k > 0 && n < Pow10(k)
    ensures |Digits(n)| <= k
  {
    if n >= 10 { DigitsShort(n / 10, k - 1); }
  }

  lemma PrintShort(n: int)
    requires -WORD64 <= n <= WORD64
    ensures |Print(n)| <= 21
  {
    assert Pow10(5) == 100_000;
    assert Pow10(10) == 10_000_000_000;
    assert Pow10(15) == 1_000_000_000_000_000;
    assert Pow10(20) == 100_000_000_000_000_000_000;
    DigitsShort(if n < 0 then -n else n, 20);
  }

  lemma OnlyTextIsLarge(d: DataType)
    requires WellFormed(d) && !Small(Serialize(d))
    ensures d.Text?
  {
    match d {
      case Int(n) => PrintShort(n);
      case UnsignedInt(n) => PrintShort(n);
      case BigInt(n) => PrintShort(n);
      case UnsignedBigInt(n) => PrintShort(n);
      case Real(w, f) => PrintShort(w); PrintShort(f);
      case TinyText(_) => TextPayload(d); TinyStr(d);
      case Timestamp(s, n) => PrintShort(match TimestampNanos(s, n) case Some(t) => t case None => 0);
      case _ =>
    }
  }

  /** A text of 2^32 bytes or more never comes out of a frame. */
  lemma LargeTextIsCut(d: DataType, text: seq<Byte>)
    requires WellFormed(d) && d.Text? && !Small(Serialize(d)) && Small(text)
    ensures var v := DecodeItem(text); v.Some? && WellFormed(v.value) ==> !Eq(d, v.value)
  {
  }

  lemma LargeRowFails(row: seq<DataType>, result: seq<DataType>, i: nat)
    requires AllWellFormed(row) && DeserializeRow(SerializeRow(row)) == Some(result)
    requires i < |row| && !Small(Serialize(row[i]))
    ensures !RowsEqual(row, result)
  {
    var texts := UnpackedSmall(DecodeItem, Parts(row), result);
    OnlyTextIsLarge(row[i]);
    if |row| == |result| {
      LargeTextIsCut(row[i], texts[i]);
    }
  }

  lemma UncodableRowFails(row: seq<DataType>, result: seq<DataType>, i: nat)
    requires AllWellFormed(row) && DeserializeRow(SerializeRow(row)) == Some(result)
    requires AllSmall(Parts(row)) && i < |row| && !Codable(row[i])
    ensures !RowsEqual(row, result)
  {
    UnpackedExactly(DecodeItem, Parts(row), result);
    SerializedValid(row[i]);
    ValueRoundTrip(row[i]);
    assert DecodeItem(Parts(row)[i]) == Some(result[i]);
  }

  /** A row of well-formed values comes back equal exactly when it is storable. */
  lemma RowRoundTrip(row: seq<DataType>)
    requires AllWellFormed(row)
    ensures Storable(row) <==>
            DeserializeRow(SerializeRow(row)).Some? && RowsEqual(row, DeserializeRow(SerializeRow(row)).value)
  {
    var full := SerializeRow(row);
    if Storable(row) {
      var k := CutRowDecodes(row, |full|);
      assert full[..|full|] == full && NormalizedRow(row)[..k] == NormalizedRow(row);
      forall i | 0 <= i < |row| ensures WellFormed(NormalizedRow(row)[i]) && Eq(row[i], NormalizedRow(row)[i]) {
        NormalizedIsEqual(row[i]);
      }
    } else if DeserializeRow(full).Some? {
      var result := DeserializeRow(full).value;
      if |row| >= WORD32 {
        var texts := UnpackedSmall(DecodeItem, Parts(row), result);
      } else if j :| 0 <= j < |row| && !Small(Serialize(row[j])) {
        LargeRowFails(row, result, j);
      } else {
        var i :| 0 <= i < |row| && !Codable(row[i]);
        UncodableRowFails(row, result, i);
      }
    }
  }
}
