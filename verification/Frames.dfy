/** Length-prefixed frames: a count, then each item behind its 32-bit length. */
module Frames {
  import opened Values

  /** Low 32 bits, least significant byte first. */
  function Le32(n: nat): (s: seq<Byte>)
    ensures |s| == 4
  {
    var m := n % WORD32;
    [m % 256, m / 256 % 256, m / 256 / 256 % 256, m / 256 / 256 / 256]
  }

  function FromLe32(s: seq<Byte>, pos: nat): (n: nat)
    requires pos + 4 <= |s|
  {
    (s[pos] as int) + 256 * ((s[pos + 1] as int) + 256 * ((s[pos + 2] as int) + 256 * (s[pos + 3] as int)))
  }

  function Frame(item: seq<Byte>): seq<Byte> {
    Le32(|item|) + item
  }

  function Framed(items: seq<seq<Byte>>): seq<Byte> {
    if items == [] then [] else Frame(items[0]) + Framed(items[1..])
  }

  lemma {:induction false} FramedAppend(items: seq<seq<Byte>>, item: seq<Byte>)
    ensures Framed(items + [item]) == Framed(items) + Frame(item)
  {
    if items == [] {
      assert items + [item] == [item] && [item][1..] == [];
    } else {
      assert (items + [item])[1..] == items[1..] + [item];
      FramedAppend(items[1..], item);
    }
  }

  /** Up to `count` frames from `pos` on; a cut-off frame ends the list. */
  function Unframed(bytes: seq<Byte>, pos: nat, count: nat): (items: seq<seq<Byte>>)
    ensures |items| <= count
    decreases count
  {
    if count == 0 || pos + 4 > |bytes| then []
    else
      var len := FromLe32(bytes, pos);
      if pos + 4 + len > |bytes| then []
      else [bytes[pos + 4..pos + 4 + len]] + Unframed(bytes, pos + 4 + len, count - 1)
  }

  predicate Small(item: seq<Byte>) {
    |item| < WORD32
  }

  lemma ReadFrame(pre: seq<Byte>, item: seq<Byte>, post: seq<Byte>)
    ensures var bytes := pre + Frame(item) + post;
            FromLe32(bytes, |pre|) == |item| % WORD32 && bytes[|pre| + 4..|pre| + 4 + |item|] == item
  {
  }

  lemma FromLe32Prefix(bytes: seq<Byte>, t: nat, pos: nat)
    requires pos + 4 <= t <= |bytes|
    ensures FromLe32(bytes[..t], pos) == FromLe32(bytes, pos)
  {
  }

  /** A frame cut off reads as nothing. */
  lemma CutInside(full: seq<Byte>, pre: seq<Byte>, item: seq<Byte>, post: seq<Byte>, t: nat, count: nat)
    requires full == pre + Frame(item) + post && Small(item) && |pre| <= t < |pre| + 4 + |item|
    ensures Unframed(full[..t], |pre|, count) == []
  {
  }

  lemma CutBehind(full: seq<Byte>, pre: seq<Byte>, item: seq<Byte>, post: seq<Byte>, t: nat, count: nat)
    requires full == pre + Frame(item) + post && Small(item) && count > 0 && |pre| + 4 + |item| <= t <= |full|
    ensures Unframed(full[..t], |pre|, count) == [item] + Unframed(full[..t], |pre + Frame(item)|, count - 1)
  {
    ReadFrame(pre, item, post);
    FromLe32Prefix(full, t, |pre|);
    assert full[..t][|pre| + 4..|pre| + 4 + |item|] == item;
  }

  lemma Regrouped(x: seq<Byte>, y: seq<Byte>, z: seq<Byte>)
    ensures x + (y + z) == x + y + z
  {
  }

  /** Cutting the frames anywhere behind `pre` leaves a prefix of the items; uncut, all of them. */
  lemma {:induction false} CutFrames(full: seq<Byte>, pre: seq<Byte>, items: seq<seq<Byte>>, t: nat) returns (k: nat)
    requires full == pre + Framed(items) && |pre| <= t <= |full|
    requires forall i :: 0 <= i < |items| ==> Small(items[i])
    ensures k <= |items| && Unframed(full[..t], |pre|, |items|) == items[..k]
    ensures t == |full| ==> k == |items|
    decreases |items|
  {
    k := 0;
    if items != [] {
      var item, rest := items[0], items[1..];
      var pre' := pre + Frame(item);
      Regrouped(pre, Frame(item), Framed(rest));
      if t < |pre'| {
        CutInside(full, pre, item, Framed(rest), t, |items|);
      } else {
        CutBehind(full, pre, item, Framed(rest), t, |items|);
        var j := CutFrames(full, pre', rest, t);
        k := 1 + j;
        assert items[..k] == [item] + rest[..j];
      }
    }
  }

  /** A length prefix cannot announce more than 2^32 - 1 bytes. */
  lemma {:induction false} UnframedSmall(bytes: seq<Byte>, pos: nat, count: nat, i: nat)
    requires i < |Unframed(bytes, pos, count)|
    ensures Small(Unframed(bytes, pos, count)[i])
    decreases count
  {
    if i > 0 {
      UnframedSmall(bytes, pos + 4 + FromLe32(bytes, pos), count - 1, i - 1);
    }
  }

  // ---------------------------------------------------------------------------
  // A count, the framed items, and a decoder for each of them
  // ---------------------------------------------------------------------------

  function Pack(items: seq<seq<Byte>>): seq<Byte> {
    Le32(|items|) + Framed(items)
  }

  /** One item of two bytes, spelled out. */
  lemma PackSpelled(a: Byte, b: Byte)
    ensures Pack([[a, b]]) == [1, 0, 0, 0] + [2, 0, 0, 0] + [a, b] && Le32(258) == [2, 1, 0, 0]
  {
    var items: seq<seq<Byte>> := [[a, b]];
    assert items[1..] == [] && Framed([]) == [] && Framed(items) == Frame([a, b]) + [];
    assert Le32(1) == [1, 0, 0, 0] && Le32(2) == [2, 0, 0, 0];
  }

  method PackAll(items: seq<seq<Byte>>) returns (bytes: seq<Byte>)
    ensures bytes == Pack(items)
  {
    bytes := Le32(|items|);
    for i := 0 to |items|
      invariant bytes == Le32(|items|) + Framed(items[..i])
    {
      bytes := bytes + Le32(|items[i]|) + items[i];
      FramedAppend(items[..i], items[i]);
      assert items[..i + 1] == items[..i] + [items[i]];
    }
    assert items[..|items|] == items;
  }

  type Decoder<!T> = seq<Byte> -> Option<T>

  function Prepend<T>(xs: seq<T>, rest: Option<seq<T>>): Option<seq<T>> {
    match rest case None => None case Some(r) => Some(xs + r)
  }

  lemma PrependTwice<T>(xs: seq<T>, x: T, rest: Option<seq<T>>)
    ensures Prepend(xs, Prepend([x], rest)) == Prepend(xs + [x], rest)
  {
    if rest.Some? { assert xs + ([x] + rest.value) == xs + [x] + rest.value; }
  }

  /** All items decoded; `None` if one of them panics. */
  function DecodeAll<T>(decode: Decoder<T>, items: seq<seq<Byte>>): Option<seq<T>> {
    if items == [] then Some([])
    else
      match decode(items[0])
      case None => None
      case Some(x) => Prepend([x], DecodeAll(decode, items[1..]))
  }

  function Unpack<T>(decode: Decoder<T>, bytes: seq<Byte>): Option<seq<T>> {
    if |bytes| < 4 then Some([]) else DecodeAll(decode, Unframed(bytes, 4, FromLe32(bytes, 0)))
  }

  /** Reading and decoding frame by frame. */
  function Read<T>(decode: Decoder<T>, bytes: seq<Byte>, pos: nat, count: nat): Option<seq<T>>
    decreases count
  {
    if count == 0 || pos + 4 > |bytes| then Some([])
    else
      var len := FromLe32(bytes, pos);
      if pos + 4 + len > |bytes| then Some([])
      else
        match decode(bytes[pos + 4..pos + 4 + len])
        case None => None
        case Some(x) => Prepend([x], Read(decode, bytes, pos + 4 + len, count - 1))
  }

  lemma {:induction false} ReadIsDecode<T>(decode: Decoder<T>, bytes: seq<Byte>, pos: nat, count: nat)
    ensures Read(decode, bytes, pos, count) == DecodeAll(decode, Unframed(bytes, pos, count))
    decreases count
  {
    if count > 0 && pos + 4 <= |bytes| && pos + 4 + FromLe32(bytes, pos) <= |bytes| {
      var next := pos + 4 + FromLe32(bytes, pos);
      ReadIsDecode(decode, bytes, next, count - 1);
      assert Unframed(bytes, pos, count)[1..] == Unframed(bytes, next, count - 1);
    }
  }

  method UnpackAll<T>(decode: Decoder<T>, bytes: seq<Byte>) returns (result: Option<seq<T>>)
    ensures result == Unpack(decode, bytes)
  {
    if |bytes| < 4 {
      return Some([]);
    }
    var count := FromLe32(bytes, 0);
    ReadIsDecode(decode, bytes, 4, count);
    result := ReadFrames(decode, bytes, 4, count);
  }

  method ReadFrames<T>(decode: Decoder<T>, bytes: seq<Byte>, start: nat, count: nat) returns (result: Option<seq<T>>)
    ensures result == Read(decode, bytes, start, count)
  {
    var row: seq<T>, pos: nat := [], start;
    ghost var whole := Read(decode, bytes, start, count);
    assert whole.Some? ==> [] + whole.value == whole.value;
    for i := 0 to count
      invariant whole == Prepend(row, Read(decode, bytes, pos, count - i))
    {
      assert row + [] == row;
      if pos + 4 > |bytes| {
        return Some(row);
      }
      var len := FromLe32(bytes, pos);
      if pos + 4 + len > |bytes| {
        return Some(row);
      }
      var value := decode(bytes[pos + 4..pos + 4 + len]);
      if value.None? {
        return None;
      }
      pos := pos + 4 + len;
      PrependTwice(row, value.value, Read(decode, bytes, pos, count - (i + 1)));
      row := row + [value.value];
    }
    assert row + [] == row;
    result := Some(row);
  }

  lemma {:induction false} DecodePointwise<T>(decode: Decoder<T>, items: seq<seq<Byte>>)
    ensures DecodeAll(decode, items).Some? <==> forall i :: 0 <= i < |items| ==> decode(items[i]).Some?
    ensures DecodeAll(decode, items).Some? ==>
              |DecodeAll(decode, items).value| == |items| &&
              forall i :: 0 <= i < |items| ==> decode(items[i]) == Some(DecodeAll(decode, items).value[i])
  {
    if items != [] {
      DecodePointwise(decode, items[1..]);
      assert items == [items[0]] + items[1..];
    }
  }

  lemma PackedCount(items: seq<seq<Byte>>, t: nat)
    requires 4 <= t <= |Pack(items)|
    ensures FromLe32(Pack(items)[..t], 0) == |items| % WORD32
  {
  }

  predicate AllSmall(items: seq<seq<Byte>>) {
    |items| < WORD32 && forall i :: 0 <= i < |items| ==> Small(items[i])
  }

  predicate Decodes<T(==)>(decode: Decoder<T>, items: seq<seq<Byte>>, values: seq<T>) {
    |items| == |values| && forall i :: 0 <= i < |items| ==> decode(items[i]) == Some(values[i])
  }

  /** Any prefix of a packed list unpacks to a prefix of its values, the whole of it to all of them. */
  lemma CutPacked<T>(decode: Decoder<T>, items: seq<seq<Byte>>, values: seq<T>, t: nat) returns (k: nat)
    requires AllSmall(items) && Decodes(decode, items, values) && t <= |Pack(items)|
    ensures k <= |values| && Unpack(decode, Pack(items)[..t]) == Some(values[..k])
    ensures t == |Pack(items)| ==> k == |values|
  {
    if t < 4 {
      k := 0;
    } else {
      PackedCount(items, t);
      k := CutBehindCount(decode, Le32(|items|), items, values, t);
    }
  }

  lemma CutBehindCount<T>(decode: Decoder<T>, pre: seq<Byte>, items: seq<seq<Byte>>, values: seq<T>,
                          t: nat) returns (k: nat)
    requires AllSmall(items) && Decodes(decode, items, values)
    requires |pre| == 4 <= t <= |pre + Framed(items)| && FromLe32((pre + Framed(items))[..t], 0) == |items|
    ensures k <= |values| && Unpack(decode, (pre + Framed(items))[..t]) == Some(values[..k])
    ensures t == |pre + Framed(items)| ==> k == |values|
  {
    k := CutFrames(pre + Framed(items), pre, items, t);
    DecodesTo(decode, items[..k], values[..k]);
  }

  lemma DecodesTo<T>(decode: Decoder<T>, items: seq<seq<Byte>>, values: seq<T>)
    requires Decodes(decode, items, values)
    ensures DecodeAll(decode, items) == Some(values)
  {
    DecodePointwise(decode, items);
    assert DecodeAll(decode, items).value == values;
  }

  /** Whatever was packed, each value unpacked comes from a text of fewer than 2^32 bytes. */
  lemma UnpackedSmall<T>(decode: Decoder<T>, items: seq<seq<Byte>>, values: seq<T>)
    returns (texts: seq<seq<Byte>>)
    requires Unpack(decode, Pack(items)) == Some(values)
    ensures Decodes(decode, texts, values) && AllSmall(texts)
  {
    PackedCount(items, |Pack(items)|);
    assert Pack(items)[..|Pack(items)|] == Pack(items);
    texts := Unframed(Pack(items), 4, |items| % WORD32);
    DecodePointwise(decode, texts);
    forall i | 0 <= i < |texts| ensures Small(texts[i]) {
      UnframedSmall(Pack(items), 4, |items| % WORD32, i);
    }
  }

  lemma WholeCount(items: seq<seq<Byte>>)
    ensures FromLe32(Pack(items), 0) == |items| % WORD32
  {
  }

  lemma WholeFrames(pre: seq<Byte>, items: seq<seq<Byte>>)
    requires forall i :: 0 <= i < |items| ==> Small(items[i])
    ensures Unframed(pre + Framed(items), |pre|, |items|) == items
  {
    var full := pre + Framed(items);
    var k := CutFrames(full, pre, items, |full|);
    assert full[..|full|] == full && items[..k] == items;
  }

  lemma UnpackWhole<T>(decode: Decoder<T>, pre: seq<Byte>, items: seq<seq<Byte>>)
    requires AllSmall(items) && |pre| == 4 && FromLe32(pre + Framed(items), 0) == |items|
    ensures Unpack(decode, pre + Framed(items)) == DecodeAll(decode, items)
  {
    WholeFrames(pre, items);
  }

  /** If nothing was too long, the values unpacked are those of the items packed. */
  lemma UnpackedExactly<T>(decode: Decoder<T>, items: seq<seq<Byte>>, values: seq<T>)
    requires AllSmall(items) && Unpack(decode, Pack(items)) == Some(values)
    ensures Decodes(decode, items, values)
  {
    WholeCount(items);
    UnpackWhole(decode, Le32(|items|), items);
    DecodePointwise(decode, items);
  }
}
