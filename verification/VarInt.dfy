/** internal/mcproto: 32-bit variable-length integers, and the two other decoders of the same format. */
module VarInt {
  import opened Bits

  type byte = b: int | 0 <= b < 256

  type int32 = v: int | -0x8000_0000 <= v < 0x8000_0000

  const MAX_VARINT_BYTES := 5

  /** The bit pattern of a 32-bit integer, read as an unsigned number. */
  function Unsigned(v: int32): (u: int)
    ensures 0 <= u < 0x1_0000_0000
  {
    if v < 0 then v + 0x1_0000_0000 else v
  }

  function Signed(u: int): int32
    requires 0 <= u < 0x1_0000_0000
  {
    if u < 0x8000_0000 then u else u - 0x1_0000_0000
  }

  /** Go's conversion of a length to int32. */
  function ToInt32(n: int): int32 {
    Signed(n % 0x1_0000_0000)
  }

  /** 2 to the power 7i, for the five shift distances in use. */
  function Weight(i: nat): (w: int)
    requires i <= 5
    ensures w > 0
  {
    if i == 0 then 1
    else if i == 1 then 0x80
    else if i == 2 then 0x4000
    else if i == 3 then 0x20_0000
    else if i == 4 then 0x1000_0000
    else 0x8_0000_0000
  }

  /** The low seven bits of b, shifted to group i of a 32-bit word. */
  function Group(b: byte, i: nat): (g: int)
    requires i < 5
    ensures 0 <= g < 0x1_0000_0000
  {
    b % 128 * Weight(i) % 0x1_0000_0000
  }

  datatype Decoded = Value(value: int32, size: nat) | Truncated | TooLong

  /** Decoding from byte number i with acc gathered so far. */
  function DecodeFrom(s: seq<byte>, i: nat, acc: int): (d: Decoded)
    requires i <= 5 && 0 <= acc < Weight(i) && acc < 0x1_0000_0000
    ensures d.Value? ==> i < d.size <= i + |s| && d.size <= 5
    decreases 5 - i
  {
    if i == 5 then TooLong
    else if s == [] then Truncated
    else
      var acc' := acc + Group(s[0], i);
      if s[0] < 128 then Value(Signed(acc'), i + 1) else DecodeFrom(s[1..], i + 1, acc')
  }

  /** The reference decoder: the value at the front of s and the bytes it takes. */
  function Decode(s: seq<byte>): Decoded {
    DecodeFrom(s, 0, 0)
  }

  function Encode(u: int): (s: seq<byte>)
    requires u >= 0
    ensures |s| >= 1
    decreases u
  {
    if u < 128 then [u] else [u % 128 + 128] + Encode(u / 128)
  }

  function WriteVarInt(v: int32): seq<byte> {
    Encode(Unsigned(v))
  }

  /** u moved up to group i. */
  function Scaled(u: int, i: nat): int
    requires i <= 5
  {
    u * Weight(i)
  }

  /** The first byte of an encoding. */
  function FirstByte(u: int): byte
    requires u >= 0
  {
    if u < 128 then u else u % 128 + 128
  }

  lemma GroupStep(u: int, i: nat, acc: int)
    requires i < 5 && 0 <= acc < Weight(i) && 0 <= u && acc + Scaled(u, i) < 0x1_0000_0000
    ensures var next := acc + Group(FirstByte(u), i);
      && 0 <= next < 0x1_0000_0000 && next < Weight(i + 1)
      && (u < 128 ==> next == acc + Scaled(u, i))
      && (u >= 128 ==> i < 4 && next + Scaled(u / 128, i + 1) == acc + Scaled(u, i))
  {
    var w, q, r := Weight(i), u / 128, u % 128;
    NextWeight(i);
    assert FirstByte(u) % 128 == r;
    hide Weight;
    Distribute(q, r, w);
    Leftover(0, r * w);
  }

  lemma NextWeight(i: nat)
    requires i < 5
    ensures Weight(i + 1) == 128 * Weight(i) && (i == 4 ==> 128 * Weight(i) > 0x1_0000_0000)
  {
  }

  lemma Distribute(q: nat, r: nat, w: nat)
    requires w > 0
    ensures (128 * q + r) * w == q * (128 * w) + r * w
    ensures r < 128 ==> r * w < 128 * w
    ensures q >= 1 ==> q * (128 * w) >= 128 * w
    ensures q * (128 * w) >= 0 && r * w >= 0
  {
    if q >= 1 {
      assert q * (128 * w) == 128 * w + (q - 1) * (128 * w);
      assert (q - 1) * (128 * w) >= 0;
    }
    if r < 128 {
      assert 128 * w == r * w + (128 - r) * w;
      assert (128 - r) * w > 0;
    }
  }

  /** Decoding reads an encoding back from any group on, and leaves what follows alone. */
  lemma {:induction false} DecodeEncode(u: int, i: nat, acc: int, rest: seq<byte>)
    requires i < 5 && 0 <= acc < Weight(i) && 0 <= u && acc + Scaled(u, i) < 0x1_0000_0000
    ensures i + |Encode(u)| <= 5 && 0 <= acc + Scaled(u, i)
    ensures DecodeFrom(Encode(u) + rest, i, acc) == Value(Signed(acc + Scaled(u, i)), i + |Encode(u)|)
    decreases u
  {
    hide Group, Weight, Scaled;
    var s := Encode(u) + rest;
    assert s[0] == FirstByte(u);
    GroupStep(u, i, acc);
    if u >= 128 {
      assert s[1..] == Encode(u / 128) + rest;
      DecodeEncode(u / 128, i + 1, acc + Group(s[0], i), rest);
    }
  }

  /** Every 32-bit value survives encoding and decoding with any suffix, in one to five bytes. */
  lemma RoundTrip(v: int32, rest: seq<byte>)
    ensures 1 <= |WriteVarInt(v)| <= 5
    ensures Decode(WriteVarInt(v) + rest) == Value(v, |WriteVarInt(v)|)
  {
    DecodeEncode(Unsigned(v), 0, 0, rest);
  }

  /** Small non-negative values take one byte, and the next larger ones two. */
  lemma EncodeShort(v: int32)
    requires 0 <= v
    ensures v < 128 ==> WriteVarInt(v) == [v]
    ensures 128 <= v < 0x4000 ==> WriteVarInt(v) == [v % 128 + 128, v / 128]
  {
    if 128 <= v < 0x4000 {
      assert v / 128 < 128;
      assert Encode(v / 128) == [v / 128];
    }
  }

  lemma {:induction false} DecodeExtend(s: seq<byte>, i: nat, acc: int, rest: seq<byte>)
    requires i <= 5 && 0 <= acc < Weight(i) && acc < 0x1_0000_0000
    requires DecodeFrom(s, i, acc).Value?
    ensures DecodeFrom(s + rest, i, acc) == DecodeFrom(s, i, acc)
    decreases 5 - i
  {
    hide Group, Weight;
    assert (s + rest)[0] == s[0] && (s + rest)[1..] == s[1..] + rest;
    if s[0] >= 128 {
      GroupBound(s[0], i, acc);
      DecodeExtend(s[1..], i + 1, acc + Group(s[0], i), rest);
    }
  }

  lemma {:induction false} DecodeShrink(s: seq<byte>, i: nat, acc: int)
    requires i <= 5 && 0 <= acc < Weight(i) && acc < 0x1_0000_0000
    requires DecodeFrom(s, i, acc).Value?
    ensures DecodeFrom(s[..DecodeFrom(s, i, acc).size - i], i, acc) == DecodeFrom(s, i, acc)
    decreases 5 - i
  {
    hide Group, Weight;
    var n := DecodeFrom(s, i, acc).size - i;
    var t := s[..n];
    assert i < 5 && s != [];
    assert t[0] == s[0];
    GroupBound(s[0], i, acc);
    DecodeStep(s, i, acc);
    DecodeStep(t, i, acc);
    hide DecodeFrom;
    if s[0] >= 128 {
      DecodeShrink(s[1..], i + 1, acc + Group(s[0], i));
      assert t[1..] == s[1..][..n - 1];
    }
  }

  lemma DecodeStep(s: seq<byte>, i: nat, acc: int)
    requires i < 5 && s != [] && 0 <= acc < Weight(i) && acc < 0x1_0000_0000
    requires 0 <= acc + Group(s[0], i) < Weight(i + 1) && acc + Group(s[0], i) < 0x1_0000_0000
    ensures DecodeFrom(s, i, acc)
      == if s[0] < 128 then Value(Signed(acc + Group(s[0], i)), i + 1) else DecodeFrom(s[1..], i + 1, acc + Group(s[0], i))
  {
    hide Group, Weight;
  }

  /** What is decoded depends on the decoded bytes alone. */
  lemma DecodeLocal(s: seq<byte>, rest: seq<byte>)
    requires Decode(s).Value?
    ensures Decode(s + rest) == Decode(s) == Decode(s[..Decode(s).size])
  {
    DecodeExtend(s, 0, 0, rest);
    DecodeShrink(s, 0, 0);
  }

  // The same format on bits, as the loops compute it.

  /** A shift left by 7i: i shifts by seven. */
  function Placed(x: bv32, i: nat): bv32
    requires i < 5
  {
    if i == 0 then x else Up(Placed(x, i - 1))
  }

  lemma UpDistances(x: bv32)
    ensures Up(x) == x << 7 && Up(Up(x)) == x << 14 && Up(Up(Up(x))) == x << 21 && Up(Up(Up(Up(x)))) == x << 28
  {
  }

  /** Which are the shifts by 0, 7, 14, 21 and 28. */
  lemma PlacedIs(x: bv32, i: nat)
    requires i < 5
    ensures Placed(x, i) == if i == 0 then x else if i == 1 then x << 7 else if i == 2 then x << 14 else if i == 3 then x << 21 else x << 28
  {
    PlacedUps(x);
    UpDistances(x);
    hide *;
  }

  lemma PlacedUps(x: bv32)
    ensures Placed(x, 0) == x && Placed(x, 1) == Up(x) && Placed(x, 2) == Up(Up(x)) && Placed(x, 3) == Up(Up(Up(x)))
    ensures Placed(x, 4) == Up(Up(Up(Up(x))))
  {
    hide Up;
    var y := Placed(x, 1);
    var z := Placed(x, 2);
    assert Placed(x, 3) == Up(z);
  }

  /** Byte number i of an encoding or-ed into the word gathered so far. */
  function WithGroup(acc: bv32, b: byte, i: nat): bv32
    requires i < 5
  {
    Or(acc, Placed(Seven(BitsOf(b)), i))
  }

  predicate More(b: byte) {
    BitsOf(b) & 0x80 != 0
  }

  /** The word holds nothing beyond the first i groups. */
  predicate Fits(acc: bv32, i: nat)
    requires i <= 5
  {
    if i == 0 then acc == 0
    else if i == 1 then acc < 0x80
    else if i == 2 then acc < 0x4000
    else if i == 3 then acc < 0x20_0000
    else if i == 4 then acc < 0x1000_0000
    else true
  }

  datatype Word = Word(bits: bv32, size: nat) | NoWord(tooLong: bool)

  function ReadBits(s: seq<byte>, i: nat, acc: bv32): Word
    requires i <= 5
    decreases 5 - i
  {
    if i == 5 then NoWord(true)
    else if s == [] then NoWord(false)
    else
      var acc' := WithGroup(acc, s[0], i);
      if More(s[0]) then ReadBits(s[1..], i + 1, acc') else Word(acc', i + 1)
  }

  lemma ByteRange(v: bv32)
    ensures Num(Seven(v)) < 128 && Num(Or(Seven(v), 0x80)) == Num(Seven(v)) + 128
  {
    assert Num(0x80) == 128 by {
      TopBit();
      ShiftUp(1);
      Powers();
    }
    FlagApart(v);
    hide *;
    Cut(v);
    OrIsAdd(Seven(v), 0x80);
  }

  lemma FlagApart(v: bv32)
    ensures Apart(Seven(v), 0x80)
  {
  }

  function LastByte(v: bv32): byte {
    ByteRange(v);
    Num(Seven(v))
  }

  function FlaggedByte(v: bv32): byte {
    ByteRange(v);
    Num(Or(Seven(v), 0x80))
  }

  /** Seven bits to a byte, with bit 7 set on all but the last. */
  function WriteBits(v: bv32): seq<byte>
    decreases v
  {
    if Down(v) == 0 then [LastByte(v)]
    else
      DownIsLess(v);
      [FlaggedByte(v)] + WriteBits(Down(v))
  }

  lemma DownIsLess(v: bv32)
    requires Down(v) != 0
    ensures Down(v) < v
  {
  }

  // What the bit operations come to.

  lemma FlagBit(x: bv32)
    ensures Down(x) == 0 ==> x & 0x80 == 0
    ensures Down(x) == 1 ==> x & 0x80 != 0
  {
  }

  lemma MoreIff(b: byte)
    ensures More(b) <==> b >= 128
  {
    var x := BitsOf(b);
    FlagBit(x);
    hide Num, BitsOf, Down, Seven;
    NumBitsOf(b);
    Cut(x);
    TopBit();
    if b >= 128 {
      Injective(Down(x), 1);
    } else {
      Injective(Down(x), 0);
    }
  }

  /** Shifting a group to its place multiplies it; the fifth loses what leaves the word. */
  lemma ShiftGroup(x: bv32, i: nat)
    requires x < 0x80 && i < 5
    ensures Num(Placed(x, i)) == Num(x) * Weight(i) % 0x1_0000_0000
  {
    hide *;
    SevenOf(x);
    Cut(x);
    PlacedNum(x, i);
    if i < 4 {
      SmallProduct(Num(x), i);
    } else {
      Weights();
      FifthGroup(Num(x));
    }
  }

  lemma SmallProduct(n: nat, i: nat)
    requires n < 128 && i < 4
    ensures n * Weight(i) % 0x1_0000_0000 == n * Weight(i)
  {
    Distribute(0, n, Weight(i));
    Leftover(0, n * Weight(i));
  }

  lemma PlacedNum(x: bv32, i: nat)
    requires x < 0x80 && i < 5
    ensures Num(Placed(x, i)) == (if i < 4 then Num(x) else Num(x) % 16) * Weight(i)
  {
    hide *;
    Weights();
    PlacedUps(x);
    if i < 4 {
      ShiftThrice(x);
    } else {
      FourSmall(x);
      UpFour(x);
      ShiftThrice(Four(x));
      Nibble(x);
    }
  }

  lemma UpFour(x: bv32)
    ensures Up(Up(Up(Up(x)))) == Up(Up(Up(Up(Four(x)))))
  {
  }

  lemma Weights()
    ensures Weight(0) == 1 && Weight(1) == 0x80 && Weight(2) == 0x4000 && Weight(3) == 0x20_0000 && Weight(4) == 0x1000_0000
  {
  }

  lemma SevenOf(x: bv32)
    requires x < 0x80
    ensures Seven(x) == x
  {
  }

  lemma ShiftThrice(x: bv32)
    requires x < 0x80
    ensures Num(Up(x)) == 0x80 * Num(x) && Num(Up(Up(x))) == 0x4000 * Num(x) && Num(Up(Up(Up(x)))) == 0x20_0000 * Num(x)
    ensures x < 0x10 ==> Num(Up(Up(Up(Up(x))))) == 0x1000_0000 * Num(x)
  {
    Rooms(x);
    hide *;
    ShiftUp(x);
    ShiftUp(Up(x));
    ShiftUp(Up(Up(x)));
    if x < 0x10 {
      ShiftUp(Up(Up(Up(x))));
    }
  }

  lemma FifthGroup(n: nat)
    ensures n % 16 * 0x1000_0000 == n * 0x1000_0000 % 0x1_0000_0000
  {
    var q, r := n / 16, n % 16;
    assert n == 16 * q + r;
    assert n * 0x1000_0000 == 0x1_0000_0000 * q + r * 0x1000_0000;
    Leftover(q, r * 0x1000_0000);
  }

  lemma Leftover(q: nat, r: nat)
    requires r < 0x1_0000_0000
    ensures (0x1_0000_0000 * q + r) % 0x1_0000_0000 == r
  {
  }

  lemma FourSmall(x: bv32)
    ensures Four(x) < 0x10
  {
  }

  lemma Rooms(x: bv32)
    requires x < 0x80
    ensures Room(x) && Room(Up(x)) && Room(Up(Up(x))) && (x < 0x10 ==> Room(Up(Up(Up(x)))))
  {
  }

  lemma GroupsApart(acc: bv32, x: bv32, i: nat)
    requires i < 5 && Fits(acc, i) && x < 0x80
    ensures Apart(acc, Placed(x, i)) && Fits(Or(acc, Placed(x, i)), i + 1)
  {
    PlacedIs(x, i);
    if i == 0 {
    } else if i == 1 {
    } else if i == 2 {
    } else if i == 3 {
    } else {
    }
  }

  lemma SevenSmall(x: bv32)
    ensures Seven(x) < 0x80
  {
  }

  /** Or-ing a group in is adding it. */
  lemma GroupIsAdded(acc: bv32, b: byte, i: nat)
    requires i < 5 && Fits(acc, i)
    ensures Num(WithGroup(acc, b, i)) == Num(acc) + Group(b, i) && Fits(WithGroup(acc, b, i), i + 1)
  {
    hide Num, BitsOf, Seven, Placed, Or, Fits, Weight, Apart, Down;
    var x := Seven(BitsOf(b));
    NumBitsOf(b);
    Cut(BitsOf(b));
    SevenSmall(BitsOf(b));
    GroupsApart(acc, x, i);
    ShiftGroup(x, i);
    OrIsAdd(acc, Placed(x, i));
  }

  /** The 32-bit integer with these bits. */
  function Pattern(bits: bv32): int32 {
    NumBound(bits);
    Signed(Num(bits))
  }

  function Meaning(w: Word): Decoded {
    match w
    case Word(bits, n) => Value(Pattern(bits), n)
    case NoWord(tooLong) => if tooLong then TooLong else Truncated
  }

  lemma {:induction false} ReadBitsIsDecode(s: seq<byte>, i: nat, acc: bv32)
    requires i <= 5 && Fits(acc, i) && Num(acc) < Weight(i) && Num(acc) < 0x1_0000_0000
    ensures Meaning(ReadBits(s, i, acc)) == DecodeFrom(s, i, Num(acc))
    decreases 5 - i
  {
    hide Num, Fits, Weight, Group, WithGroup, More;
    if i < 5 && s != [] {
      MoreIff(s[0]);
      GroupIsAdded(acc, s[0], i);
      GroupBound(s[0], i, Num(acc));
      if More(s[0]) {
        ReadBitsIsDecode(s[1..], i + 1, WithGroup(acc, s[0], i));
      }
    }
  }

  /** The decoder on bits computes the reference decoder. */
  lemma ReadBitsMeaning(s: seq<byte>)
    ensures Meaning(ReadBits(s, 0, 0)) == Decode(s)
  {
    assert Num(0) == 0;
    ReadBitsIsDecode(s, 0, 0);
  }

  lemma {:induction false} WriteBitsIsEncode(v: bv32)
    ensures WriteBits(v) == Encode(Num(v))
    decreases v
  {
    ZeroNum();
    hide Num, Down, Seven, Or;
    Cut(v);
    ByteRange(v);
    if Down(v) != 0 {
      DownIsLess(v);
      NonZero(Down(v));
      WriteBitsIsEncode(Down(v));
    }
  }

  lemma ZeroNum()
    ensures Num(0) == 0
  {
  }

  lemma NonZero(v: bv32)
    requires v != 0
    ensures Num(v) > 0
  {
    if Num(v) == 0 {
      TopBit();
      Injective(v, 0);
    }
  }

  /** On bits: every word survives writing and reading with any suffix, in one to five bytes. */
  lemma BitRoundTrip(v: bv32, rest: seq<byte>)
    ensures 1 <= |WriteBits(v)| <= 5
    ensures ReadBits(WriteBits(v) + rest, 0, 0) == Word(v, |WriteBits(v)|)
  {
    hide Num, ReadBits, WriteBits, Encode, Decode;
    var s := WriteBits(v) + rest;
    NumBound(v);
    WriteBitsIsEncode(v);
    ReadBitsMeaning(s);
    RoundTrip(Pattern(v), rest);
    assert Unsigned(Pattern(v)) == Num(v);
    var w := ReadBits(s, 0, 0);
    assert Pattern(w.bits) == Pattern(v);
    NumBound(w.bits);
    Injective(w.bits, v);
  }

  /** A reader over bytes that are still to come. */
  class Reader {
    var rest: seq<byte>

    constructor (bytes: seq<byte>)
      ensures rest == bytes
    {
      rest := bytes;
    }

    method ReadByte() returns (ok: bool, b: byte)
      modifies this
      ensures ok <==> old(rest) != []
      ensures ok ==> b == old(rest)[0] && rest == old(rest)[1..]
      ensures !ok ==> rest == old(rest)
    {
      if rest == [] {
        return false, 0;
      }
      ok, b, rest := true, rest[0], rest[1..];
    }

    /** io.ReadFull: all n bytes, or an error with the stream drained. */
    method ReadFull(n: nat) returns (ok: bool, bytes: seq<byte>)
      modifies this
      ensures ok <==> n <= |old(rest)|
      ensures ok ==> bytes == old(rest)[..n] && rest == old(rest)[n..]
      ensures !ok ==> bytes == old(rest) && rest == []
    {
      if n <= |rest| {
        ok, bytes, rest := true, rest[..n], rest[n..];
      } else {
        ok, bytes, rest := false, rest, [];
      }
    }

    /** ReadVarInt: the loop over at most five bytes. What it returns as raw is what it consumed. */
    method ReadVarInt() returns (d: Decoded, raw: seq<byte>)
      modifies this
      ensures d == Decode(old(rest))
      ensures raw + rest == old(rest)
      ensures d.Value? ==> |raw| == d.size
    {
      hide Decode, WithGroup, More;
      ghost var all := rest;
      var value: bv32 := 0;
      raw := [];
      ReadBitsMeaning(all);
      for i := 0 to MAX_VARINT_BYTES
        invariant i <= |all| && raw == all[..i] && rest == all[i..]
        invariant ReadBits(all[i..], i, value) == ReadBits(all, 0, 0)
      {
        var ok, b := ReadByte();
        if !ok {
          return Truncated, raw;
        }
        raw := raw + [b];
        assert all[i..][0] == b && all[i..][1..] == all[i + 1..] && raw == all[..i + 1];
        value := WithGroup(value, b, i);
        if !More(b) {
          return Value(Pattern(value), i + 1), raw;
        }
      }
      return TooLong, raw;
    }
  }

  lemma GroupBound(b: byte, i: nat, acc: int)
    requires i < 5 && 0 <= acc < Weight(i) && acc < 0x1_0000_0000
    ensures 0 <= acc + Group(b, i) < Weight(i + 1) && acc + Group(b, i) < 0x1_0000_0000
  {
  }

  /** WriteVarInt: the loop that emits seven bits at a time. */
  method EmitVarInt(v: int32) returns (out: seq<byte>)
    ensures out == WriteVarInt(v)
  {
    hide Num, BitsOf, Encode, Down, LastByte, FlaggedByte, WriteBits;
    var value := BitsOf(Unsigned(v));
    NumBitsOf(Unsigned(v));
    WriteBitsIsEncode(value);
    out := [];
    while Down(value) != 0
      invariant out + WriteBits(value) == WriteVarInt(v)
      decreases value
    {
      WriteMore(out, value);
      DownIsLess(value);
      out, value := out + [FlaggedByte(value)], Down(value);
    }
    WriteLast(value);
    out := out + [LastByte(value)];
  }

  lemma WriteMore(out: seq<byte>, v: bv32)
    requires Down(v) != 0
    ensures out + WriteBits(v) == (out + [FlaggedByte(v)]) + WriteBits(Down(v))
  {
    hide FlaggedByte;
  }

  lemma WriteLast(v: bv32)
    requires Down(v) == 0
    ensures WriteBits(v) == [LastByte(v)]
  {
  }

  /** The availability probe's decoder accepts exactly what ReadVarInt accepts, with the same
      value and length. */
  method AvailabilityReadVarInt(data: seq<byte>) returns (ok: bool, value: int32, size: nat)
    ensures ok <==> Decode(data).Value?
    ensures ok ==> Decode(data) == Value(value, size)
  {
    hide Decode, WithGroup, More;
    var acc: bv32 := 0;
    ReadBitsMeaning(data);
    for i := 0 to |data|
      invariant i <= 5 && ReadBits(data[i..], i, acc) == ReadBits(data, 0, 0)
    {
      if i == 5 {
        return false, 0, 0;
      }
      var b := data[i];
      assert data[i..][0] == b && data[i..][1..] == data[i + 1..];
      acc := WithGroup(acc, b, i);
      if !More(b) {
        return true, Pattern(acc), i + 1;
      }
    }
    return false, 0, 0;
  }

  /** The voice decoder accepts exactly the same encodings of non-negative values. */
  method VoiceReadVarInt(data: seq<byte>) returns (ok: bool, value: int32, size: nat)
    ensures ok <==> Decode(data).Value? && Decode(data).value >= 0
    ensures ok ==> Decode(data) == Value(value, size)
  {
    hide Decode, WithGroup, More;
    var acc: bv32 := 0;
    ReadBitsMeaning(data);
    for i := 0 to MAX_VARINT_BYTES
      invariant i <= |data| && ReadBits(data[i..], i, acc) == ReadBits(data, 0, 0)
    {
      if i >= |data| {
        return false, 0, 0;
      }
      var b := data[i];
      assert data[i..][0] == b && data[i..][1..] == data[i + 1..];
      acc := WithGroup(acc, b, i);
      if !More(b) {
        if Pattern(acc) < 0 {
          return false, 0, 0;
        }
        return true, Pattern(acc), i + 1;
      }
    }
    return false, 0, 0;
  }
}
