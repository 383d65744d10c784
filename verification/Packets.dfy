/** The packet reader and writer. */
module Packets {
  import opened Bytes
  import opened BigEndian

  class Packet {
    var pos: nat
    var data: seq<Byte>

    constructor (bytes: seq<Byte>)
      ensures pos == 0 && data == bytes
    {
      pos, data := 0, bytes;
    }

    /** The next `width` bytes are there. */
    predicate Has(width: nat)
      reads this
    {
      pos + width <= |data|
    }

    /** The number in the next `width` bytes, or zero if they are not there. */
    function Number(width: nat): nat
      reads this
    {
      if Has(width) then Value(data[pos..pos + width]) else 0
    }

    // ---- Readers ----

    method ReadByte() returns (r: Byte, ok: bool)
      modifies this`pos
      ensures ok == old(Has(1)) && r == old(Number(1))
      ensures pos == old(pos) + (if ok then 1 else 0)
    {
      if pos >= |data| {
        return 0, false;
      }
      SmallValues(data[pos..pos + 1]);
      r, ok := data[pos], true;
      pos := pos + 1;
    }

    method ReadBool() returns (r: bool, ok: bool)
      modifies this`pos
      ensures ok == old(Has(1)) && r == (old(Number(1)) == 1)
      ensures pos == old(pos) + (if ok then 1 else 0)
    {
      var b, e := ReadByte();
      return b == 1, e;
    }

    method ReadS8() returns (r: I8, ok: bool)
      modifies this`pos
      ensures ok == old(Has(1)) && r == Signed(old(Number(1)), 1)
      ensures pos == old(pos) + (if ok then 1 else 0)
    {
      var n, e := ReadByte();
      Widths();
      return if n < 0x80 then n else n as int - 0x100, e;
    }

    method ReadU16() returns (r: U16, ok: bool)
      modifies this`pos
      ensures ok == old(Has(2)) && r == old(Number(2))
      ensures pos == old(pos) + (if ok then 2 else 0)
    {
      if pos + 2 > |data| {
        return 0, false;
      }
      var buf := data[pos..pos + 2];
      SmallValues(buf);
      r, ok := buf[0] as int * 0x100 + buf[1], true;
      pos := pos + 2;
    }

    method ReadS16() returns (r: int, ok: bool)
      modifies this`pos
      ensures ok == old(Has(2)) && r == Signed(old(Number(2)), 2)
      ensures pos == old(pos) + (if ok then 2 else 0)
    {
      var n, e := ReadU16();
      Widths();
      return if n < 0x8000 then n else n as int - 0x1_0000, e;
    }

    method ReadU24() returns (r: U32, ok: bool)
      modifies this`pos
      ensures ok == old(Has(3)) && r == old(Number(3))
      ensures pos == old(pos) + (if ok then 3 else 0)
    {
      if pos + 3 > |data| {
        return 0, false;
      }
      var buf := data[pos..pos + 3];
      SmallValues(buf);
      r, ok := buf[0] as int * 0x1_0000 + buf[1] as int * 0x100 + buf[2], true;
      pos := pos + 3;
    }

    /** The three bytes are converted as a 32-bit number: the result is never negative. */
    method ReadS24() returns (r: int, ok: bool)
      modifies this`pos
      ensures ok == old(Has(3)) && r == old(Number(3)) && 0 <= r < 0x100_0000
      ensures pos == old(pos) + (if ok then 3 else 0)
    {
      if pos + 3 <= |data| {
        EncodeOfValue(data[pos..pos + 3]);
      }
      Widths();
      var n, e := ReadU24();
      return if n < 0x8000_0000 then n else n as int - 0x1_0000_0000, e;
    }

    method ReadU32() returns (r: U32, ok: bool)
      modifies this`pos
      ensures ok == old(Has(4)) && r == old(Number(4))
      ensures pos == old(pos) + (if ok then 4 else 0)
    {
      if pos + 4 > |data| {
        return 0, false;
      }
      var buf := data[pos..pos + 4];
      SmallValues(buf);
      r, ok := buf[0] as int * 0x100_0000 + buf[1] as int * 0x1_0000 + buf[2] as int * 0x100 + buf[3], true;
      pos := pos + 4;
    }

    method ReadS32() returns (r: int, ok: bool)
      modifies this`pos
      ensures ok == old(Has(4)) && r == Signed(old(Number(4)), 4)
      ensures pos == old(pos) + (if ok then 4 else 0)
    {
      var n, e := ReadU32();
      Widths();
      return if n < 0x8000_0000 then n else n as int - 0x1_0000_0000, e;
    }

    method ReadU64() returns (r: U64, ok: bool)
      modifies this`pos
      ensures ok == old(Has(8)) && r == old(Number(8))
      ensures pos == old(pos) + (if ok then 8 else 0)
    {
      if pos + 8 > |data| {
        return 0, false;
      }
      var buf := data[pos..pos + 8];
      var ret := Accumulate(buf);
      EncodeOfValue(buf);
      Widths();
      r, ok := ret, true;
      pos := pos + 8;
    }

    /** The loop of ReadU64. */
    static method Accumulate(buf: seq<Byte>) returns (ret: nat)
      requires |buf| == 8
      ensures ret == Value(buf)
    {
      ret := 0;
      for i := 0 to 8
        invariant ret == Value(buf[..i]) * Pow(8 - i)
      {
        assert buf[..i + 1][..i] == buf[..i];
        Shift(Value(buf[..i]), buf[i], Pow(7 - i));
        ret := ret + buf[i] * Pow(7 - i);
      }
      assert buf[..8] == buf;
    }

    static lemma Shift(v: nat, b: nat, p: nat)
      ensures v * (0x100 * p) + b * p == (v * 0x100 + b) * p
    {
    }

    method ReadS64() returns (r: I64, ok: bool)
      modifies this`pos
      ensures ok == old(Has(8)) && r == Signed(old(Number(8)), 8)
      ensures pos == old(pos) + (if ok then 8 else 0)
    {
      var n, e := ReadU64();
      Widths();
      return if n < 0x8000_0000_0000_0000 then n else n as int - 0x1_0000_0000_0000_0000, e;
    }

    /** The next two bytes announce a length that is there as well. */
    predicate HasBlock()
      reads this
    {
      Has(2) && Has(2 + Number(2))
    }

    /** Also ReadString, where a string is its bytes. A failure past the length leaves the two bytes consumed. */
    method ReadBytes() returns (r: seq<Byte>, ok: bool)
      modifies this`pos
      ensures ok == old(HasBlock())
      ensures r == if ok then data[old(pos) + 2..old(pos) + 2 + old(Number(2))] else []
      ensures pos == old(pos) + (if ok then 2 + |r| else if old(Has(2)) then 2 else 0)
    {
      if pos + 2 > |data| {
        return [], false;
      }
      var size, _ := ReadU16();
      if pos + size > |data| {
        return [], false;
      }
      r, ok := data[pos..pos + size], true;
      pos := pos + size;
    }

    /** Fails only on a packet without any data, and steps past the end of the data. */
    method ReadRestBytes() returns (r: seq<Byte>, ok: bool)
      requires data == [] || pos <= |data|
      modifies this`pos
      ensures ok == (data != [])
      ensures r == if ok then data[old(pos)..] else []
      ensures pos == old(pos) + |data|
    {
      if |data| <= 0 {
        return [], false;
      }
      r, ok := data[pos..|data|], true;
      pos := pos + |data|;
    }

    // ---- Writers ----

    method WriteZeros(n: int)
      modifies this`data
      ensures data == old(data) + seq(if n < 0 then 0 else n, _ => 0)
    {
      for i := 0 to if n < 0 then 0 else n
        invariant data == old(data) + seq(i, _ => 0)
      {
        data := data + [0];
      }
    }

    method WriteByte(v: Byte)
      modifies this`data
      ensures data == old(data) + Encode(v, 1)
    {
      data := data + [v];
    }

    method WriteBool(v: bool)
      modifies this`data
      ensures data == old(data) + Encode(if v then 1 else 0, 1)
    {
      if v {
        data := data + [1];
      } else {
        data := data + [0];
      }
    }

    method WriteS8(v: I8)
      modifies this`data
      ensures data == old(data) + Encode(Unsigned(v, 1), 1)
    {
      Widths();
      WriteByte(if v < 0 then v + 0x100 else v);
    }

    method WriteU16(v: U16)
      modifies this`data
      ensures data == old(data) + Encode(v, 2)
    {
      data := data + [v / 0x100, v % 0x100];
    }

    method WriteS16(v: int)
      requires -0x8000 <= v < 0x8000
      modifies this`data
      ensures data == old(data) + Encode(Unsigned(v, 2), 2)
    {
      Widths();
      WriteU16(if v < 0 then v + 0x1_0000 else v);
    }

    /** Drops the high byte. */
    method WriteU24(v: U32)
      modifies this`data
      ensures data == old(data) + Encode(v, 3)
    {
      ThreeBytes(v);
      data := data + [v / 0x1_0000 % 0x100, v / 0x100 % 0x100, v % 0x100];
    }

    method WriteU32(v: U32)
      modifies this`data
      ensures data == old(data) + Encode(v, 4)
    {
      FourBytes(v);
      data := data + [v / 0x100_0000, v / 0x1_0000 % 0x100, v / 0x100 % 0x100, v % 0x100];
    }

    static lemma FourBytes(v: nat)
      requires v < 0x1_0000_0000
      ensures Encode(v, 4) == [v / 0x100_0000, v / 0x1_0000 % 0x100, v / 0x100 % 0x100, v % 0x100]
    {
      ThreeBytes(v / 0x100);
      assert Encode(v, 4) == Encode(v / 0x100, 3) + [v % 0x100];
    }

    static lemma ThreeBytes(v: nat)
      ensures Encode(v, 3) == [v / 0x1_0000 % 0x100, v / 0x100 % 0x100, v % 0x100]
    {
      var high := v / 0x100;
      assert Encode(v, 3) == Encode(high, 2) + [v % 0x100];
      assert Encode(high, 2) == Encode(high / 0x100, 1) + [high % 0x100];
    }

    method WriteS32(v: int)
      requires -0x8000_0000 <= v < 0x8000_0000
      modifies this`data
      ensures data == old(data) + Encode(Unsigned(v, 4), 4)
    {
      Widths();
      WriteU32(if v < 0 then v + 0x1_0000_0000 else v);
    }

    method WriteU64(v: U64)
      modifies this`data
      ensures data == old(data) + Encode(v, 8)
    {
      var high, low := v / 0x1_0000_0000, v % 0x1_0000_0000;
      FourBytes(high);
      FourBytes(low);
      EncodeHalves(v);
      data := data + [high / 0x100_0000, high / 0x1_0000 % 0x100, high / 0x100 % 0x100, high % 0x100,
                      low / 0x100_0000, low / 0x1_0000 % 0x100, low / 0x100 % 0x100, low % 0x100];
    }

    static lemma EncodeHalves(v: U64)
      ensures Encode(v, 8) == Encode(v / 0x1_0000_0000, 4) + Encode(v % 0x1_0000_0000, 4)
    {
      Widths();
      var s := Encode(v / 0x1_0000_0000, 4) + Encode(v % 0x1_0000_0000, 4);
      ValueOfEncode(v / 0x1_0000_0000, 4);
      ValueOfEncode(v % 0x1_0000_0000, 4);
      ValueOfConcat(Encode(v / 0x1_0000_0000, 4), Encode(v % 0x1_0000_0000, 4));
      EncodeOfValue(s);
    }

    method WriteS64(v: I64)
      modifies this`data
      ensures data == old(data) + Encode(Unsigned(v, 8), 8)
    {
      Widths();
      WriteU64(if v < 0 then v + 0x1_0000_0000_0000_0000 else v);
    }

    method WriteRawBytes(v: seq<Byte>)
      modifies this`data
      ensures data == old(data) + v
    {
      data := data + v;
    }

    /** Also WriteString. The length wraps at sixteen bits. */
    method WriteBytes(v: seq<Byte>)
      modifies this`data
      ensures data == old(data) + Encode(ToU16(|v|), 2) + v
    {
      WriteU16(ToU16(|v|));
      data := data + v;
    }
  }

  /** Written numbers of every width are read back, signed and unsigned, whatever stands around them. */
  lemma NumberRoundTrip(before: seq<Byte>, n: nat, width: nat, after: seq<Byte>)
    requires n < Pow(width)
    ensures var s := before + Encode(n, width) + after;
            Value(s[|before|..|before| + width]) == n
    ensures forall v :: 0 <= 2 * v + Pow(width) < 2 * Pow(width) && n == Unsigned(v, width) ==> Signed(n, width) == v
  {
    ValueOfEncode(n, width);
    assert (before + Encode(n, width) + after)[|before|..|before| + width] == Encode(n, width);
  }

  /** A number written in three bytes loses what does not fit. */
  lemma ThreeByteRoundTrip(v: U32)
    ensures Value(Encode(v, 3)) == v % 0x100_0000
  {
    Packet.ThreeBytes(v);
    SmallValues(Encode(v, 3));
    hide Encode, Value;
    var high := v / 0x100;
    assert v == high * 0x100 + v % 0x100;
    assert high == high / 0x100 * 0x100 + high % 0x100;
    assert v / 0x1_0000 == high / 0x100;
  }

  lemma LengthRoundTrip(n: U16)
    ensures Value(Encode(n, 2)) == n
  {
    Widths();
    ValueOfEncode(n, 2);
  }

  /** A block is read back exactly if it is shorter than 65536 bytes; of a longer one, what is left of its length
      after the wrap. */
  method BlockRoundTrip(v: seq<Byte>) returns (back: seq<Byte>, ok: bool)
    ensures ok && back == v[..|v| % 0x1_0000]
    ensures back == v <==> |v| < 0x1_0000
  {
    var writer := new Packet([]);
    writer.WriteBytes(v);
    var reader := new Packet(writer.data);
    LengthRoundTrip(ToU16(|v|));
    assert reader.data[0..2] == Encode(ToU16(|v|), 2);
    assert reader.data[2..] == v;
    back, ok := reader.ReadBytes();
  }
}
