/** Big-endian numbers as byte sequences. */
module BigEndian {
  import opened Bytes

  function Pow(width: nat): (p: nat)
    ensures p > 0
  {
    if width == 0 then 1 else 0x100 * Pow(width - 1)
  }

  /** The low `width` bytes of n, most significant first. */
  function Encode(n: nat, width: nat): (s: seq<Byte>)
    ensures |s| == width
  {
    if width == 0 then [] else Encode(n / 0x100, width - 1) + [n % 0x100]
  }

  function Value(s: seq<Byte>): nat {
    if s == [] then 0 else Value(s[..|s| - 1]) * 0x100 + s[|s| - 1]
  }

  /** A number that fits is read back. */
  lemma {:induction false} ValueOfEncode(n: nat, width: nat)
    requires n < Pow(width)
    ensures Value(Encode(n, width)) == n
  {
    if width > 0 {
      ValueOfEncode(n / 0x100, width - 1);
      var s := Encode(n, width);
      assert s[..|s| - 1] == Encode(n / 0x100, width - 1);
    }
  }

  /** Bytes that were read are written back. */
  lemma {:induction false} EncodeOfValue(s: seq<Byte>)
    ensures Encode(Value(s), |s|) == s && Value(s) < Pow(|s|)
  {
    if s != [] {
      EncodeOfValue(s[..|s| - 1]);
    }
  }

  lemma Widths()
    ensures Pow(1) == 0x100 && Pow(2) == 0x1_0000 && Pow(3) == 0x100_0000 && Pow(4) == 0x1_0000_0000
    ensures Pow(8) == 0x1_0000_0000_0000_0000
  {
    assert Pow(4) == 0x1_0000_0000;
    assert Pow(8) == 0x100 * (0x100 * (0x100 * (0x100 * Pow(4))));
  }

  lemma {:induction false} ValueOfConcat(a: seq<Byte>, b: seq<Byte>)
    ensures Value(a + b) == Value(a) * Pow(|b|) + Value(b)
  {
    if b == [] {
      assert a + b == a;
    } else {
      var front := b[..|b| - 1];
      assert (a + b)[..|a + b| - 1] == a + front;
      ValueOfConcat(a, front);
      assert Value(a) * (0x100 * Pow(|front|)) == Value(a) * Pow(|front|) * 0x100;
    }
  }

  lemma SmallValues(s: seq<Byte>)
    ensures |s| == 1 ==> Value(s) == s[0]
    ensures |s| == 2 ==> Value(s) == s[0] as int * 0x100 + s[1]
    ensures |s| == 3 ==> Value(s) == s[0] as int * 0x1_0000 + s[1] as int * 0x100 + s[2]
    ensures |s| == 4 ==> Value(s) == s[0] as int * 0x100_0000 + s[1] as int * 0x1_0000 + s[2] as int * 0x100 + s[3]
  {
    if 0 < |s| <= 4 {
      SmallValues(s[..|s| - 1]);
    }
  }

  /** Two's complement: the same bits read as a signed number, and back. */
  function Signed(n: nat, width: nat): int {
    if 2 * n < Pow(width) then n else n - Pow(width)
  }

  function Unsigned(v: int, width: nat): (n: nat)
    requires 0 <= v + Pow(width)
  {
    if v < 0 then v + Pow(width) else v
  }

}
