/** Bytes, optional values and the little-endian integers every eD2K format is built from. */
module Bytes {

  type Byte = b: int | 0 <= b < 256

  datatype Option<+T> = None | Some(value: T)

  const U16: int := 0x1_0000
  const U32: int := 0x1_0000_0000
  const U64: int := 0x1_0000_0000_0000_0000

  /** The n low bytes of v, least significant first. */
  function LittleEndian(v: nat, n: nat): (r: seq<Byte>)
    ensures |r| == n
  {
    if n == 0 then [] else [v % 256] + LittleEndian(v / 256, n - 1)
  }

  /** The number a little-endian byte string stands for. */
  function Number(s: seq<Byte>): nat {
    if s == [] then 0 else s[0] + 256 * Number(s[1..])
  }

  function Pow256(n: nat): nat {
    if n == 0 then 1 else 256 * Pow256(n - 1)
  }

  lemma Powers()
    ensures Pow256(1) == 256 && Pow256(2) == U16 && Pow256(4) == U32 && Pow256(8) == U64
  {
    assert Pow256(2) == 256 * Pow256(1);
    assert Pow256(4) == 256 * Pow256(3) && Pow256(3) == 256 * Pow256(2);
    assert Pow256(6) == 256 * Pow256(5) && Pow256(5) == 256 * Pow256(4);
    assert Pow256(8) == 256 * Pow256(7) && Pow256(7) == 256 * Pow256(6);
  }

  /** Reading back n bytes of a number gives its residue modulo 256^n: a value that fits is unchanged. */
  lemma {:induction false} NumberOfLittleEndian(v: nat, n: nat)
    ensures Pow256(n) > 0
    ensures v < Pow256(n) ==> Number(LittleEndian(v, n)) == v
  {
    if n > 0 {
      NumberOfLittleEndian(v / 256, n - 1);
      assert LittleEndian(v, n)[1..] == LittleEndian(v / 256, n - 1);
      if v < Pow256(n) {
        assert v / 256 < Pow256(n - 1);
      }
    }
  }

  /** A byte string is the number it stands for, written out again. */
  lemma {:induction false} LittleEndianOfNumber(s: seq<Byte>)
    ensures LittleEndian(Number(s), |s|) == s
  {
    if s != [] {
      LittleEndianOfNumber(s[1..]);
      var n: int, rest := s[0], Number(s[1..]);
      assert Number(s) == n + 256 * rest && (n + 256 * rest) % 256 == n && (n + 256 * rest) / 256 == rest;
    }
  }

  /** The least significant byte comes first. */
  lemma NumberIs(s: seq<Byte>)
    ensures |s| == 1 ==> Number(s) == s[0]
    ensures |s| == 2 ==> Number(s) == s[0] as int + 0x100 * (s[1] as int)
    ensures |s| == 4 ==> Number(s) == s[0] as int + 0x100 * (s[1] as int) + 0x1_0000 * (s[2] as int) + 0x100_0000 * (s[3] as int)
  {
    if s != [] {
      assert Number(s) == s[0] + 256 * Number(s[1..]);
      if |s| >= 2 {
        assert Number(s[1..]) == s[1] + 256 * Number(s[1..][1..]) && s[1..][1..] == s[2..];
        if |s| >= 4 {
          assert Number(s[2..]) == s[2] + 256 * Number(s[2..][1..]) && s[2..][1..] == s[3..];
          assert Number(s[3..]) == s[3] + 256 * Number(s[3..][1..]) && s[3..][1..] == s[4..];
        }
      }
    }
  }
}
