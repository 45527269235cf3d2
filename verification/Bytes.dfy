/** Bytes, sectors and the little-endian accessors of the FAT structures. */
module Bytes {

  type byte = x: int | 0 <= x < 256

  /** All-ones DWORD: "no sector", "disk error" or "unknown", depending on the field. */
  const ALL_ONES: nat := 0xFFFF_FFFF

  /** A DWORD of the source. */
  type dword = x: nat | x <= 0xFFFF_FFFF

  type Sector = s: seq<byte> | |s| == 512 witness seq(512, _ => 0)

  /** `s` with the bytes from `off` on replaced by `data`. */
  function Splice(s: seq<byte>, off: nat, data: seq<byte>): (r: seq<byte>)
    requires off + |data| <= |s|
    ensures |r| == |s|
    ensures forall i :: 0 <= i < |s| ==> r[i] == if off <= i < off + |data| then data[i - off] else s[i]
  {
    s[..off] + data + s[off + |data|..]
  }

  function LdWord(b0: byte, b1: byte): nat { b0 + 0x100 * b1 }

  function LdDword(b0: byte, b1: byte, b2: byte, b3: byte): nat {
    b0 + 0x100 * b1 + 0x1_0000 * b2 + 0x100_0000 * b3
  }

  function StWord(v: nat): (r: seq<byte>)
    ensures |r| == 2
    ensures LdWord(r[0], r[1]) == v % 0x1_0000
  {
    var q := v / 0x100;
    Euclid(v, 0x1_0000, q / 0x100, v % 0x100 + 0x100 * (q % 0x100));
    [v % 0x100, q % 0x100]
  }

  function StDword(v: nat): (r: seq<byte>)
    requires v < 0x1_0000_0000
    ensures |r| == 4
    ensures LdDword(r[0], r[1], r[2], r[3]) == v
  {
    var q1 := v / 0x100;
    var q2 := q1 / 0x100;
    var q3 := q2 / 0x100;
    [v % 0x100, q1 % 0x100, q2 % 0x100, q3]
  }

  /** Four bytes as a number, the low one first. */
  ghost function Le32(s: seq<byte>, off: nat): int
    requires off + 4 <= |s|
  {
    s[off] as int + 0x100 * s[off + 1] as int + 0x1_0000 * s[off + 2] as int + 0x100_0000 * s[off + 3] as int
  }

  /** Quotient and remainder are unique. */
  lemma Euclid(a: int, d: int, q: int, r: int)
    requires 0 <= r < d && a == d * q + r
    ensures a / d == q && a % d == r
  {
    var q', r' := a / d, a % d;
    assert a == d * q' + r';
    assert d * (q - q') == r' - r;
    MulGrows(d, q - q');
  }

  lemma MulGrows(d: int, k: int)
    requires d > 0
    ensures k >= 1 ==> d * k >= d
    ensures k <= -1 ==> d * k <= -d
  {
  }

  lemma StoredZero(v: nat)
    requires v == 0
    ensures StWord(v) == [0, 0] && StDword(v) == [0, 0, 0, 0]
  {
    hide LdWord, LdDword;
  }

  lemma LoadedZero(v: byte)
    requires v == 0
    ensures LdWord(v, v) == 0 && LdDword(v, v, v, v) == 0
  {
  }

  lemma ZeroWord()
    ensures StWord(0) == [0, 0] && LdWord(0, 0) == 0
    ensures StDword(0) == [0, 0, 0, 0] && LdDword(0, 0, 0, 0) == 0
  {
    hide *;
    StoredZero(0);
    LoadedZero(0);
  }
}
