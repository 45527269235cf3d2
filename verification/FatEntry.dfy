/** The geometry of a mounted volume and the packing of its FAT entries into sectors. */
module FatEntry {
  import opened Bytes

  /** What marks the last cluster of a chain. */
  const LAST_LINK: nat := 0x0FFF_FFFF

  datatype FsType = FAT12 | FAT16 | FAT32

  datatype FResult = FR_OK | FR_DISK_ERR | FR_INT_ERR | FR_NO_FILE | FR_DENIED | FR_EXIST | FR_INVALID_OBJECT

  /** The 12 bits that entry `c` has of its two bytes. */
  function Pick12(c: nat, b0: byte, b1: byte): (r: nat)
    ensures r < 0x1000
  {
    if c % 2 == 1 then LdWord(b0, b1) / 0x10 else LdWord(b0, b1) % 0x1000
  }

  /** The low 28 bits; the top four are reserved. */
  function Link32(b0: byte, b1: byte, b2: byte, b3: byte): (r: nat)
    ensures r < 0x1000_0000
  {
    LdDword(b0, b1, b2, b3 % 0x10)
  }

  /** The fields of the file system object that mounting sets once and for all. */
  datatype Geometry = Geometry(
    fsType: FsType, nFats: nat, csize: nat, nRootdir: nat, nFatent: nat, fsize: nat,
    volbase: nat, fatbase: nat, dirbase: nat, database: nat, nsect: nat)
  {
    /** What mounting guarantees about those fields. */
    ghost predicate Valid() {
      && 1 <= nFats <= 2 && 1 <= csize <= 128 && 3 <= nFatent
      && volbase < fatbase
      && fatbase + fsize <= database && (nFats == 2 ==> fatbase + 2 * fsize <= database)
      && database <= nsect <= ALL_ONES
      && (match fsType
          case FAT12 => nFatent <= 0xFF7 && nFatent + (nFatent + 1) / 2 <= fsize * 512
          case FAT16 => nFatent <= 0xFFF7 && nFatent * 2 <= fsize * 512
          case FAT32 => nFatent <= 0x0FFF_FFFF && nFatent * 4 <= fsize * 512 && volbase + 1 < fatbase)
    }

    ghost predicate InFat1(s: nat) { fatbase <= s < fatbase + fsize }

    ghost predicate InFat2(s: nat) { nFats == 2 && fatbase + fsize <= s < fatbase + 2 * fsize }

    ghost predicate IsFsInfo(s: nat) { fsType == FAT32 && s == volbase + 1 }

    /** Byte `o` of the first FAT. */
    ghost function FatByte(v: seq<Sector>, o: nat): byte
      requires Valid() && |v| == nsect && o < fsize * 512
    {
      v[fatbase + o / 512][o % 512]
    }

    /** Offset in bytes of the first byte that entry `c` uses. */
    function EntryOff(c: nat): (o: nat)
    {
      match fsType
      case FAT12 => c + c / 2
      case FAT16 => 2 * c
      case FAT32 => 4 * c
    }

    function EntryBytes(): nat { if fsType == FAT32 then 4 else 2 }

    lemma FatSector(o: nat)
      requires Valid() && o < fsize * 512
      ensures InFat1(fatbase + o / 512) && fatbase + o / 512 < nsect && !InFat2(fatbase + o / 512)
    {
    }

    lemma EntryFits(c: nat)
      requires Valid() && c < nFatent
      ensures EntryOff(c) + EntryBytes() <= fsize * 512
      ensures EntryBytes() == if fsType == FAT32 then 4 else 2
      ensures EntryOff(c) == match fsType case FAT12 => c + c / 2 case FAT16 => c * 2 case FAT32 => c * 4
    {
    }

    /** The value of FAT entry `c`, as the on-disk format defines it. */
    ghost function Entry(v: seq<Sector>, c: nat): nat
      requires Valid() && |v| == nsect && c < nFatent
    {
      EntryFits(c);
      var o := EntryOff(c);
      match fsType
      case FAT12 => Pick12(c, FatByte(v, o), FatByte(v, o + 1))
      case FAT16 => LdWord(FatByte(v, o), FatByte(v, o + 1))
      case FAT32 => Link32(FatByte(v, o), FatByte(v, o + 1), FatByte(v, o + 2), FatByte(v, o + 3))
    }

    ghost function Fat(v: seq<Sector>): (r: seq<nat>)
      requires Valid() && |v| == nsect
      ensures |r| == nFatent && forall c :: 0 <= c < nFatent ==> r[c] == Entry(v, c)
    {
      seq(nFatent, c requires 0 <= c < nFatent => Entry(v, c))
    }

    /** What an entry of this width keeps of a stored value. */
    function Kept(val: nat): nat {
      match fsType
      case FAT12 => val % 0x1000
      case FAT16 => val % 0x1_0000
      case FAT32 => val % 0x1000_0000
    }

    /** The mount thresholds: every link fits its width, and the end mark reads back as one. */
    lemma KeptLinks()
      requires Valid()
      ensures Kept(0) == 0 && Kept(LAST_LINK) >= nFatent
      ensures forall c: nat :: c < nFatent ==> Kept(c) == c
    {
    }

    lemma KeptIs(val: nat)
      requires val < 0x1000_0000
      ensures Kept(val) == match fsType case FAT12 => val % 0x1000 case FAT16 => val % 0x1_0000 case FAT32 => val
    {
    }
  }

  /** One store through the window. */
  datatype Patch = Patch(sector: nat, off: nat, data: seq<byte>)

  ghost function Apply(v: seq<Sector>, p: Patch): (r: seq<Sector>)
    ensures |r| == |v|
  {
    if p.sector < |v| && p.off + |p.data| <= 512
    then v[p.sector := Splice(v[p.sector], p.off, p.data)]
    else v
  }

  ghost function Replay(v: seq<Sector>, log: seq<Patch>): (r: seq<Sector>)
    ensures |r| == |v|
  {
    if log == [] then v else Apply(Replay(v, log[..|log| - 1]), log[|log| - 1])
  }

  /** Equal first FATs decode to equal entries. */
  lemma FatDependsOnFat1(g: Geometry, v: seq<Sector>, v': seq<Sector>)
    requires g.Valid() && |v| == |v'| == g.nsect
    requires forall s: nat :: g.InFat1(s) ==> v[s] == v'[s]
    ensures g.Fat(v) == g.Fat(v')
  {
    forall c | 0 <= c < g.nFatent ensures g.Entry(v, c) == g.Entry(v', c) {
      SameEntry(g, v, v', c);
    }
  }

  lemma SameEntry(g: Geometry, v: seq<Sector>, v': seq<Sector>, c: nat)
    requires g.Valid() && |v| == |v'| == g.nsect && c < g.nFatent
    requires forall s: nat :: g.InFat1(s) ==> v[s] == v'[s]
    ensures g.Entry(v, c) == g.Entry(v', c)
  {
    g.EntryFits(c);
    var o := g.EntryOff(c);
    SameByte(g, v, v', o);
    SameByte(g, v, v', o + 1);
    if g.fsType == FAT32 {
      SameByte(g, v, v', o + 2);
      SameByte(g, v, v', o + 3);
    }
  }

  lemma SameByte(g: Geometry, v: seq<Sector>, v': seq<Sector>, o: nat)
    requires g.Valid() && |v| == |v'| == g.nsect && o < g.fsize * 512
    requires forall s: nat :: g.InFat1(s) ==> v[s] == v'[s]
    ensures g.FatByte(v, o) == g.FatByte(v', o)
  {
    assert g.InFat1(g.fatbase + o / 512);
  }

  /** A store of `n` bytes at byte `o` of the first FAT, seen byte by byte. */
  ghost predicate FatPatched(g: Geometry, v: seq<Sector>, v': seq<Sector>, o: nat, data: seq<byte>)
    requires g.Valid() && |v| == |v'| == g.nsect
  {
    && o + |data| <= g.fsize * 512
    && forall k: nat :: k < g.fsize * 512 ==>
         g.FatByte(v', k) == if o <= k < o + |data| then data[k - o] else g.FatByte(v, k)
  }

  lemma PatchFatBytes(g: Geometry, v: seq<Sector>, o: nat, data: seq<byte>)
    requires g.Valid() && |v| == g.nsect
    requires o + |data| <= g.fsize * 512 && o % 512 + |data| <= 512
    ensures FatPatched(g, v, Apply(v, Patch(g.fatbase + o / 512, o % 512, data)), o, data)
  {
    forall k: nat | k < g.fsize * 512 {
      PatchFatByte(g, v, o, data, k);
    }
  }

  lemma PatchFatByte(g: Geometry, v: seq<Sector>, o: nat, data: seq<byte>, k: nat)
    requires g.Valid() && |v| == g.nsect && k < g.fsize * 512
    requires o + |data| <= g.fsize * 512 && o % 512 + |data| <= 512
    ensures var v' := Apply(v, Patch(g.fatbase + o / 512, o % 512, data));
            g.FatByte(v', k) == if o <= k < o + |data| then data[k - o] else g.FatByte(v, k)
  {
    var i, j := k / 512, o / 512;
    assert k == 512 * i + k % 512 && o == 512 * j + o % 512;
  }

  lemma Mask28(b0: byte, b1: byte, b2: byte, b3: byte)
    ensures LdDword(b0, b1, b2, b3) % 0x1000_0000 == Link32(b0, b1, b2, b3)
  {
    Euclid(LdDword(b0, b1, b2, b3), 0x1000_0000, b3 / 0x10, Link32(b0, b1, b2, b3));
  }

  /** FAT16 and FAT32 entries never straddle two sectors. */
  lemma RoomLeft(o: nat, n: nat)
    requires (n == 2 || n == 4) && o % n == 0
    ensures o % 512 + n <= 512
  {
    var q, r := o / 512, o % 512;
    assert o == 512 * q + r;
    if n == 2 {
      Euclid(o, 2, 256 * q + r / 2, r % 2);
    } else {
      Euclid(o, 4, 128 * q + r / 4, r % 4);
    }
  }

  lemma Aligned(o: nat, n: nat, k: nat)
    requires (n == 2 || n == 4) && o % n == 0 && k < n
    ensures (o + k) / 512 == o / 512 && (o + k) % 512 == o % 512 + k
  {
    RoomLeft(o, n);
    Euclid(o + k, 512, o / 512, o % 512 + k);
  }

  /** `p` is the bytes of the FAT from `o` on. */
  ghost predicate BytesAt(g: Geometry, v: seq<Sector>, o: nat, p: seq<byte>)
    requires g.Valid() && |v| == g.nsect
  {
    o + |p| <= g.fsize * 512 && forall k :: 0 <= k < |p| ==> p[k] == g.FatByte(v, o + k)
  }

  lemma BytesKept(g: Geometry, v: seq<Sector>, v': seq<Sector>, o: nat, p: seq<byte>)
    requires g.Valid() && |v| == |v'| == g.nsect && BytesAt(g, v, o, p)
    requires forall s: nat :: g.InFat1(s) ==> v[s] == v'[s]
    ensures BytesAt(g, v', o, p)
  {
    forall k | 0 <= k < |p| ensures p[k] == g.FatByte(v', o + k) { SameByte(g, v, v', o + k); }
  }

  lemma BytesJoin(g: Geometry, v: seq<Sector>, o: nat, p: seq<byte>, q: seq<byte>)
    requires g.Valid() && |v| == g.nsect && |p| == |q| == 1 && BytesAt(g, v, o, p) && BytesAt(g, v, o + 1, q)
    ensures BytesAt(g, v, o, p + q)
  {
    assert p[0] == g.FatByte(v, o + 0) && q[0] == g.FatByte(v, o + 1 + 0);
  }

  /** The value that the bytes of entry `c` encode. */
  method Decode(g: Geometry, ghost v: seq<Sector>, c: nat, p: seq<byte>) returns (val: nat)
    requires g.Valid() && |v| == g.nsect && c < g.nFatent
    requires |p| == g.EntryBytes() && BytesAt(g, v, g.EntryOff(c), p)
    ensures val == g.Entry(v, c) < ALL_ONES
    ensures match g.fsType
            case FAT12 =>
              val == if c % 2 == 0 then p[0] as int + 0x100 * (p[1] as int % 0x10)
                     else p[0] as int / 0x10 + 0x10 * p[1] as int
            case FAT16 => val == p[0] as int + 0x100 * p[1] as int
            case FAT32 =>
              val == (p[0] as int + 0x100 * p[1] as int + 0x1_0000 * p[2] as int + 0x100_0000 * p[3] as int)
                     % 0x1000_0000
  {
    EntryOfBytes(g, v, c, p);
    match g.fsType
    case FAT12 =>
      Pick12Is(c, p[0], p[1]);
      val := Pick12(c, p[0], p[1]);
    case FAT16 => val := LdWord(p[0], p[1]);
    case FAT32 =>
      Mask28(p[0], p[1], p[2], p[3]);
      val := LdDword(p[0], p[1], p[2], p[3]) % 0x1000_0000;
  }

  /** The two bytes of a FAT12 entry: an even one has the low byte and the low nibble of the high one, an odd one the
      high nibble of the low byte and the high byte. */
  lemma Pick12Is(c: nat, b0: byte, b1: byte)
    ensures Pick12(c, b0, b1) == if c % 2 == 0 then b0 + 0x100 * (b1 % 0x10) else b0 / 0x10 + 0x10 * b1
  {
    if c % 2 == 0 {
      Euclid(LdWord(b0, b1), 0x1000, b1 / 0x10, b0 + 0x100 * (b1 % 0x10));
    } else {
      Euclid(LdWord(b0, b1), 0x10, b0 / 0x10 + 0x10 * b1, b0 % 0x10);
    }
  }

  /** The value that the bytes of entry `c` stand for: the low byte first, and 28 of the 32 bits on FAT32. */
  ghost predicate Encodes(g: Geometry, v: seq<Sector>, c: nat, val: nat)
    requires g.Valid() && |v| == g.nsect && c < g.nFatent
  {
    g.EntryFits(c);
    match g.fsType
    case FAT12 =>
      var b0, b1 := g.FatByte(v, c + c / 2), g.FatByte(v, c + c / 2 + 1);
      val == if c % 2 == 0 then b0 + 0x100 * (b1 % 0x10) else b0 / 0x10 + 0x10 * b1
    case FAT16 => val == g.FatByte(v, 2 * c) + 0x100 * g.FatByte(v, 2 * c + 1)
    case FAT32 =>
      val == (g.FatByte(v, 4 * c) + 0x100 * g.FatByte(v, 4 * c + 1) + 0x1_0000 * g.FatByte(v, 4 * c + 2)
              + 0x100_0000 * g.FatByte(v, 4 * c + 3)) % 0x1000_0000
  }

  /** The FAT as the links that its bytes encode. */
  lemma EntryIsEncoded(g: Geometry, v: seq<Sector>, c: nat)
    requires g.Valid() && |v| == g.nsect && c < g.nFatent
    ensures Encodes(g, v, c, g.Entry(v, c)) && g.Fat(v)[c] == g.Entry(v, c)
  {
    g.EntryFits(c);
    match g.fsType
    case FAT12 => Pick12Is(c, g.FatByte(v, c + c / 2), g.FatByte(v, c + c / 2 + 1));
    case FAT16 =>
    case FAT32 =>
      Mask28(g.FatByte(v, 4 * c), g.FatByte(v, 4 * c + 1), g.FatByte(v, 4 * c + 2), g.FatByte(v, 4 * c + 3));
  }

  lemma EntryOfBytes(g: Geometry, v: seq<Sector>, c: nat, p: seq<byte>)
    requires g.Valid() && |v| == g.nsect && c < g.nFatent
    requires |p| == g.EntryBytes() && BytesAt(g, v, g.EntryOff(c), p)
    ensures g.Entry(v, c) == match g.fsType
                             case FAT12 => Pick12(c, p[0], p[1])
                             case FAT16 => LdWord(p[0], p[1])
                             case FAT32 => Link32(p[0], p[1], p[2], p[3])
  {
    var o := g.EntryOff(c);
    assert p[0] == g.FatByte(v, o + 0) && p[1] == g.FatByte(v, o + 1);
    if g.fsType == FAT32 { assert p[2] == g.FatByte(v, o + 2) && p[3] == g.FatByte(v, o + 3); }
  }

  /** A sector-aligned slice of a FAT sector is a slice of the FAT. */
  lemma SliceOfFat(g: Geometry, v: seq<Sector>, o: nat, n: nat)
    requires g.Valid() && |v| == g.nsect && o + n <= g.fsize * 512
    requires n == 1 || ((n == 2 || n == 4) && o % n == 0)
    ensures o % 512 + n <= 512 && BytesAt(g, v, o, v[g.fatbase + o / 512][o % 512..o % 512 + n])
  {
    if n > 1 { Aligned(o, n, n - 1); }
    var p := v[g.fatbase + o / 512][o % 512..o % 512 + n];
    forall k | 0 <= k < n ensures p[k] == g.FatByte(v, o + k) {
      if n > 1 { Aligned(o, n, k); }
    }
  }

  /** Entries whose bytes the store misses keep their value. */
  lemma EntryApart(g: Geometry, v: seq<Sector>, v': seq<Sector>, o: nat, data: seq<byte>, c: nat)
    requires g.Valid() && |v| == |v'| == g.nsect && c < g.nFatent
    requires FatPatched(g, v, v', o, data)
    requires g.EntryOff(c) + g.EntryBytes() <= o || o + |data| <= g.EntryOff(c)
    ensures g.Entry(v', c) == g.Entry(v, c)
  {
    g.EntryFits(c);
  }

  lemma Store16(g: Geometry, v: seq<Sector>, v': seq<Sector>, clst: nat, val: nat)
    requires g.Valid() && g.fsType == FAT16 && |v| == |v'| == g.nsect && clst < g.nFatent
    requires FatPatched(g, v, v', g.EntryOff(clst), StWord(val))
    ensures g.Fat(v') == g.Fat(v)[clst := g.Kept(val)]
  {
    forall c | 0 <= c < g.nFatent ensures g.Entry(v', c) == if c == clst then g.Kept(val) else g.Entry(v, c) {
      if c == clst { g.EntryFits(c); } else { EntryApart(g, v, v', g.EntryOff(clst), StWord(val), c); }
    }
  }

  lemma Store32(g: Geometry, v: seq<Sector>, v': seq<Sector>, clst: nat, data: seq<byte>)
    requires g.Valid() && g.fsType == FAT32 && |v| == |v'| == g.nsect && clst < g.nFatent && |data| == 4
    requires FatPatched(g, v, v', g.EntryOff(clst), data)
    ensures g.Fat(v') == g.Fat(v)[clst := Link32(data[0], data[1], data[2], data[3])]
  {
    assert g.EntryBytes() == 4;
    assert forall c: nat :: g.EntryOff(c) == 4 * c;
    hide *;
    forall c | 0 <= c < g.nFatent
      ensures g.Entry(v', c) == if c == clst then Link32(data[0], data[1], data[2], data[3]) else g.Entry(v, c)
    {
      if c == clst { Own32(g, v, v', clst, data); } else { EntryApart(g, v, v', g.EntryOff(clst), data, c); }
    }
  }

  /** A 28-bit link stored under the reserved top bits of the old entry. */
  function Merge32(val: nat, old3: byte): (r: seq<byte>)
    requires val < 0x1000_0000
    ensures |r| == 4 && Link32(r[0], r[1], r[2], r[3]) == val
    ensures r[3] / 0x10 == old3 / 0x10
  {
    var w := StDword(val);
    assert w[3] < 0x10;
    var b3 := w[3] + old3 / 0x10 * 0x10;
    Euclid(b3, 0x10, old3 / 0x10, w[3]);
    [w[0], w[1], w[2], b3]
  }

  lemma Own32(g: Geometry, v: seq<Sector>, v': seq<Sector>, clst: nat, data: seq<byte>)
    requires g.Valid() && g.fsType == FAT32 && |v| == |v'| == g.nsect && clst < g.nFatent && |data| == 4
    requires FatPatched(g, v, v', g.EntryOff(clst), data)
    ensures g.Entry(v', clst) == Link32(data[0], data[1], data[2], data[3])
  {
    g.EntryFits(clst);
    var o := g.EntryOff(clst);
    assert g.FatByte(v', o) == data[0] && g.FatByte(v', o + 1) == data[1];
    assert g.FatByte(v', o + 2) == data[2] && g.FatByte(v', o + 3) == data[3];
  }

  /** The bytes that the two halves of a FAT12 store write, each keeping a neighbour's nibble. */
  function Lo12(clst: nat, val: nat, old0: byte): byte {
    if clst % 2 == 1 then old0 % 0x10 + val % 0x10 * 0x10 else val % 0x100
  }

  function Hi12(clst: nat, val: nat, old1: byte): byte {
    if clst % 2 == 1 then val / 0x10 % 0x100 else old1 / 0x10 * 0x10 + val / 0x100 % 0x10
  }

  lemma Pick12Own(clst: nat, val: nat, b0: byte, b1: byte)
    ensures Pick12(clst, Lo12(clst, val, b0), Hi12(clst, val, b1)) == val % 0x1000
  {
    if clst % 2 == 1 {
      var q, r := val / 0x10, val % 0x10;
      Euclid(LdWord(Lo12(clst, val, b0), q % 0x100), 0x10, r + 0x10 * (q % 0x100), b0 % 0x10);
      Euclid(val, 0x1000, q / 0x100, r + 0x10 * (q % 0x100));
    } else {
      var q, r := val / 0x100, val % 0x100;
      Euclid(LdWord(r, Hi12(clst, val, b1)), 0x1000, b1 / 0x10, r + 0x100 * (q % 0x10));
      Euclid(val, 0x1000, q / 0x10, r + 0x100 * (q % 0x10));
    }
  }

  /** An odd entry's low byte is shared with the entry before it. */
  lemma Pick12Before(c: nat, val: nat, b0: byte, b1: byte)
    requires c % 2 == 0
    ensures Pick12(c, b0, Lo12(c + 1, val, b1)) == Pick12(c, b0, b1)
  {
    var n := b0 + 0x100 * (b1 % 0x10);
    Euclid(LdWord(b0, b1), 0x1000, b1 / 0x10, n);
    Euclid(LdWord(b0, Lo12(c + 1, val, b1)), 0x1000, val % 0x10, n);
  }

  lemma Nibbles(b0: byte, b1: byte, q: nat, r: nat)
    requires r < 0x10 && b0 + 0x100 * b1 == 0x10 * q + r
    ensures LdWord(b0, b1) / 0x10 == q
  {
    Euclid(LdWord(b0, b1), 0x10, q, r);
  }

  /** An even entry's high byte is shared with the entry after it. */
  lemma Pick12After(c: nat, val: nat, b0: byte, b1: byte)
    requires c % 2 == 0
    ensures Pick12(c + 1, Hi12(c, val, b0), b1) == Pick12(c + 1, b0, b1)
  {
    var q, r := b0 / 0x10 + 0x10 * b1, val / 0x100 % 0x10;
    Nibbles(b0, b1, q, b0 % 0x10);
    assert Hi12(c, val, b0) == b0 / 0x10 * 0x10 + r && (b0 / 0x10 * 0x10 + r) / 0x10 == b0 / 0x10;
    Nibbles(Hi12(c, val, b0), b1, q, r);
  }

  lemma Apart12(c: nat, d: nat)
    requires c < d
    ensures c + c / 2 + 2 <= d + d / 2 || (c % 2 == 0 && d == c + 1 && d + d / 2 == c + c / 2 + 1)
  {
  }

  lemma Store12(g: Geometry, v: seq<Sector>, v1: seq<Sector>, v2: seq<Sector>, clst: nat, val: nat)
    requires g.Valid() && g.fsType == FAT12 && |v| == |v1| == |v2| == g.nsect && clst < g.nFatent
    requires g.EntryOff(clst) + 2 <= g.fsize * 512
    requires var o := g.EntryOff(clst);
             && FatPatched(g, v, v1, o, [Lo12(clst, val, g.FatByte(v, o))])
             && FatPatched(g, v1, v2, o + 1, [Hi12(clst, val, g.FatByte(v1, o + 1))])
    ensures g.Fat(v2) == g.Fat(v)[clst := g.Kept(val)]
  {
    forall c | 0 <= c < g.nFatent ensures g.Entry(v2, c) == if c == clst then g.Kept(val) else g.Entry(v, c) {
      Store12At(g, v, v1, v2, clst, val, c);
    }
  }

  lemma Store12At(g: Geometry, v: seq<Sector>, v1: seq<Sector>, v2: seq<Sector>, clst: nat, val: nat, c: nat)
    requires g.Valid() && g.fsType == FAT12 && |v| == |v1| == |v2| == g.nsect && clst < g.nFatent && c < g.nFatent
    requires g.EntryOff(clst) + 2 <= g.fsize * 512
    requires var o := g.EntryOff(clst);
             && FatPatched(g, v, v1, o, [Lo12(clst, val, g.FatByte(v, o))])
             && FatPatched(g, v1, v2, o + 1, [Hi12(clst, val, g.FatByte(v1, o + 1))])
    ensures g.Entry(v2, c) == if c == clst then g.Kept(val) else g.Entry(v, c)
  {
    g.EntryFits(c);
    var o := g.EntryOff(clst);
    var b0, b1 := g.FatByte(v, o), g.FatByte(v, o + 1);
    if c == clst {
      Pick12Own(clst, val, b0, b1);
    } else if c < clst {
      Apart12(c, clst);
      if clst == c + 1 && c % 2 == 0 { Pick12Before(c, val, g.FatByte(v, g.EntryOff(c)), b0); }
    } else {
      Apart12(clst, c);
      if c == clst + 1 && clst % 2 == 0 { Pick12After(clst, val, b1, g.FatByte(v, g.EntryOff(c) + 1)); }
    }
  }

  /** Half of a FAT12 store changes no other entry. */
  lemma Half12(g: Geometry, v: seq<Sector>, v1: seq<Sector>, clst: nat, val: nat)
    requires g.Valid() && g.fsType == FAT12 && |v| == |v1| == g.nsect && clst < g.nFatent
    requires g.EntryOff(clst) + 2 <= g.fsize * 512
    requires FatPatched(g, v, v1, g.EntryOff(clst), [Lo12(clst, val, g.FatByte(v, g.EntryOff(clst)))])
    ensures forall c :: 0 <= c < g.nFatent && c != clst ==> g.Fat(v1)[c] == g.Fat(v)[c]
  {
    forall c | 0 <= c < g.nFatent && c != clst ensures g.Entry(v1, c) == g.Entry(v, c) {
      g.EntryFits(c);
      if c < clst {
        Apart12(c, clst);
        if clst == c + 1 && c % 2 == 0 {
          Pick12Before(c, val, g.FatByte(v, g.EntryOff(c)), g.FatByte(v, g.EntryOff(clst)));
        }
      } else {
        Apart12(clst, c);
      }
    }
  }
}
