/** The geometry that mounting derives from a boot sector. */
module FatMount {
  import opened Bytes
  import opened FatEntry
  import opened FatData
  import opened FatDirState

  /** The fields of the boot sector that decide; the two-byte and the four-byte counts are given
      separately, as they are stored. */
  datatype Bpb = Bpb(
    bytsPerSec: nat, secPerClus: nat, rsvdSecCnt: nat, numFats: nat, rootEntCnt: nat,
    totSec16: nat, totSec32: nat, fatSz16: nat, fatSz32: nat, rootClus: nat)
  {
    /** The widths of the fields. */
    ghost predicate Valid() {
      && bytsPerSec < 0x1_0000 && secPerClus < 0x100 && rsvdSecCnt < 0x1_0000 && numFats < 0x100
      && rootEntCnt < 0x1_0000
      && totSec16 < 0x1_0000 && totSec32 < 0x1_0000_0000 && fatSz16 < 0x1_0000 && fatSz32 < 0x1_0000_0000
      && rootClus < 0x1_0000_0000
    }

    function FatSize(): nat { if fatSz16 != 0 then fatSz16 else fatSz32 }

    function TotalSectors(): nat { if totSec16 != 0 then totSec16 else totSec32 }

    /** Reserved area, FATs and root directory. */
    function SystemSectors(): nat { rsvdSecCnt + FatSize() * numFats + rootEntCnt / 16 }
  }

  /** 32-bit arithmetic. */
  function Wrap(x: int): (r: nat) ensures r < 0x1_0000_0000 { x % 0x1_0000_0000 }

  predicate PowerOfTwo(n: nat) { n in {1, 2, 4, 8, 16, 32, 64, 128} }

  datatype Mounted = NotFat | Mounted(g: Geometry)

  /** The size of the system area as the code computes it. */
  function SysectOf(b: Bpb): nat { Wrap(b.rsvdSecCnt + Wrap(b.FatSize() * b.numFats) + b.rootEntCnt / 16) }

  function ClustersOf(b: Bpb): nat
    requires b.secPerClus > 0
  {
    if b.TotalSectors() < SysectOf(b) then 0 else (b.TotalSectors() - SysectOf(b)) / b.secPerClus
  }

  function TypeOf(nclst: nat): FsType { if nclst >= 65526 then FAT32 else if nclst >= 4086 then FAT16 else FAT12 }

  /** Bytes that the entries of a FAT take. */
  function NeededFat(fmt: FsType, n: nat): nat {
    match fmt
    case FAT32 => Wrap(n * 4)
    case FAT16 => Wrap(n * 2)
    case FAT12 => Wrap(n * 3) / 2 + n % 2
  }

  function GeometryOf(b: Bpb, bsect: nat, nsect: nat): Geometry
    requires b.secPerClus > 0
  {
    var fmt, fatbase := TypeOf(ClustersOf(b)), Wrap(bsect + b.rsvdSecCnt);
    Geometry(fmt, b.numFats, b.secPerClus, b.rootEntCnt, Wrap(ClustersOf(b) + 2), b.FatSize(), bsect, fatbase,
             if fmt == FAT32 then b.rootClus else Wrap(fatbase + Wrap(b.FatSize() * b.numFats)),
             Wrap(bsect + SysectOf(b)), nsect)
  }

  /** `find_volume`, from the sector size check to the size check of the FAT, on a drive of `nsect` sectors. */
  function Mount(b: Bpb, bsect: nat, nsect: nat): Mounted {
    if b.bytsPerSec != 512 then NotFat
    else if b.numFats != 1 && b.numFats != 2 then NotFat
    else if !PowerOfTwo(b.secPerClus) then NotFat
    else if b.rootEntCnt % 16 != 0 then NotFat
    else if b.rsvdSecCnt == 0 then NotFat
    else if b.TotalSectors() < SysectOf(b) then NotFat
    else if ClustersOf(b) == 0 then NotFat
    else
      var g := GeometryOf(b, bsect, nsect);
      if (g.fsType == FAT32) != (b.rootEntCnt == 0) then NotFat
      else if b.FatSize() < Wrap(NeededFat(g.fsType, g.nFatent) + 511) / 512 then NotFat
      else Mounted(g)
  }

  /** The boot sector is consistent: the system area does not wrap, and on FAT32 the numbers of
      clusters fit 28 bits and there is a reserved sector for FSINFO before the FAT. */
  predicate Consistent(b: Bpb, g: Geometry) {
    && b.SystemSectors() < 0x1_0000_0000
    && (g.fsType == FAT32 ==> g.nFatent <= 0x0FFF_FFFF && b.rsvdSecCnt >= 2)
  }

  /** What the rest of the file system relies on holds exactly for consistent boot sectors, on a
      drive that has all the sectors of the volume. */
  lemma MountIsSound(b: Bpb, bsect: nat, nsect: nat)
    requires b.Valid() && Mount(b, bsect, nsect).Mounted?
    requires bsect + b.TotalSectors() <= nsect <= 0xFFFF_FFFF
    ensures var g := Mount(b, bsect, nsect).g;
            (g.Valid() && DataFits(g) && (g.fsType != FAT32 ==> RootFits(g))) <==> Consistent(b, g)
  {
    var g := Mount(b, bsect, nsect).g;
    if b.SystemSectors() < 0x1_0000_0000 {
      NoWrap(b, bsect, nsect);
      SizesFit(b, bsect, nsect);
    } else {
      WrapOverlaps(b, bsect, nsect);
    }
  }

  /** What was checked. */
  lemma Accepted(b: Bpb, bsect: nat, nsect: nat)
    requires b.Valid() && Mount(b, bsect, nsect).Mounted?
    ensures 1 <= b.numFats <= 2 && 1 <= b.secPerClus <= 128 && b.rsvdSecCnt > 0 && b.rootEntCnt % 16 == 0
    ensures SysectOf(b) <= b.TotalSectors() && 1 <= ClustersOf(b)
    ensures var g := Mount(b, bsect, nsect).g;
            && g == GeometryOf(b, bsect, nsect) && (g.fsType == FAT32 <==> b.rootEntCnt == 0)
            && b.FatSize() >= Wrap(NeededFat(g.fsType, g.nFatent) + 511) / 512
  {
    hide SysectOf, ClustersOf, GeometryOf, NeededFat;
  }

  lemma WrapIs(x: nat)
    requires x < 0x1_0000_0000
    ensures Wrap(x) == x
  {
  }

  lemma WrapBelow(x: int)
    ensures Wrap(x) < 0x1_0000_0000 && (x >= 0 ==> Wrap(x) <= x)
  {
  }

  lemma FatAreaIs(b: Bpb)
    requires 1 <= b.numFats <= 2
    ensures b.FatSize() * b.numFats == if b.numFats == 2 then b.FatSize() + b.FatSize() else b.FatSize()
    ensures b.SystemSectors() == b.rsvdSecCnt + b.FatSize() * b.numFats + b.rootEntCnt / 16
  {
  }

  /** The clusters take no more than the data area. */
  lemma ClusterCount(b: Bpb)
    requires b.secPerClus > 0 && SysectOf(b) <= b.TotalSectors()
    ensures Times(ClustersOf(b), b.secPerClus) <= b.TotalSectors() - SysectOf(b)
    ensures ClustersOf(b) <= b.TotalSectors() - SysectOf(b)
  {
    DivMod(b.TotalSectors() - SysectOf(b), b.secPerClus);
    TimesIs(ClustersOf(b), b.secPerClus);
    if ClustersOf(b) > 0 { MulGrows(ClustersOf(b), b.secPerClus); }
  }

  /** One more cluster would not fit. */
  lemma ClustersFill(b: Bpb)
    requires b.secPerClus > 0 && SysectOf(b) <= b.TotalSectors()
    ensures ClustersOf(b) * b.secPerClus <= b.TotalSectors() - SysectOf(b) < (ClustersOf(b) + 1) * b.secPerClus
  {
    DivMod(b.TotalSectors() - SysectOf(b), b.secPerClus);
    TimesIs(ClustersOf(b), b.secPerClus);
    hide SysectOf;
    assert (ClustersOf(b) + 1) * b.secPerClus == ClustersOf(b) * b.secPerClus + b.secPerClus;
  }

  /** The type as the number of clusters decides it; the limits are one above those of the standard. */
  lemma TypeIs(n: nat)
    ensures TypeOf(n) == FAT12 <==> n <= 4085
    ensures TypeOf(n) == FAT16 <==> 4086 <= n <= 65525
    ensures TypeOf(n) == FAT32 <==> n >= 65526
  {
  }

  /** The volume that a consistent boot sector describes: the areas follow each other in order, the clusters take the
      whole data area, the last one ending less than a cluster before its end, and their number decides the type. */
  lemma MountCovers(b: Bpb, bsect: nat, nsect: nat)
    requires b.Valid() && Mount(b, bsect, nsect).Mounted? && Consistent(b, Mount(b, bsect, nsect).g)
    requires bsect + b.TotalSectors() <= nsect <= 0xFFFF_FFFF
    ensures var g := Mount(b, bsect, nsect).g;
            && g.nFats == b.numFats && g.csize == b.secPerClus && g.nRootdir == b.rootEntCnt && g.fsize == b.FatSize()
            && g.volbase == bsect && g.fatbase == bsect + b.rsvdSecCnt && g.database == bsect + b.SystemSectors()
            && g.dirbase == (if g.fsType == FAT32 then b.rootClus else g.fatbase + b.FatSize() * b.numFats)
    ensures var g := Mount(b, bsect, nsect).g;
            && g.nFatent >= 3
            && (g.nFatent - 2) * g.csize <= b.TotalSectors() - b.SystemSectors() < (g.nFatent - 2 + 1) * g.csize
            && (g.fsType == FAT12 <==> g.nFatent - 2 <= 4085)
            && (g.fsType == FAT16 <==> 4086 <= g.nFatent - 2 <= 65525)
            && (g.fsType == FAT32 <==> g.nFatent - 2 >= 65526)
  {
    var g := Mount(b, bsect, nsect).g;
    assert b.SystemSectors() < 0x1_0000_0000 && (g.fsType == FAT32 ==> b.rsvdSecCnt >= 2);
    hide *;
    NoWrap(b, bsect, nsect);
    Accepted(b, bsect, nsect);
    ClustersFill(b);
    TypeIs(ClustersOf(b));
    GeometryFields(b, bsect, nsect);
    WrapIs(ClustersOf(b) + 2);
  }

  /** Without wrapping the areas follow each other. */
  lemma NoWrap(b: Bpb, bsect: nat, nsect: nat)
    requires b.Valid() && Mount(b, bsect, nsect).Mounted? && b.SystemSectors() < 0x1_0000_0000
    requires bsect + b.TotalSectors() <= nsect <= 0xFFFF_FFFF
    ensures SysectOf(b) == b.SystemSectors() <= b.TotalSectors()
    ensures var g := Mount(b, bsect, nsect).g;
            && g.fatbase == bsect + b.rsvdSecCnt && g.database == bsect + b.SystemSectors()
            && (g.fsType != FAT32 ==> g.dirbase == g.fatbase + b.FatSize() * b.numFats)
            && g.fsType == TypeOf(ClustersOf(b)) && g.nFatent == Wrap(ClustersOf(b) + 2)
            && (ClustersOf(b) + 2 >= 0x1_0000_0000 ==> g.fsType == FAT32 && b.rsvdSecCnt == 1)
  {
    Accepted(b, bsect, nsect);
    FatAreaIs(b);
    ClusterCount(b);
    hide ClustersOf, Wrap, Mount, Bpb.SystemSectors;
    WrapIs(b.FatSize() * b.numFats);
    WrapIs(b.rsvdSecCnt + b.FatSize() * b.numFats + b.rootEntCnt / 16);
    WrapIs(bsect + b.rsvdSecCnt);
    WrapIs(bsect + SysectOf(b));
    WrapIs(bsect + b.rsvdSecCnt + b.FatSize() * b.numFats);
  }

  /** A FAT that passed the size check has room for all its entries. */
  lemma EnoughFat(fmt: FsType, n: nat, fsize: nat)
    requires n <= 0x0FFF_FFFF && fsize >= Wrap(NeededFat(fmt, n) + 511) / 512
    ensures match fmt
            case FAT12 => n + (n + 1) / 2 <= fsize * 512
            case FAT16 => n * 2 <= fsize * 512
            case FAT32 => n * 4 <= fsize * 512
  {
    hide Wrap;
    match fmt
    case FAT12 => WrapIs(n * 3); WrapIs(NeededFat(fmt, n) + 511); HalfMore(n);
    case FAT16 => WrapIs(n * 2); WrapIs(NeededFat(fmt, n) + 511);
    case FAT32 => WrapIs(n * 4); WrapIs(NeededFat(fmt, n) + 511);
  }

  lemma HalfMore(n: nat)
    ensures n * 3 / 2 + n % 2 == n + (n + 1) / 2
  {
    var k, r := n / 2, n % 2;
    Euclid(n * 3, 2, 3 * k + r, r);
    Euclid(n + 1, 2, k + r, 1 - r);
  }

  /** The FAT has room if cluster numbers fit 28 bits. */
  lemma RoomInFat(fmt: FsType, n: nat, fsize: nat)
    requires fsize >= Wrap(NeededFat(fmt, n) + 511) / 512
    ensures n <= 0x0FFF_FFFF ==>
              match fmt
              case FAT12 => n + (n + 1) / 2 <= fsize * 512
              case FAT16 => n * 2 <= fsize * 512
              case FAT32 => n * 4 <= fsize * 512
  {
    if n <= 0x0FFF_FFFF { EnoughFat(fmt, n, fsize); }
  }

  /** The areas of a volume in order, and what its soundness then depends on. */
  lemma AreasFit(g: Geometry, clusters: nat, rsvd: nat, system: nat, total: nat)
    requires 1 <= g.nFats <= 2 && 1 <= g.csize <= 128 && rsvd > 0 && g.nRootdir % 16 == 0 && clusters >= 1
    requires g.fatbase == g.volbase + rsvd && g.database == g.volbase + system && system <= total
    requires system == rsvd + (if g.nFats == 2 then g.fsize + g.fsize else g.fsize) + g.nRootdir / 16
    requires g.volbase + total <= g.nsect <= 0xFFFF_FFFF && Times(clusters, g.csize) <= total - system
    requires g.fsType == TypeOf(clusters) && (g.fsType == FAT32 <==> g.nRootdir == 0)
    requires g.fsType != FAT32 ==> g.dirbase == g.fatbase + (if g.nFats == 2 then g.fsize + g.fsize else g.fsize)
    requires g.fsType != FAT32 || rsvd >= 2 ==> g.nFatent == clusters + 2
    requires g.nFatent <= 0x0FFF_FFFF ==>
               match g.fsType
               case FAT12 => g.nFatent + (g.nFatent + 1) / 2 <= g.fsize * 512
               case FAT16 => g.nFatent * 2 <= g.fsize * 512
               case FAT32 => g.nFatent * 4 <= g.fsize * 512
    ensures g.Valid() && DataFits(g) && (g.fsType != FAT32 ==> RootFits(g)) <==>
            (g.fsType == FAT32 ==> g.nFatent <= 0x0FFF_FFFF && rsvd >= 2)
  {
    hide Times;
  }

  lemma SizesFit(b: Bpb, bsect: nat, nsect: nat)
    requires b.Valid() && Mount(b, bsect, nsect).Mounted? && b.SystemSectors() < 0x1_0000_0000
    requires bsect + b.TotalSectors() <= nsect <= 0xFFFF_FFFF
    ensures var g := Mount(b, bsect, nsect).g;
            (g.Valid() && DataFits(g) && (g.fsType != FAT32 ==> RootFits(g))) <==> Consistent(b, g)
  {
    var g := Mount(b, bsect, nsect).g;
    NoWrap(b, bsect, nsect);
    Accepted(b, bsect, nsect);
    FatAreaIs(b);
    ClusterCount(b);
    GeometryFields(b, bsect, nsect);
    hide Mount, GeometryOf, SysectOf, ClustersOf, Wrap, NeededFat, Times, Bpb.FatSize, Bpb.TotalSectors;
    hide TypeOf, Geometry.Valid, DataFits, RootFits, Bpb.SystemSectors;
    if g.fsType != FAT32 || b.rsvdSecCnt >= 2 { WrapIs(ClustersOf(b) + 2); }
    RoomInFat(g.fsType, g.nFatent, g.fsize);
    AreasFit(g, ClustersOf(b), b.rsvdSecCnt, b.SystemSectors(), b.TotalSectors());
  }

  lemma GeometryFields(b: Bpb, bsect: nat, nsect: nat)
    requires b.secPerClus > 0
    ensures GeometryOf(b, bsect, nsect).fsType == FAT32 ==> GeometryOf(b, bsect, nsect).dirbase == b.rootClus
    ensures var g := GeometryOf(b, bsect, nsect);
            && g.nFats == b.numFats && g.csize == b.secPerClus && g.nRootdir == b.rootEntCnt && g.fsize == b.FatSize()
            && g.volbase == bsect && g.nsect == nsect
            && g.fatbase == Wrap(bsect + b.rsvdSecCnt) && g.database == Wrap(bsect + SysectOf(b))
  {
  }

  /** A system area that wraps would reach beyond the data area. */
  lemma WrapOverlaps(b: Bpb, bsect: nat, nsect: nat)
    requires b.Valid() && Mount(b, bsect, nsect).Mounted? && b.SystemSectors() >= 0x1_0000_0000
    requires bsect + b.TotalSectors() <= nsect <= 0xFFFF_FFFF
    ensures !Mount(b, bsect, nsect).g.Valid()
  {
    hide *;
    Accepted(b, bsect, nsect);
    FatAreaIs(b);
    GeometryFields(b, bsect, nsect);
    WrappedSum(b);
    WrapIs(bsect + SysectOf(b));
    var g := Mount(b, bsect, nsect).g;
    if bsect + b.rsvdSecCnt < 0x1_0000_0000 {
      WrapIs(bsect + b.rsvdSecCnt);
      Overlap(g);
    } else {
      WrapOnce(bsect, b.rsvdSecCnt);
      Reversed(g);
    }
  }

  lemma WrapOnce(a: nat, b: nat)
    requires a < 0x1_0000_0000 && b < 0x1_0000 && a + b >= 0x1_0000_0000
    ensures Wrap(a + b) < a
  {
  }

  lemma Reversed(g: Geometry)
    requires g.fatbase < g.volbase
    ensures !g.Valid()
  {
  }

  lemma Overlap(g: Geometry)
    requires 1 <= g.nFats <= 2 && g.fatbase + (if g.nFats == 2 then g.fsize + g.fsize else g.fsize) > g.database
    ensures !g.Valid()
  {
  }

  lemma WrappedSum(b: Bpb)
    requires b.Valid() && b.SystemSectors() >= 0x1_0000_0000 && 1 <= b.numFats <= 2
    ensures b.rsvdSecCnt < 0x1_0000 && SysectOf(b) < b.rsvdSecCnt + b.FatSize() * b.numFats
  {
    FatAreaIs(b);
    var x := b.FatSize() * b.numFats;
    if x >= 0x1_0000_0000 {
      Euclid(x, 0x1_0000_0000, 1, x - 0x1_0000_0000);
      WrapBelow(b.rsvdSecCnt + Wrap(x) + b.rootEntCnt / 16);
    } else {
      WrapIs(x);
      var y := b.rsvdSecCnt + x + b.rootEntCnt / 16;
      Euclid(y, 0x1_0000_0000, 1, y - 0x1_0000_0000);
    }
  }

  // ---------- Which boot sectors are accepted ----------

  /** Bits of an entry, by the number of clusters. */
  ghost function EntryBits(n: nat): nat { if n <= 4085 then 12 else if n <= 65525 then 16 else 32 }

  /** The rules for a boot sector that describes `n` clusters: sectors of 512 bytes, one or two FATs, a power of two of
      sectors per cluster, whole sectors of root entries, a reserved sector, room for a cluster, a root directory of
      fixed size unless it is FAT32, and FATs with room for the entries of all clusters and the first two. */
  ghost predicate Acceptable(b: Bpb, n: nat) {
    && b.bytsPerSec == 512 && 1 <= b.numFats <= 2 && b.secPerClus in {1, 2, 4, 8, 16, 32, 64, 128}
    && b.rootEntCnt % 16 == 0 && b.rsvdSecCnt >= 1 && n >= 1 && (n >= 65526 <==> b.rootEntCnt == 0)
    && (n + 2) * EntryBits(n) <= 8 * 512 * b.FatSize()
  }

  lemma BytesAndBits(fmt: FsType, n: nat, size: nat)
    requires n <= 0x0FFF_FFFF
    ensures Wrap(NeededFat(fmt, n) + 511) / 512 <= size
            <==> n * (match fmt case FAT12 => 12 case FAT16 => 16 case FAT32 => 32) <= 8 * 512 * size
  {
    hide Wrap;
    match fmt
    case FAT12 =>
      WrapIs(n * 3);
      WrapIs(NeededFat(fmt, n) + 511);
      HalfMore(n);
    case FAT16 =>
      WrapIs(n * 2);
      WrapIs(NeededFat(fmt, n) + 511);
    case FAT32 =>
      WrapIs(n * 4);
      WrapIs(NeededFat(fmt, n) + 511);
  }

  /** Where no number wraps, the boot sectors that follow these rules are accepted, and no others. */
  lemma AcceptedWhen(b: Bpb, bsect: nat, nsect: nat, n: nat)
    requires b.Valid() && b.SystemSectors() < 0x1_0000_0000 && n + 2 <= 0x0FFF_FFFF
    requires n == if b.secPerClus == 0 || b.TotalSectors() < b.SystemSectors() then 0
                  else (b.TotalSectors() - b.SystemSectors()) / b.secPerClus
    ensures Mount(b, bsect, nsect).Mounted? <==> Acceptable(b, n)
  {
    if 1 <= b.numFats <= 2 && b.secPerClus > 0 {
      FatAreaIs(b);
      WrapIs(b.FatSize() * b.numFats);
      WrapIs(b.SystemSectors());
      assert SysectOf(b) == b.SystemSectors() && ClustersOf(b) == n;
      WrapIs(n + 2);
      TypeIs(n);
      BytesAndBits(TypeOf(n), n + 2, b.FatSize());
      GeometryType(b, bsect, nsect);
      hide Wrap, NeededFat, SysectOf, ClustersOf, TypeOf, GeometryOf, Bpb.FatSize, Bpb.SystemSectors, Bpb.TotalSectors;
    }
  }

  lemma GeometryType(b: Bpb, bsect: nat, nsect: nat)
    requires b.secPerClus > 0
    ensures var g := GeometryOf(b, bsect, nsect);
            g.fsType == TypeOf(ClustersOf(b)) && g.nFatent == Wrap(ClustersOf(b) + 2)
  {
  }

  /** A FAT32 boot sector with one reserved sector is accepted although FSINFO, in the sector after
      the boot sector, is then the first sector of the FAT. */
  lemma FsInfoInsideFat()
    ensures var b := Bpb(512, 1, 1, 2, 0, 0, 100_000, 0, 800, 2);
            var m := Mount(b, 0, 100_000);
            m.Mounted? && m.g.fsType == FAT32 && m.g.IsFsInfo(m.g.fatbase) && m.g.InFat1(m.g.fatbase)
  {
  }

  /** A boot sector whose system area wraps is accepted: its data area starts inside its FAT. */
  lemma SystemAreaWraps()
    ensures var b := Bpb(512, 1, 2, 1, 0, 0, 100_000, 0, 0xFFFF_FFFF, 2);
            var m := Mount(b, 0, 100_000);
            && b.Valid() && m.Mounted? && b.SystemSectors() >= 0x1_0000_0000
            && m.g.fatbase <= m.g.database + 1 < m.g.fatbase + m.g.fsize
  {
  }

  /** So is one with more clusters than 28 bits can number. */
  lemma TooManyClusters()
    ensures var b := Bpb(512, 1, 2, 1, 0, 0, 0x1100_0000, 0, 0x22_0000, 2);
            var m := Mount(b, 0, 0x1100_0000);
            && b.Valid() && m.Mounted? && b.SystemSectors() < 0x1_0000_0000 && m.g.fsType == FAT32
            && m.g.nFatent > 0x1000_0000
  {
  }

}
