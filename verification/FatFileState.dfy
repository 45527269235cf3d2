/** What an open file contains, as a function of its chain, its sector buffer and the
    drive, and how the steps of reading, writing and seeking act on it. */
module FatFileState {
  import opened Bytes
  import opened Seqs
  import opened FatEntry
  import opened FatVolume
  import opened FatHeap
  import opened FatChain
  import opened FatData

  /** Everything that the contents and the position of an open file depend on. */
  datatype FState = FState(
    fat: seq<nat>, media: seq<Sector>, winsect: nat, chain: seq<nat>, buf: seq<byte>,
    dsect: nat, dirty: bool, sclust: nat, clust: nat, fptr: nat, fsize: nat)

  ghost predicate ChainOK(g: Geometry, s: FState) {
    && DataFits(g) && |s.fat| == g.nFatent && |s.media| == g.nsect && HeapOK(s.fat)
    && Clusters(g, s.chain)
    && (if s.sclust == 0 then s.chain == []
        else IsChain(s.fat, s.chain) && s.chain[0] == s.sclust && Unlinked(s.fat, s.sclust))
    && forall q :: 0 <= q < |Secs(g, s.chain)| ==> g.database <= Secs(g, s.chain)[q] < g.nsect
  }

  /** The window is on no sector that is, or can become, part of the file. */
  ghost predicate WindowApart(g: Geometry, s: FState) {
    forall c :: 2 <= c < |s.fat| && (c in s.chain || s.fat[c] == 0) ==> !InCluster(g, c, s.winsect)
  }

  /** A clean buffer may hold anything: a truncation can leave it on a sector that is the file's no
      longer, and that another file may then write. */
  ghost predicate BufferOK(g: Geometry, s: FState) {
    && |s.buf| == 512 && s.dsect <= ALL_ONES
    && (s.dirty ==> g.database <= s.dsect < |s.media| && s.dsect != s.winsect)
  }

  /** If the buffer is clean and on a sector of the file, it holds what the drive holds there, as far
      as the first `e` bytes of the file go. */
  ghost predicate Matched(g: Geometry, s: FState, e: nat) {
    Clusters(g, s.chain) && !s.dirty && |s.buf| == 512 && s.dsect < |s.media| ==>
      forall q, k ::
        0 <= q < |Secs(g, s.chain)| && Secs(g, s.chain)[q] == s.dsect && 0 <= k < 512 && 512 * q + k < e ==>
          s.buf[k] == s.media[s.dsect][k]
  }

  lemma MatchedLess(g: Geometry, s: FState, e: nat, e': nat)
    requires Matched(g, s, e) && e' <= e
    ensures Matched(g, s, e')
  {
  }

  lemma MatchedDirty(g: Geometry, s: FState, e: nat)
    requires s.dirty || (s.dsect < |s.media| && s.media[s.dsect] == s.buf)
    ensures Matched(g, s, e)
  {
  }

  ghost predicate Core(g: Geometry, s: FState) {
    && ChainOK(g, s) && WindowApart(g, s) && BufferOK(g, s)
    && s.fptr <= 512 * |Secs(g, s.chain)| && s.fsize <= 512 * |Secs(g, s.chain)|
  }

  /** `clust` is the cluster of the byte before the position, and a position inside a sector
      has that sector in the buffer. */
  ghost predicate Positioned(g: Geometry, s: FState)
    requires g.csize >= 1 && Clusters(g, s.chain)
  {
    && (s.fptr > 0 ==> Home(g, (s.fptr - 1) / 512) < |s.chain| && s.clust == s.chain[Home(g, (s.fptr - 1) / 512)])
    && (s.fptr % 512 != 0 ==> s.fptr / 512 < |Secs(g, s.chain)| && s.dsect == Secs(g, s.chain)[s.fptr / 512])
  }

  ghost predicate FileOK(g: Geometry, s: FState) {
    Core(g, s) && Positioned(g, s)
  }

  /** At the start of sector `q` of the file, with the cluster of that sector as the current one. */
  ghost predicate AtSector(g: Geometry, s: FState, q: nat) {
    && Core(g, s) && s.fptr == 512 * q && q < |Secs(g, s.chain)|
    && Home(g, q) < |s.chain| && s.clust == s.chain[Home(g, q)]
  }

  /** The sector of the position is in the buffer. */
  ghost predicate InBuffer(g: Geometry, s: FState) {
    && Core(g, s) && s.fptr / 512 < |Secs(g, s.chain)| && s.dsect == Secs(g, s.chain)[s.fptr / 512]
    && (if s.fptr % 512 == 0 then AtSector(g, s, s.fptr / 512) else FileOK(g, s))
  }

  /** The drive with the buffered sector in place. */
  ghost function Disk(s: FState): (m: seq<Sector>)
    ensures |m| == |s.media|
  {
    if s.dirty && s.dsect < |s.media| && |s.buf| == 512 then s.media[s.dsect := s.buf] else s.media
  }

  /** All bytes of the allocated clusters. */
  ghost function Stored(g: Geometry, s: FState): (r: seq<byte>)
    requires Core(g, s)
    ensures |r| == 512 * |Secs(g, s.chain)|
  {
    Content(Disk(s), Secs(g, s.chain))
  }

  /** The abstract file. */
  ghost function File(g: Geometry, s: FState): (r: seq<byte>)
    requires Core(g, s)
    ensures |r| == s.fsize
  {
    Stored(g, s)[..s.fsize]
  }

  // ---------- Facts that hide the definitions ----------

  lemma CoreIs(g: Geometry, s: FState)
    requires Core(g, s)
    ensures g.Valid() && DataFits(g) && g.csize >= 1 && Clusters(g, s.chain) && |s.buf| == 512
    ensures |s.fat| == g.nFatent && |s.media| == g.nsect <= ALL_ONES && s.dsect <= ALL_ONES
    ensures |Stored(g, s)| == 512 * |Secs(g, s.chain)|
    ensures s.fptr <= 512 * |Secs(g, s.chain)| && s.fsize <= 512 * |Secs(g, s.chain)|
    ensures s.sclust == 0 <==> s.chain == []
  {
  }

  lemma FileOKIs(g: Geometry, s: FState)
    requires FileOK(g, s)
    ensures Core(g, s)
  {
  }

  lemma AtSectorIs(g: Geometry, s: FState, q: nat)
    requires AtSector(g, s, q)
    ensures Core(g, s) && g.csize >= 1 && Clusters(g, s.chain) && q < |Secs(g, s.chain)| && s.fptr == 512 * q
    ensures q % g.csize < g.csize
  {
    DivMod(q, g.csize);
  }

  lemma AtSectorIntro(g: Geometry, s: FState, q: nat)
    requires Core(g, s) && s.fptr == 512 * q && q < |Secs(g, s.chain)| && Home(g, q) < |s.chain|
    requires s.clust == s.chain[Home(g, q)]
    ensures AtSector(g, s, q)
  {
  }

  lemma AtClusterOf(g: Geometry, s: FState, q: nat)
    requires AtSector(g, s, q) && g.csize >= 1
    ensures Home(g, q) < |s.chain| && s.clust == s.chain[Home(g, q)]
  {
  }

  lemma FileOKIntro(g: Geometry, s: FState)
    requires Core(g, s) && g.csize >= 1 && Clusters(g, s.chain)
    requires s.fptr > 0 ==> Home(g, (s.fptr - 1) / 512) < |s.chain| && s.clust == s.chain[Home(g, (s.fptr - 1) / 512)]
    requires s.fptr % 512 != 0 ==> s.fptr / 512 < |Secs(g, s.chain)| && s.dsect == Secs(g, s.chain)[s.fptr / 512]
    ensures FileOK(g, s)
  {
  }

  lemma PositionedIs(g: Geometry, s: FState)
    requires FileOK(g, s) && g.csize >= 1 && Clusters(g, s.chain)
    ensures s.fptr > 0 ==> Home(g, (s.fptr - 1) / 512) < |s.chain| && s.clust == s.chain[Home(g, (s.fptr - 1) / 512)]
    ensures s.fptr % 512 != 0 ==> s.fptr / 512 < |Secs(g, s.chain)| && s.dsect == Secs(g, s.chain)[s.fptr / 512]
  {
  }

  lemma InBufferIs(g: Geometry, s: FState)
    requires InBuffer(g, s)
    ensures Core(g, s) && Clusters(g, s.chain) && |s.buf| == 512
    ensures s.fptr / 512 < |Secs(g, s.chain)| && s.dsect == Secs(g, s.chain)[s.fptr / 512]
    ensures s.fptr == 512 * (s.fptr / 512) + s.fptr % 512
    ensures if s.fptr % 512 == 0 then AtSector(g, s, s.fptr / 512) else FileOK(g, s)
  {
  }

  lemma InBufferIntro(g: Geometry, s: FState)
    requires FileOK(g, s) && s.fptr % 512 != 0
    ensures InBuffer(g, s)
  {
  }

  // ---------- FAT accesses ----------

  /** A FAT access between two states of the file. */
  ghost predicate MediaStep(g: Geometry, s: FState, s': FState) {
    && |s'.media| == |s.media|
    && (forall x: nat :: g.database <= x < |s.media| && x != s.winsect ==> s'.media[x] == s.media[x])
    && (s'.winsect == s.winsect || g.InFat1(s'.winsect) || s'.winsect == ALL_ONES)
  }

  lemma MediaOfFat(g: Geometry, a: Snapshot, b: Snapshot, s: FState, s': FState)
    requires FatStep(g, a, b) && s.media == a.media && s.winsect == a.winsect && s'.media == b.media
    requires s'.winsect == b.winsect
    requires |a.view| == |a.media|
    ensures MediaStep(g, s, s')
  {
  }

  lemma MediaSame(g: Geometry, s: FState, s': FState)
    requires s'.media == s.media && s'.winsect == s.winsect
    ensures MediaStep(g, s, s')
  {
  }

  lemma MediaTrans(g: Geometry, s: FState, s1: FState, s2: FState)
    requires g.Valid() && |s.media| == g.nsect && MediaStep(g, s, s1) && MediaStep(g, s1, s2)
    ensures MediaStep(g, s, s2)
  {
  }

  /** Only media and window matter. */
  lemma MediaAs(g: Geometry, s1: FState, s1': FState, s: FState, s': FState)
    requires MediaStep(g, s1, s1') && s.media == s1.media && s.winsect == s1.winsect && s'.media == s1'.media
    requires s'.winsect == s1'.winsect
    ensures MediaStep(g, s, s')
  {
  }

  /** What the drive and the dirty buffer hold together stays the same in the data area. */
  ghost predicate DiskKept(g: Geometry, s: FState, s': FState) {
    && |s'.media| == |s.media| && (s'.dirty ==> s.dirty)
    && (s'.winsect == s.winsect || g.InFat1(s'.winsect) || s'.winsect == ALL_ONES)
    && forall x: nat :: g.database <= x < |s.media| && x != s.winsect ==> Disk(s')[x] == Disk(s)[x]
  }

  lemma DiskTrans(g: Geometry, s: FState, s1: FState, s2: FState)
    requires g.Valid() && |s.media| == g.nsect && DiskKept(g, s, s1) && DiskKept(g, s1, s2)
    ensures DiskKept(g, s, s2)
  {
    hide Disk;
  }

  lemma DiskOfMedia(g: Geometry, s: FState, s': FState)
    requires MediaStep(g, s, s') && s'.buf == s.buf && s'.dsect == s.dsect && s'.dirty == s.dirty
    ensures DiskKept(g, s, s')
  {
  }

  /** The dirty buffer is written back, and perhaps filled from elsewhere. */
  lemma DiskFlushed(g: Geometry, s: FState, s': FState)
    requires s'.media == Disk(s) && !s'.dirty && s'.winsect == s.winsect
    ensures DiskKept(g, s, s')
  {
  }

  /** How many of `n` bytes from the position on are in its sector. */
  function SectorPart(fptr: nat, n: nat): (r: nat)
    ensures r <= n && fptr % 512 + r <= 512 && (n > 0 ==> r > 0) && (fptr % 512 + n <= 512 ==> r == n)
  {
    if n < 512 - fptr % 512 then n else 512 - fptr % 512
  }

  /** The `n` bytes from the position on are all in the buffered sector. */
  ghost predicate Buffered(g: Geometry, s: FState, n: nat) {
    && Clusters(g, s.chain) && s.fptr / 512 < |Secs(g, s.chain)| && s.dsect == Secs(g, s.chain)[s.fptr / 512]
    && 0 < n < 512 && s.fptr % 512 + n <= 512
  }

  /** The bytes come from the buffer, which stays as it is. */
  ghost predicate FromBuffer(s: FState, s': FState, data: seq<byte>) {
    && s'.dsect == s.dsect && s'.buf == s.buf && s'.dirty == s.dirty
    && s.fptr % 512 + |data| <= |s.buf| && s.buf[s.fptr % 512..s.fptr % 512 + |data|] == data
  }

  lemma DiskClean(s: FState)
    requires !s.dirty
    ensures Disk(s) == s.media
  {
  }

  lemma DiskDirty(s: FState)
    requires s.dirty && s.dsect < |s.media| && |s.buf| == 512
    ensures Disk(s) == s.media[s.dsect := s.buf]
  {
  }

  lemma DiskSame(g: Geometry, s: FState, s': FState)
    requires s'.media == s.media && s'.winsect == s.winsect && s'.buf == s.buf && s'.dsect == s.dsect
    requires s'.dirty == s.dirty
    ensures DiskKept(g, s, s')
  {
  }

  /** The position is at the end of the last cluster. */
  ghost predicate AtLimit(g: Geometry, s: FState) {
    Clusters(g, s.chain) && s.fptr == 512 * |Secs(g, s.chain)|
  }

  lemma AtLimitIntro(g: Geometry, s: FState, q: nat)
    requires Clusters(g, s.chain) && s.fptr == 512 * q && q == |Secs(g, s.chain)|
    ensures AtLimit(g, s)
  {
  }

  /** The sectors of the file are not the one in the window. */
  lemma SecsApart(g: Geometry, s: FState, q: nat)
    requires Core(g, s) && q < |Secs(g, s.chain)|
    ensures Secs(g, s.chain)[q] != s.winsect
  {
    SecsInCluster(g, s.chain, q);
    assert s.chain[Home(g, q)] in s.chain;
  }

  /** Equal sectors, equal bytes. */
  lemma SameContent(m: seq<Sector>, m': seq<Sector>, secs: seq<nat>)
    requires SectorsIn(m, secs) && |m'| == |m|
    requires forall q :: 0 <= q < |secs| ==> m'[secs[q]] == m[secs[q]]
    ensures Content(m', secs) == Content(m, secs)
  {
  }

  lemma ApartAfter(g: Geometry, s: FState, s': FState)
    requires DataFits(g) && |s.fat| == g.nFatent && |s.media| == g.nsect && WindowApart(g, s) && MediaStep(g, s, s')
    requires |s'.fat| == |s.fat|
    requires forall c :: 2 <= c < |s.fat| && (c in s'.chain || s'.fat[c] == 0) ==> c in s.chain || s.fat[c] == 0
    ensures WindowApart(g, s')
  {
    forall c | 2 <= c < |s'.fat| && (c in s'.chain || s'.fat[c] == 0) ensures !InCluster(g, c, s'.winsect) {
      ClusterFits(g, c);
    }
  }

  /** A FAT access that changes no entry leaves the file as it was. */
  lemma FatReadKeeps(g: Geometry, s: FState, s': FState)
    requires Core(g, s) && MediaStep(g, s, s') && s' == s.(media := s'.media, winsect := s'.winsect)
    ensures Core(g, s') && Stored(g, s') == Stored(g, s)
  {
    ApartAfter(g, s, s');
    var secs := Secs(g, s.chain);
    forall q | 0 <= q < |secs| ensures Disk(s')[secs[q]] == Disk(s)[secs[q]] { SecsApart(g, s, q); }
    SameContent(Disk(s), Disk(s'), secs);
  }

  // ---------- Positions ----------

  /** The sector before `q` is in the same cluster, or in the one before if `q` starts one. */
  lemma HomePrev(g: Geometry, q: nat)
    requires g.csize >= 1 && q >= 1
    ensures q % g.csize != 0 ==> Home(g, q - 1) == Home(g, q)
    ensures q % g.csize == 0 ==> Home(g, q) >= 1 && Home(g, q - 1) == Home(g, q) - 1
  {
    var j, r := q / g.csize, q % g.csize;
    DivMod(q, g.csize);
    if r != 0 {
      DivModIs(q - 1, g.csize, j, r - 1);
    } else {
      assert j != 0;
      assert Times(j, g.csize) == Times(j - 1, g.csize) + g.csize;
      DivModIs(q - 1, g.csize, j - 1, g.csize - 1);
    }
  }

  lemma HomeSame(g: Geometry, q: nat, p: nat)
    requires g.csize >= 1 && q <= p < q - q % g.csize + g.csize
    ensures Home(g, p) == Home(g, q)
  {
    DivMod(q, g.csize);
    DivModIs(p, g.csize, q / g.csize, p - q + q % g.csize);
  }

  /** Which cluster the next sector is in, at a sector boundary inside the allocated part. */
  lemma NextCluster(g: Geometry, s: FState, q: nat)
    requires FileOK(g, s) && s.fptr == 512 * q && q < |Secs(g, s.chain)|
    ensures Home(g, q) < |s.chain| && Secs(g, s.chain)[q] == Sec(g, s.chain[Home(g, q)]) + q % g.csize
    ensures q % g.csize != 0 ==> s.clust == s.chain[Home(g, q)]
    ensures q % g.csize == 0 && q == 0 ==> s.sclust == s.chain[Home(g, q)]
    ensures q % g.csize == 0 && q > 0 ==> 2 <= s.clust < |s.fat| && s.fat[s.clust] == s.chain[Home(g, q)]
    ensures 2 <= s.chain[Home(g, q)] < g.nFatent
  {
    SecsSplit(g, s.chain, q);
    var j := Home(g, q);
    if q > 0 {
      assert (s.fptr - 1) / 512 == q - 1;
      HomePrev(g, q);
      if q % g.csize == 0 { assert s.fat[s.chain[j - 1]] == s.chain[j]; }
    } else {
      assert s.sclust != 0;
    }
  }

  /** The same file with the cluster of sector `q` as the current one. */
  lemma SetCluster(g: Geometry, s: FState, s': FState, q: nat)
    requires Core(g, s) && s.fptr == 512 * q && q < |Secs(g, s.chain)| && Home(g, q) < |s.chain|
    requires s' == s.(clust := s.chain[Home(g, q)])
    ensures AtSector(g, s', q) && Stored(g, s') == Stored(g, s)
  {
  }

  /** Moving on inside the current cluster. */
  lemma Advance(g: Geometry, s: FState, s': FState, q: nat, n: nat)
    requires AtSector(g, s, q) && 0 < n <= 512 * (g.csize - q % g.csize)
    requires n % 512 == 0 || (n < 512 && s.dsect == Secs(g, s.chain)[q])
    requires s.fptr + n <= 512 * |Secs(g, s.chain)|
    requires s' == s.(fptr := s.fptr + n)
    ensures FileOK(g, s') && Stored(g, s') == Stored(g, s)
  {
    hide *;
    AtSectorIs(g, s, q);
    AtClusterOf(g, s, q);
    Reposition(g, s, s');
    HomeSame(g, q, (s'.fptr - 1) / 512);
    FileOKIntro(g, s');
  }

  /** Only the position changes. */
  lemma Reposition(g: Geometry, s: FState, s': FState)
    requires Core(g, s) && s' == s.(fptr := s'.fptr) && s'.fptr <= 512 * |Secs(g, s.chain)|
    ensures Core(g, s') && Stored(g, s') == Stored(g, s)
  {
  }

  lemma WithinSector(g: Geometry, s: FState, s': FState, n: nat)
    requires FileOK(g, s) && s.fptr % 512 != 0 && 0 < n <= 512 - s.fptr % 512
    requires s' == s.(fptr := s.fptr + n)
    ensures FileOK(g, s') && Stored(g, s') == Stored(g, s)
  {
    hide *;
    FileOKIs(g, s);
    CoreIs(g, s);
    PositionedIs(g, s);
    var q := s.fptr / 512;
    assert (s.fptr - 1) / 512 == q && (s'.fptr - 1) / 512 == q;
    Reposition(g, s, s');
    FileOKIntro(g, s');
  }

  // ---------- The sector buffer ----------

  lemma DirtyBuffer(g: Geometry, s: FState)
    requires Core(g, s) && s.dirty
    ensures |s.buf| == 512 && g.database <= s.dsect < |s.media| && s.dsect != s.winsect
  {
  }

  /** Writing the dirty buffer back. */
  lemma FlushKeeps(g: Geometry, s: FState, s': FState)
    requires Core(g, s) && s.dirty
    requires s' == s.(media := s.media[s.dsect := s.buf], dirty := false)
    ensures Core(g, s') && Stored(g, s') == Stored(g, s)
  {
  }

  /** Filling the clean buffer from another sector of the file. */
  lemma LoadKeeps(g: Geometry, s: FState, s': FState, q: nat)
    requires Core(g, s) && !s.dirty && q < |Secs(g, s.chain)|
    requires s' == s.(buf := s.media[Secs(g, s.chain)[q]], dsect := Secs(g, s.chain)[q])
    ensures Core(g, s') && Stored(g, s') == Stored(g, s)
  {
    SecsApart(g, s, q);
  }

  lemma InBufferLoaded(g: Geometry, s: FState, s': FState, q: nat)
    requires AtSector(g, s, q) && Core(g, s') && s'.dsect == Secs(g, s.chain)[q]
    requires s' == s.(media := s'.media, buf := s'.buf, dirty := s'.dirty, dsect := s'.dsect)
    ensures InBuffer(g, s')
  {
    assert s.fptr / 512 == q && s.fptr % 512 == 0;
  }

  /** The buffer, if it is on sector `q` and matches the drive, holds those bytes of the file. */
  lemma BufferHolds(g: Geometry, s: FState, q: nat, a: nat, b: nat)
    requires Core(g, s) && q < |Secs(g, s.chain)| && s.dsect == Secs(g, s.chain)[q] && a <= b <= 512
    requires Matched(g, s, 512 * q + b)
    ensures 512 * q + b <= |Stored(g, s)| && s.buf[a..b] == Stored(g, s)[512 * q + a..512 * q + b]
  {
    SliceOfFile(Disk(s), Secs(g, s.chain), q, a, b);
    hide HeapOK, IsChain, Unlinked, WindowApart, Content;
    assert s.buf[a..b] == Disk(s)[s.dsect][a..b];
  }

  /** Taking `n` bytes from the buffer. */
  lemma TakeFromBuffer(g: Geometry, s: FState, s': FState, n: nat)
    requires InBuffer(g, s) && 0 < n <= 512 - s.fptr % 512
    requires s' == s.(fptr := s.fptr + n)
    ensures FileOK(g, s') && Stored(g, s') == Stored(g, s)
    ensures s.fptr + n <= |Stored(g, s)| && |s.buf| == 512
    ensures Matched(g, s, s.fptr + n) ==> s.buf[s.fptr % 512..s.fptr % 512 + n] == Stored(g, s)[s.fptr..s.fptr + n]
  {
    hide *;
    var q, a := s.fptr / 512, s.fptr % 512;
    InBufferIs(g, s);
    CoreIs(g, s);
    if Matched(g, s, s.fptr + n) { BufferHolds(g, s, q, a, a + n); }
    if a == 0 {
      AtSectorIs(g, s, q);
      Advance(g, s, s', q, n);
    } else {
      WithinSector(g, s, s', n);
    }
  }

  // ---------- Direct transfers ----------

  /** Sector `k` after sector `q` of the file is also `k` after it on the drive. */
  ghost predicate Consecutive(secs: seq<nat>, q: nat, k: nat) {
    q + k < |secs| && secs[q + k] == secs[q] + k
  }

  lemma ConsecutiveSecs(g: Geometry, ch: seq<nat>, q: nat, k: nat)
    requires g.csize >= 1 && Clusters(g, ch) && q < |Secs(g, ch)| && q % g.csize + k < g.csize
    ensures Consecutive(Secs(g, ch), q, k)
  {
    SecsSplit(g, ch, q);
    SecsAt(g, ch, Home(g, q), q % g.csize + k);
  }

  /** The unsigned test for the buffered sector being among those transferred. */
  lemma WrappedRange(dsect: nat, sect: nat, cc: nat)
    requires dsect <= ALL_ONES && sect + cc <= ALL_ONES
    ensures (dsect - sect) % 0x1_0000_0000 < cc <==> sect <= dsect < sect + cc
    ensures sect <= dsect ==> (dsect - sect) % 0x1_0000_0000 == dsect - sect
  {
    if dsect < sect {
      Euclid(dsect - sect, 0x1_0000_0000, -1, dsect - sect + 0x1_0000_0000);
    } else {
      Euclid(dsect - sect, 0x1_0000_0000, 0, dsect - sect);
    }
  }

  /** How many whole sectors to transfer at once: clipped at the end of the cluster. */
  function DirectCount(csize: nat, csect: nat, bytes: nat): (cc: nat)
    requires csect < csize && 512 <= bytes
    ensures 0 < cc && csect + cc <= csize && 512 * cc <= bytes
  {
    var cc := bytes / 512;
    if csect + cc > csize then csize - csect else cc
  }

  /** Whole sectors `q`, `q`+1, ... of the file, block by block. */
  lemma RunOfSectors(g: Geometry, s: FState, q: nat, cc: nat, data: seq<byte>)
    requires Core(g, s) && q + cc <= |Secs(g, s.chain)| && |data| == 512 * cc
    requires forall k :: 0 <= k < cc ==> data[512 * k..512 * k + 512] == Disk(s)[Secs(g, s.chain)[q + k]]
    ensures data == Stored(g, s)[512 * q..512 * q + 512 * cc]
  {
    var secs, st := Secs(g, s.chain), Stored(g, s);
    forall i | 0 <= i < |data| ensures data[i] == st[512 * q + i] {
      var k, r := i / 512, i % 512;
      assert i == 512 * k + r && k < cc;
      Euclid(512 * q + i, 512, q + k, r);
      assert data[512 * k..512 * k + 512][r] == data[i];
    }
  }

  lemma SpliceBlock(data: seq<byte>, d: nat, buf: seq<byte>, k: nat)
    requires |buf| == 512 && 512 * d + 512 <= |data| && 512 * k + 512 <= |data|
    ensures Splice(data, 512 * d, buf)[512 * k..512 * k + 512] == if k == d then buf else data[512 * k..512 * k + 512]
  {
  }

  /** Directly read data, with the dirty sector in place of its stale copy. */
  ghost function Merged(data: seq<byte>, dirty: bool, dsect: nat, sect: nat, cc: nat, buf: seq<byte>): (r: seq<byte>)
    requires |data| == 512 * cc && |buf| == 512
    ensures |r| == |data|
  {
    if dirty && sect <= dsect < sect + cc then Splice(data, 512 * (dsect - sect), buf) else data
  }

  /** That is what the file holds there. */
  lemma Patched(g: Geometry, s: FState, q: nat, cc: nat, data: seq<byte>)
    requires Core(g, s) && g.csize >= 1 && Clusters(g, s.chain) && |s.buf| == 512
    requires q < |Secs(g, s.chain)| && 0 < cc && q % g.csize + cc <= g.csize && |data| == 512 * cc
    requires var sect := Secs(g, s.chain)[q];
             sect + cc <= |s.media| && forall k :: 0 <= k < cc ==> data[512 * k..512 * k + 512] == s.media[sect + k]
    ensures 512 * q + 512 * cc <= |Stored(g, s)|
    ensures Stored(g, s)[512 * q..512 * q + 512 * cc] == Merged(data, s.dirty, s.dsect, Secs(g, s.chain)[q], cc, s.buf)
  {
    hide *;
    CoreIs(g, s);
    SectorsFit(g, s);
    RunFits(g, s.chain, q, cc);
    var out := Merged(data, s.dirty, s.dsect, Secs(g, s.chain)[q], cc, s.buf);
    forall k | 0 <= k < cc ensures out[512 * k..512 * k + 512] == Disk(s)[Secs(g, s.chain)[q + k]] {
      PatchedBlock(g, s, q, cc, data, k);
    }
    RunOfSectors(g, s, q, cc, out);
  }

  lemma SectorsFit(g: Geometry, s: FState)
    requires Core(g, s)
    ensures forall q :: 0 <= q < |Secs(g, s.chain)| ==> Secs(g, s.chain)[q] < |s.media|
    ensures |Disk(s)| == |s.media|
  {
  }

  lemma RunFits(g: Geometry, ch: seq<nat>, q: nat, cc: nat)
    requires g.csize >= 1 && Clusters(g, ch) && q < |Secs(g, ch)| && 0 < cc && q % g.csize + cc <= g.csize
    ensures q + cc <= |Secs(g, ch)|
  {
    ConsecutiveSecs(g, ch, q, cc - 1);
  }

  lemma PatchedBlock(g: Geometry, s: FState, q: nat, cc: nat, data: seq<byte>, k: nat)
    requires |s.buf| == 512 && g.csize >= 1 && Clusters(g, s.chain) && k < cc && q + k < |Secs(g, s.chain)|
    requires q % g.csize + cc <= g.csize && |data| == 512 * cc
    requires Secs(g, s.chain)[q] + cc <= |s.media| && data[512 * k..512 * k + 512] == s.media[Secs(g, s.chain)[q] + k]
    ensures Secs(g, s.chain)[q + k] < |s.media|
    ensures Disk(s)[Secs(g, s.chain)[q + k]] == Merged(data, s.dirty, s.dsect, Secs(g, s.chain)[q], cc,
                                                       s.buf)[512 * k..512 * k + 512]
  {
    hide Secs, Splice;
    var sect := Secs(g, s.chain)[q];
    ConsecutiveSecs(g, s.chain, q, k);
    if s.dirty && sect <= s.dsect < sect + cc {
      SpliceBlock(data, s.dsect - sect, s.buf, k);
    }
  }

  /** The same as the code computes it. */
  function WithDirty(data: seq<byte>, dirty: bool, dsect: nat, sect: nat, cc: nat, buf: seq<byte>): (r: seq<byte>)
    requires |data| == 512 * cc && |buf| == 512
    ensures |r| == |data|
  {
    var d := (dsect - sect) % 0x1_0000_0000;
    if dirty && d < cc then Splice(data, d * 512, buf) else data
  }

  lemma WithDirtyIs(data: seq<byte>, dirty: bool, dsect: nat, sect: nat, cc: nat, buf: seq<byte>)
    requires |data| == 512 * cc && |buf| == 512 && dsect <= ALL_ONES && sect + cc <= ALL_ONES
    ensures WithDirty(data, dirty, dsect, sect, cc, buf) == Merged(data, dirty, dsect, sect, cc, buf)
  {
    WrappedRange(dsect, sect, cc);
  }

  /** A direct read from the start of sector `q`. */
  lemma DirectRead(g: Geometry, s: FState, s': FState, q: nat, cc: nat, data: seq<byte>)
    requires AtSector(g, s, q) && 0 < cc && q % g.csize + cc <= g.csize && |data| == 512 * cc
    requires var sect := Secs(g, s.chain)[q];
             sect + cc <= |s.media| && forall k :: 0 <= k < cc ==> data[512 * k..512 * k + 512] == s.media[sect + k]
    requires s' == s.(fptr := s.fptr + 512 * cc)
    ensures |s.buf| == 512 && FileOK(g, s') && Stored(g, s') == Stored(g, s) && s'.fptr <= |Stored(g, s)|
    ensures WithDirty(data, s.dirty, s.dsect, Secs(g, s.chain)[q], cc, s.buf) == Stored(g, s)[s.fptr..s'.fptr]
  {
    hide *;
    AtSectorIs(g, s, q);
    CoreIs(g, s);
    Patched(g, s, q, cc, data);
    WithDirtyIs(data, s.dirty, s.dsect, Secs(g, s.chain)[q], cc, s.buf);
    AdvanceSectors(g, s, s', q, cc);
  }

  /** Moving on by whole sectors. */
  lemma AdvanceSectors(g: Geometry, s: FState, s': FState, q: nat, cc: nat)
    requires AtSector(g, s, q) && 0 < cc && q % g.csize + cc <= g.csize && 512 * q + 512 * cc <= |Stored(g, s)|
    requires s' == s.(fptr := s.fptr + 512 * cc)
    ensures FileOK(g, s') && Stored(g, s') == Stored(g, s) && s'.fptr == 512 * q + 512 * cc && s.fptr == 512 * q
  {
    hide *;
    AtSectorIs(g, s, q);
    CoreIs(g, s);
    Advance(g, s, s', q, 512 * cc);
  }

  /** A file as it is just after opening. */
  ghost function Opened(fat: seq<nat>, media: seq<Sector>, winsect: nat, chain: seq<nat>, buf: seq<byte>, sclust: nat,
                        fsize: nat): FState {
    FState(fat, media, winsect, chain, buf, 0, false, sclust, 0, 0, fsize)
  }

  lemma OpenedIs(fat: seq<nat>, media: seq<Sector>, winsect: nat, chain: seq<nat>, buf: seq<byte>, sclust: nat,
                 fsize: nat)
    ensures Opened(fat, media, winsect, chain, buf, sclust, fsize)
         == FState(fat, media, winsect, chain, buf, 0, false, sclust, 0, 0, fsize)
  {
  }

  // ---------- Writing ----------

  /** `data` was stored at byte `p`; of the rest, the first `keep` bytes are unchanged. */
  ghost predicate WroteAt(st: seq<byte>, st': seq<byte>, p: nat, data: seq<byte>, keep: nat) {
    && |st| <= |st'| && p + |data| <= |st'|
    && st'[p..p + |data|] == data
    && forall i :: 0 <= i < keep && i < |st| && !(p <= i < p + |data|) ==> st'[i] == st[i]
  }

  /** Two consecutive stores. */
  lemma WroteTwice(st: seq<byte>, st1: seq<byte>, st2: seq<byte>, p: nat, d1: seq<byte>, d2: seq<byte>, size: nat)
    requires p <= size <= |st| && WroteAt(st, st1, p, d1, size)
    requires WroteAt(st1, st2, p + |d1|, d2, if size < p + |d1| then p + |d1| else size)
    ensures WroteAt(st, st2, p, d1 + d2, size)
  {
    forall i | 0 <= i < |d1 + d2| ensures st2[p + i] == (d1 + d2)[i] {
      if i < |d1| {
        assert st1[p..p + |d1|][i] == d1[i];
      } else {
        assert st2[p + |d1|..p + |d1| + |d2|][i - |d1|] == d2[i - |d1|];
      }
    }
  }

  lemma WroteNothing(st: seq<byte>, p: nat, keep: nat)
    requires p <= |st|
    ensures WroteAt(st, st, p, [], keep)
  {
  }

  /** More room at the end changes nothing that was there. */
  lemma WroteAfterGrowth(st: seq<byte>, st1: seq<byte>, st2: seq<byte>, p: nat, d: seq<byte>, keep: nat)
    requires |st| <= |st1| && st1[..|st|] == st && WroteAt(st1, st2, p, d, keep)
    ensures WroteAt(st, st2, p, d, keep)
  {
    forall i | 0 <= i < keep && i < |st| && !(p <= i < p + |d|) ensures st2[i] == st[i] {
      assert st1[..|st|][i] == st1[i];
    }
  }

  /** The abstract effect of a write: overwrite, and extend if it goes past the end. */
  function Overwrite(f: seq<byte>, p: nat, d: seq<byte>): (r: seq<byte>)
    requires p <= |f|
    ensures |r| == if p + |d| <= |f| then |f| else p + |d|
  {
    f[..p] + d + (if p + |d| <= |f| then f[p + |d|..] else [])
  }

  lemma WroteIsOverwrite(st: seq<byte>, st': seq<byte>, p: nat, d: seq<byte>, size: nat)
    requires p <= size <= |st| && WroteAt(st, st', p, d, size)
    ensures var size' := if size < p + |d| then p + |d| else size;
            size' <= |st'| && st'[..size'] == Overwrite(st[..size], p, d)
  {
    var size' := if size < p + |d| then p + |d| else size;
    var o := Overwrite(st[..size], p, d);
    forall i | 0 <= i < size' ensures st'[i] == o[i] {
      if p <= i < p + |d| { assert st'[p..p + |d|][i - p] == d[i - p]; }
    }
    assert st'[..size'] == o;
  }

  /** At a sector boundary at the very end of the allocated part: a new cluster is due. */
  lemma AtEnd(g: Geometry, s: FState, q: nat)
    requires FileOK(g, s) && s.fptr == 512 * q && q >= |Secs(g, s.chain)|
    ensures q == |Secs(g, s.chain)| && q % g.csize == 0 && Home(g, q) == |s.chain|
    ensures q == 0 <==> s.chain == []
    ensures q == 0 ==> s.sclust == 0
    ensures q > 0 ==>
              s.sclust != 0 && s.clust == s.chain[|s.chain| - 1] && 2 <= s.clust < |s.fat| && s.fat[s.clust] >= |s.fat|
  {
    DivModIs(q, g.csize, |s.chain|, 0);
    if q > 0 {
      assert (s.fptr - 1) / 512 == q - 1;
      HomePrev(g, q);
    }
    if |s.chain| > 0 { TimesLe(1, |s.chain|, g.csize); }
  }

  /** The last cluster of the file, or 0. */
  ghost function LastCluster(s: FState): nat {
    if s.chain == [] then 0 else s.chain[|s.chain| - 1]
  }

  /** One more cluster at the end of the chain. */
  lemma Extend(g: Geometry, s: FState, s': FState, ncl: nat, mark: nat)
    requires Core(g, s) && MediaStep(g, s, s') && 2 <= ncl < |s.fat| && s.fat[ncl] == 0 && mark >= |s.fat|
    requires s' == s.(fat := Stretched(s.fat, LastCluster(s), ncl, mark), media := s'.media, winsect := s'.winsect,
                      chain := s.chain + [ncl], sclust := if s.sclust == 0 then ncl else s.sclust)
    ensures Core(g, s')
    ensures |Secs(g, s'.chain)| == |Secs(g, s.chain)| + g.csize
    ensures |Stored(g, s)| <= |Stored(g, s')| && Stored(g, s')[..|Stored(g, s)|] == Stored(g, s)
  {
    ExtendChain(g, s, s', ncl, mark);
    ExtendApart(g, s, s', ncl, mark);
    SecsExtend(g, s.chain, ncl);
    ExtendStored(g, s, s', ncl);
  }

  lemma ExtendChain(g: Geometry, s: FState, s': FState, ncl: nat, mark: nat)
    requires Core(g, s) && 2 <= ncl < |s.fat| && s.fat[ncl] == 0 && mark >= |s.fat| && |s'.media| == |s.media|
    requires s' == s.(fat := Stretched(s.fat, LastCluster(s), ncl, mark), media := s'.media, winsect := s'.winsect,
                      chain := s.chain + [ncl], sclust := if s.sclust == 0 then ncl else s.sclust)
    ensures ChainOK(g, s')
  {
    var f, f' := s.fat, s'.fat;
    SecsExtend(g, s.chain, ncl);
    StretchKeeps(f, LastCluster(s), ncl, mark);
    MarkKeeps(f, ncl, mark);
    if s.chain == [] {
      assert s'.chain == [ncl];
    } else {
      StretchExtends(f, s.chain, ncl, mark);
      assert s.sclust != ncl by { ChainUsed(f, s.chain); assert s.sclust in s.chain; }
    }
    forall q | 0 <= q < |Secs(g, s'.chain)| ensures g.database <= Secs(g, s'.chain)[q] < g.nsect {
      SecsInCluster(g, s'.chain, q);
    }
  }

  lemma ExtendApart(g: Geometry, s: FState, s': FState, ncl: nat, mark: nat)
    requires Core(g, s) && MediaStep(g, s, s') && 2 <= ncl < |s.fat| && s.fat[ncl] == 0 && mark >= |s.fat|
    requires s' == s.(fat := Stretched(s.fat, LastCluster(s), ncl, mark), media := s'.media, winsect := s'.winsect,
                      chain := s.chain + [ncl], sclust := if s.sclust == 0 then ncl else s.sclust)
    ensures WindowApart(g, s') && BufferOK(g, s')
  {
    ApartAfter(g, s, s');
  }

  lemma ExtendStored(g: Geometry, s: FState, s': FState, ncl: nat)
    requires Core(g, s) && MediaStep(g, s, s') && Clusters(g, s'.chain) && s'.chain == s.chain + [ncl]
    requires s'.buf == s.buf && s'.dsect == s.dsect && s'.dirty == s.dirty
    requires Secs(g, s'.chain)[..|Secs(g, s.chain)|] == Secs(g, s.chain) && SectorsIn(Disk(s'), Secs(g, s'.chain))
    ensures Content(Disk(s'), Secs(g, s'.chain))[..|Stored(g, s)|] == Stored(g, s)
  {
    var secs, secs' := Secs(g, s.chain), Secs(g, s'.chain);
    forall q | 0 <= q < |secs| ensures Disk(s')[secs'[q]] == Disk(s)[secs[q]] {
      SecsApart(g, s, q);
      assert secs'[..|secs|][q] == secs'[q];
    }
  }

  lemma CreatedFollow(f: seq<nat>, f': seq<nat>, clst: nat, scl: nat, mark: nat, ncl: nat)
    requires Created(f, f', clst, scl, mark, ncl) && 2 <= clst < |f| && 2 <= f[clst] < |f|
    ensures f' == f && ncl == f[clst]
  {
  }

  lemma StartFits(g: Geometry, s: FState)
    requires Core(g, s)
    ensures s.sclust < 0x1000_0000
  {
  }

  lemma HeapOf(g: Geometry, s: FState)
    requires Core(g, s)
    ensures HeapOK(s.fat)
  {
  }

  /** The drive after `data` went to the `cc` sectors from sector `q` of the file on. */
  ghost predicate Transferred(g: Geometry, s: FState, m: seq<Sector>, q: nat, cc: nat, data: seq<byte>)
    requires Clusters(g, s.chain) && q < |Secs(g, s.chain)| && |data| == 512 * cc
  {
    Sent(s.media, m, Secs(g, s.chain)[q], cc, data)
  }

  /** The buffer after a direct write refilled it if its sector was among those written. */
  function Refilled(buf: seq<byte>, dsect: nat, sect: nat, cc: nat, data: seq<byte>): (r: seq<byte>)
    requires |data| == 512 * cc && |buf| == 512
    ensures |r| == 512
  {
    var d := (dsect - sect) % 0x1_0000_0000;
    if d < cc then data[512 * d..512 * d + 512] else buf
  }

  /** Storing whole sectors from the start of sector `q` on, with the buffer clean. */
  lemma DirectWrite(g: Geometry, s: FState, s': FState, q: nat, cc: nat, data: seq<byte>)
    requires AtSector(g, s, q) && !s.dirty && 0 < cc && q % g.csize + cc <= g.csize && |data| == 512 * cc
    requires Transferred(g, s, s'.media, q, cc, data) && |s.buf| == 512
    requires s' == s.(media := s'.media, buf := Refilled(s.buf, s.dsect, Secs(g, s.chain)[q], cc, data),
                      fptr := s.fptr + 512 * cc)
    ensures FileOK(g, s') && s.fptr + |data| <= |Stored(g, s)|
    ensures Stored(g, s') == Splice(Stored(g, s), s.fptr, data)
  {
    hide *;
    var s1 := s'.(fptr := s.fptr);
    AtSectorIs(g, s, q);
    CoreIs(g, s);
    DirectCore(g, s, s1, q, cc, data);
    DirectStored(g, s, s1, q, cc, data);
    Advance(g, s1, s', q, 512 * cc);
  }

  lemma DirectCore(g: Geometry, s: FState, s': FState, q: nat, cc: nat, data: seq<byte>)
    requires AtSector(g, s, q) && !s.dirty && 0 < cc && q % g.csize + cc <= g.csize && |data| == 512 * cc
    requires Transferred(g, s, s'.media, q, cc, data) && |s.buf| == 512
    requires s' == s.(media := s'.media, buf := Refilled(s.buf, s.dsect, Secs(g, s.chain)[q], cc, data))
    ensures AtSector(g, s', q) && s'.fptr + 512 * cc <= 512 * |Secs(g, s.chain)|
  {
    CoreIs(g, s);
    DirectBuffer(g, s, s', q, cc, data);
    RunFits(g, s.chain, q, cc);
    hide Secs, Refilled, Stored;
    assert |s'.media| == |s.media|;
  }

  lemma DirectBuffer(g: Geometry, s: FState, s': FState, q: nat, cc: nat, data: seq<byte>)
    requires Core(g, s) && Clusters(g, s.chain) && q < |Secs(g, s.chain)| && !s.dirty && |data| == 512 * cc
    requires Transferred(g, s, s'.media, q, cc, data) && |s.buf| == 512
    requires s' == s.(media := s'.media, buf := Refilled(s.buf, s.dsect, Secs(g, s.chain)[q], cc, data))
    ensures BufferOK(g, s')
  {
    CoreIs(g, s);
    hide Secs, ChainOK, WindowApart;
  }

  lemma DirectStored(g: Geometry, s: FState, s': FState, q: nat, cc: nat, data: seq<byte>)
    requires AtSector(g, s, q) && AtSector(g, s', q) && !s.dirty && 0 < cc && q % g.csize + cc <= g.csize
    requires |data| == 512 * cc
    requires s.fptr + 512 * cc <= 512 * |Secs(g, s.chain)| && Transferred(g, s, s'.media, q, cc, data)
    requires s' == s.(media := s'.media, buf := s'.buf)
    ensures s.fptr + |data| <= |Stored(g, s)| && Stored(g, s') == Splice(Stored(g, s), s.fptr, data)
  {
    hide *;
    AtSectorIs(g, s, q);
    AtSectorIs(g, s', q);
    CoreIs(g, s);
    CoreIs(g, s');
    var st, st' := Stored(g, s), Stored(g, s');
    forall i | 0 <= i < |st| ensures st'[i] == Splice(st, s.fptr, data)[i] {
      DirectByte(g, s, s', q, cc, data, i);
    }
  }

  lemma DirectByte(g: Geometry, s: FState, s': FState, q: nat, cc: nat, data: seq<byte>, i: nat)
    requires Core(g, s) && Core(g, s') && !s.dirty && 0 < cc && q % g.csize + cc <= g.csize && |data| == 512 * cc
    requires q < |Secs(g, s.chain)| && s.fptr == 512 * q && Transferred(g, s, s'.media, q, cc, data)
    requires s' == s.(media := s'.media, buf := s'.buf) && i < |Stored(g, s)|
    ensures Stored(g, s')[i] == if s.fptr <= i < s.fptr + |data| then data[i - s.fptr] else Stored(g, s)[i]
  {
    hide *;
    CoreIs(g, s);
    CoreIs(g, s');
    CleanByte(g, s, i);
    CleanByte(g, s', i);
    TransferredAt(g, s, s'.media, q, cc, data, i);
  }

  lemma CleanByte(g: Geometry, s: FState, i: nat)
    requires Core(g, s) && !s.dirty && i < |Stored(g, s)|
    ensures Clusters(g, s.chain) && i / 512 < |Secs(g, s.chain)| && Secs(g, s.chain)[i / 512] < |s.media|
    ensures Stored(g, s)[i] == s.media[Secs(g, s.chain)[i / 512]][i % 512]
  {
  }

  lemma TransferredAt(g: Geometry, s: FState, m: seq<Sector>, q: nat, cc: nat, data: seq<byte>, i: nat)
    requires Core(g, s) && Clusters(g, s.chain) && q < |Secs(g, s.chain)| && g.csize >= 1
    requires 0 < cc && q % g.csize + cc <= g.csize && |data| == 512 * cc && Transferred(g, s, m, q, cc, data)
    requires i / 512 < |Secs(g, s.chain)| && Secs(g, s.chain)[i / 512] < |s.media| == |m|
    ensures m[Secs(g, s.chain)[i / 512]][i % 512] ==
              if 512 * q <= i < 512 * q + |data| then data[i - 512 * q] else s.media[Secs(g, s.chain)[i / 512]][i % 512]
  {
    hide Core, Secs;
    var p, r, secs := i / 512, i % 512, Secs(g, s.chain);
    if q <= p < q + cc {
      ConsecutiveSecs(g, s.chain, q, p - q);
      assert m[secs[q] + (p - q)] == data[512 * (p - q)..512 * (p - q) + 512];
      assert data[512 * (p - q)..512 * (p - q) + 512][r] == data[512 * (p - q) + r];
    } else {
      OutsideRun(g, s, q, cc, p);
    }
  }

  /** The other sectors of the file are not among those transferred. */
  lemma OutsideRun(g: Geometry, s: FState, q: nat, cc: nat, p: nat)
    requires Core(g, s) && q < |Secs(g, s.chain)| && q % g.csize + cc <= g.csize
    requires p < |Secs(g, s.chain)| && !(q <= p < q + cc)
    ensures var secs := Secs(g, s.chain); !(secs[q] <= secs[p] < secs[q] + cc)
  {
    var secs := Secs(g, s.chain);
    if s.sclust != 0 { ChainDistinct(s.fat, s.chain); }
    if secs[q] <= secs[p] < secs[q] + cc {
      var k := secs[p] - secs[q];
      ConsecutiveSecs(g, s.chain, q, k);
      if p < q + k { SecsDistinct(g, s.chain, p, q + k); } else { SecsDistinct(g, s.chain, q + k, p); }
    }
  }

  /** Bytes put into the buffered sector, which becomes dirty; of the rest, those that matched the
      drive stay. */
  lemma PutInBuffer(g: Geometry, s: FState, s': FState, data: seq<byte>, keep: nat)
    requires InBuffer(g, s) && 0 < |data| <= 512 - s.fptr % 512
    requires s' == s.(buf := Splice(s.buf, s.fptr % 512, data), dirty := true, fptr := s.fptr + |data|)
    ensures FileOK(g, s') && s.fptr + |data| <= |Stored(g, s)| == |Stored(g, s')|
    ensures Stored(g, s')[s.fptr..s.fptr + |data|] == data
    ensures forall i :: 0 <= i < |Stored(g, s)| && i / 512 != s.fptr / 512 ==> Stored(g, s')[i] == Stored(g, s)[i]
    ensures Matched(g, s, keep) ==> WroteAt(Stored(g, s), Stored(g, s'), s.fptr, data, keep)
  {
    hide *;
    var s1 := s'.(fptr := s.fptr);
    MatchedNone(g, s);
    PutStored(g, s, s1, data, if Matched(g, s, keep) then keep else 0);
    InBufferIs(g, s);
    CoreIs(g, s);
    PutMoves(g, s, s1, data);
    TakeFromBuffer(g, s1, s', |data|);
    FileOKIs(g, s');
  }

  lemma PutMoves(g: Geometry, s: FState, s1: FState, data: seq<byte>)
    requires InBuffer(g, s) && Core(g, s1) && |s.buf| == 512 && s.fptr % 512 + |data| <= 512
    requires s1 == s.(buf := Splice(s.buf, s.fptr % 512, data), dirty := true)
    ensures InBuffer(g, s1)
  {
    hide Splice, ChainOK, BufferOK, WindowApart;
  }

  lemma PutStored(g: Geometry, s: FState, s': FState, data: seq<byte>, keep: nat)
    requires InBuffer(g, s) && 0 < |data| <= 512 - s.fptr % 512 && Matched(g, s, keep)
    requires s' == s.(buf := Splice(s.buf, s.fptr % 512, data), dirty := true)
    ensures Core(g, s') && s.fptr + |data| <= |Stored(g, s)| == |Stored(g, s')|
    ensures Stored(g, s')[s.fptr..s.fptr + |data|] == data
    ensures forall i :: 0 <= i < |Stored(g, s)| && i / 512 != s.fptr / 512 ==> Stored(g, s')[i] == Stored(g, s)[i]
    ensures WroteAt(Stored(g, s), Stored(g, s'), s.fptr, data, keep)
  {
    hide *;
    PutCore(g, s, s', data);
    InBufferIs(g, s);
    CoreIs(g, s);
    CoreIs(g, s');
    PutKept(g, s, s', data, keep);
    PutElsewhere(g, s, s', data);
    WroteAtIntro(Stored(g, s), Stored(g, s'), s.fptr, data, keep);
  }

  lemma PutKept(g: Geometry, s: FState, s': FState, data: seq<byte>, keep: nat)
    requires Core(g, s) && Core(g, s') && s.fptr % 512 + |data| <= 512 && |Stored(g, s)| == |Stored(g, s')|
    requires Matched(g, s, keep)
    requires s.fptr / 512 < |Secs(g, s.chain)| && s.dsect == Secs(g, s.chain)[s.fptr / 512] && |s.buf| == 512
    requires s' == s.(buf := Splice(s.buf, s.fptr % 512, data), dirty := true)
    ensures forall i :: 0 <= i < |Stored(g, s)| && s.fptr <= i < s.fptr + |data| ==>
              Stored(g, s')[i] == data[i - s.fptr]
    ensures forall i :: 0 <= i < |Stored(g, s)| && i < keep && !(s.fptr <= i < s.fptr + |data|) ==>
              Stored(g, s')[i] == Stored(g, s)[i]
  {
    hide *;
    forall i | 0 <= i < |Stored(g, s)| && s.fptr <= i < s.fptr + |data| ensures Stored(g, s')[i] == data[i - s.fptr] {
      PutByte(g, s, s', data, keep, i);
    }
    forall i | 0 <= i < |Stored(g, s)| && i < keep && !(s.fptr <= i < s.fptr + |data|)
      ensures Stored(g, s')[i] == Stored(g, s)[i]
    {
      PutByte(g, s, s', data, keep, i);
    }
  }

  lemma PutElsewhere(g: Geometry, s: FState, s': FState, data: seq<byte>)
    requires Core(g, s) && Core(g, s') && s.fptr % 512 + |data| <= 512 && |Stored(g, s)| == |Stored(g, s')|
    requires s.fptr / 512 < |Secs(g, s.chain)| && s.dsect == Secs(g, s.chain)[s.fptr / 512] && |s.buf| == 512
    requires s' == s.(buf := Splice(s.buf, s.fptr % 512, data), dirty := true)
    ensures forall i :: 0 <= i < |Stored(g, s)| && i / 512 != s.fptr / 512 ==> Stored(g, s')[i] == Stored(g, s)[i]
  {
    hide *;
    MatchedNone(g, s);
    forall i | 0 <= i < |Stored(g, s)| && i / 512 != s.fptr / 512 ensures Stored(g, s')[i] == Stored(g, s)[i] {
      PutByte(g, s, s', data, 0, i);
    }
  }

  lemma MatchedNone(g: Geometry, s: FState)
    ensures Matched(g, s, 0)
  {
  }

  lemma WroteAtIntro(st: seq<byte>, st': seq<byte>, p: nat, data: seq<byte>, keep: nat)
    requires |st'| == |st| && p + |data| <= |st| && forall i :: p <= i < p + |data| ==> st'[i] == data[i - p]
    requires forall i :: 0 <= i < |st| && i < keep && !(p <= i < p + |data|) ==> st'[i] == st[i]
    ensures WroteAt(st, st', p, data, keep) && st'[p..p + |data|] == data
  {
  }

  lemma PutCore(g: Geometry, s: FState, s': FState, data: seq<byte>)
    requires InBuffer(g, s) && 0 < |data| <= 512 - s.fptr % 512
    requires s' == s.(buf := Splice(s.buf, s.fptr % 512, data), dirty := true)
    ensures Core(g, s') && s.fptr + |data| <= |Stored(g, s)|
  {
    SecsApart(g, s, s.fptr / 512);
    hide Secs, Splice, HeapOK, IsChain, Unlinked, WindowApart, InCluster;
  }

  lemma PutByte(g: Geometry, s: FState, s': FState, data: seq<byte>, keep: nat, i: nat)
    requires Matched(g, s, keep) && Core(g, s) && Core(g, s') && s.fptr % 512 + |data| <= 512 && i < |Stored(g, s)|
    requires i < |Stored(g, s')|
    requires s.fptr / 512 < |Secs(g, s.chain)| && s.dsect == Secs(g, s.chain)[s.fptr / 512] && |s.buf| == 512
    requires s' == s.(buf := Splice(s.buf, s.fptr % 512, data), dirty := true)
    ensures s.fptr <= i < s.fptr + |data| ==> Stored(g, s')[i] == data[i - s.fptr]
    ensures i / 512 != s.fptr / 512 ==> Stored(g, s')[i] == Stored(g, s)[i]
    ensures i < keep && !(s.fptr <= i < s.fptr + |data|) ==> Stored(g, s')[i] == Stored(g, s)[i]
  {
    hide *;
    CoreIs(g, s);
    CoreIs(g, s');
    var q, p := s.fptr / 512, i / 512;
    if p != q { RunOne(g, s, q); OutsideRun(g, s, q, 1, p); }
    SectorPositive(g, s, q);
    StoredAt(g, s, i);
    StoredAt(g, s', i);
    BufferDirty(g, s, s', data, Secs(g, s.chain)[p]);
    if p == q && i < keep { MatchedAt(g, s, keep, q, i % 512); }
  }

  lemma MatchedAt(g: Geometry, s: FState, e: nat, q: nat, k: nat)
    requires Core(g, s) && Matched(g, s, e) && q < |Secs(g, s.chain)| && Secs(g, s.chain)[q] == s.dsect && k < 512
    requires 512 * q + k < e
    ensures |s.buf| == 512 && s.dsect < |Disk(s)| && Disk(s)[s.dsect][k] == s.buf[k]
  {
  }

  lemma RunOne(g: Geometry, s: FState, q: nat)
    requires Core(g, s) && g.csize >= 1
    ensures q % g.csize + 1 <= g.csize
  {
    DivMod(q, g.csize);
  }

  lemma SectorPositive(g: Geometry, s: FState, q: nat)
    requires Core(g, s) && q < |Secs(g, s.chain)|
    ensures Secs(g, s.chain)[q] > 0
  {
  }

  lemma StoredAt(g: Geometry, s: FState, i: nat)
    requires Core(g, s) && i < |Stored(g, s)|
    ensures Clusters(g, s.chain) && i / 512 < |Secs(g, s.chain)| && Secs(g, s.chain)[i / 512] < |Disk(s)|
    ensures Stored(g, s)[i] == Disk(s)[Secs(g, s.chain)[i / 512]][i % 512]
  {
  }

  /** Making the buffer dirty changes the buffered sector only. */
  lemma BufferDirty(g: Geometry, s: FState, s': FState, data: seq<byte>, x: nat)
    requires Core(g, s) && s.fptr % 512 + |data| <= 512 && |s.buf| == 512 && s.dsect != 0 && x < |s.media|
    requires s' == s.(buf := Splice(s.buf, s.fptr % 512, data), dirty := true)
    ensures x == s.dsect ==> Disk(s')[x] == Splice(s.buf, s.fptr % 512, data)
    ensures x != s.dsect ==> Disk(s')[x] == Disk(s)[x]
  {
    hide ChainOK, WindowApart, Splice;
  }

  /** The first partial write at the growing edge: the buffer was not filled, so the rest of the
      sector, beyond the end of the file, is whatever the buffer held. */
  lemma PutAtEdge(g: Geometry, s: FState, s': FState, q: nat, data: seq<byte>)
    requires AtSector(g, s, q) && !s.dirty && 0 < |data| < 512
    requires s' == s.(buf := Splice(s.buf, 0, data), dirty := true, dsect := Secs(g, s.chain)[q],
                      fptr := s.fptr + |data|)
    ensures FileOK(g, s') && WroteAt(Stored(g, s), Stored(g, s'), s.fptr, data, s.fptr)
  {
    hide *;
    AtSectorIs(g, s, q);
    var s1 := s.(dsect := Secs(g, s.chain)[q]);
    CoreIs(g, s);
    EdgeLoaded(g, s, s1, q);
    PutInBuffer(g, s1, s', data, 0);
    FileOKIs(g, s');
    EdgeWrote(Stored(g, s), Stored(g, s'), s.fptr, data);
  }

  lemma EdgeWrote(st: seq<byte>, st': seq<byte>, p: nat, data: seq<byte>)
    requires |st'| == |st| && p + |data| <= |st| && p % 512 == 0 && st'[p..p + |data|] == data
    requires forall i :: 0 <= i < |st| && i / 512 != p / 512 ==> st'[i] == st[i]
    ensures WroteAt(st, st', p, data, p)
  {
    forall i | 0 <= i < p ensures st'[i] == st[i] { assert i / 512 < p / 512; }
  }

  lemma EdgeLoaded(g: Geometry, s: FState, s1: FState, q: nat)
    requires AtSector(g, s, q) && !s.dirty
    requires q < |Secs(g, s.chain)| && s1 == s.(dsect := Secs(g, s.chain)[q])
    ensures InBuffer(g, s1) && Core(g, s) && Core(g, s1) && Stored(g, s1) == Stored(g, s)
    ensures s1.fptr % 512 == 0 && s1.fptr / 512 == q
  {
    SecsInCluster(g, s.chain, q);
    hide HeapOK, IsChain, Unlinked, WindowApart;
    assert Disk(s1) == Disk(s);
  }

  /** The old bytes are still there, perhaps followed by more. */
  ghost predicate Grown(st: seq<byte>, st': seq<byte>) {
    |st| <= |st'| && st'[..|st|] == st
  }

  /** `create_chain` found the next cluster in place. */
  lemma Followed(g: Geometry, s: FState, s': FState, q: nat, clst: nat, scl: nat, mark: nat)
    requires FileOK(g, s) && s.fptr == 512 * q && q < |Secs(g, s.chain)| && q % g.csize == 0 && q > 0
    requires MediaStep(g, s, s') && s' == s.(fat := s'.fat, media := s'.media, winsect := s'.winsect)
    requires Created(s.fat, s'.fat, s.clust, scl, mark, clst)
    ensures Core(g, s') && Home(g, q) < |s.chain| && clst == s.chain[Home(g, q)] >= 2
    ensures Grown(Stored(g, s), Stored(g, s')) && s.sclust != 0
  {
    hide *;
    FileOKIs(g, s);
    CoreIs(g, s);
    NextCluster(g, s, q);
    CreatedFollow(s.fat, s'.fat, s.clust, scl, mark, clst);
    FatReadKeeps(g, s, s');
    GrownSame(Stored(g, s));
  }

  lemma GrownSame(st: seq<byte>)
    ensures Grown(st, st)
  {
  }

  /** A failed allocation leaves the file as it was. */
  lemma StillPositioned(g: Geometry, s: FState, s': FState)
    requires FileOK(g, s) && MediaStep(g, s, s') && s' == s.(media := s'.media, winsect := s'.winsect)
    ensures FileOK(g, s') && Stored(g, s') == Stored(g, s)
  {
    hide Core, Stored;
    FatReadKeeps(g, s, s');
  }

  /** `create_chain` added a cluster. */
  lemma GrownBy(g: Geometry, s: FState, s': FState, ncl: nat, mark: nat, q: nat)
    requires FileOK(g, s) && s.fptr == 512 * q && q >= |Secs(g, s.chain)|
    requires MediaStep(g, s, s') && 2 <= ncl < |s.fat| && s.fat[ncl] == 0 && mark >= |s.fat|
    requires s' == s.(fat := Stretched(s.fat, if q == 0 then 0 else s.clust, ncl, mark), media := s'.media,
                      winsect := s'.winsect,
                      chain := s.chain + [ncl], sclust := if s.sclust == 0 then ncl else s.sclust)
    ensures Core(g, s') && Clusters(g, s'.chain) && q < |Secs(g, s'.chain)| && g.csize >= 1
    ensures Home(g, q) < |s'.chain| && s'.chain[Home(g, q)] == ncl
    ensures Grown(Stored(g, s), Stored(g, s'))
  {
    FileOKIs(g, s);
    CoreIs(g, s);
    AtEnd(g, s, q);
    hide Core, Stored, Secs;
    assert LastCluster(s) == if q == 0 then 0 else s.clust;
    Extend(g, s, s', ncl, mark);
    SecsExtend(g, s.chain, ncl);
    SecsExtend(g, s.chain, ncl);
  }

  /** What `create_chain` means for a file at a cluster boundary: it found the next cluster in
      place, or the drive has no free one, or the chain got a new last cluster. */
  lemma NextOrNew(g: Geometry, s: FState, s': FState, q: nat, arg: nat, clst: nat, scl: nat, mark: nat)
    requires FileOK(g, s) && g.csize >= 1 && Clusters(g, s.chain) && s.fptr == 512 * q && q % g.csize == 0
    requires if q == 0 then arg == 0 && s.sclust == 0 else arg == s.clust
    requires MediaStep(g, s, s') && mark >= |s.fat| && Created(s.fat, s'.fat, arg, scl, mark, clst)
    requires s' == s.(fat := s'.fat, media := s'.media, winsect := s'.winsect,
                      chain := if q >= |Secs(g, s.chain)| && clst != 0 then s.chain + [clst] else s.chain,
                      sclust := if s.sclust == 0 && clst != 0 then clst else s.sclust)
    ensures clst == 0 ==>
              FileOK(g, s') && Core(g, s) && Core(g, s') && Stored(g, s') == Stored(g, s) && NoneFree(s'.fat)
    ensures clst == 0 ==> s'.chain == s.chain && q == |Secs(g, s.chain)|
    ensures clst != 0 ==>
              Core(g, s) && Core(g, s') && Clusters(g, s'.chain) && 2 <= clst && Grown(Stored(g, s), Stored(g, s'))
    ensures clst != 0 ==> q < |Secs(g, s'.chain)| && Home(g, q) < |s'.chain| && s'.chain[Home(g, q)] == clst
  {
    hide *;
    FileOKIs(g, s);
    CoreIs(g, s);
    HeapOf(g, s);
    if q < |Secs(g, s.chain)| {
      NextCluster(g, s, q);
      if q > 0 {
        Followed(g, s, s', q, clst, scl, mark);
      } else {
        NotEmpty(g, s);
      }
    } else {
      AtEnd(g, s, q);
      CreatedFresh(s.fat, s'.fat, arg, scl, mark, clst);
      if clst == 0 { StillPositioned(g, s, s'); FileOKIs(g, s'); } else { GrownBy(g, s, s', clst, mark, q); }
    }
  }

  lemma NotEmpty(g: Geometry, s: FState)
    requires Core(g, s) && s.sclust == 0
    ensures Clusters(g, s.chain) && |Secs(g, s.chain)| == 0
  {
  }

  /** Flushing at the start of a sector. */
  lemma StillAt(g: Geometry, s: FState, s': FState, q: nat)
    requires AtSector(g, s, q) && Core(g, s') && s' == s.(media := s'.media, dirty := s'.dirty)
    ensures AtSector(g, s', q)
  {
  }

  /** The sector that the code computes from the current cluster. */
  lemma SectorOf(g: Geometry, s: FState, q: nat)
    requires AtSector(g, s, q)
    ensures g.nFatent >= 2 && g.csize >= 1 && Clusters(g, s.chain) && q < |Secs(g, s.chain)|
    ensures Clust2Sect(g, s.clust) != 0 && Clust2Sect(g, s.clust) + q % g.csize == Secs(g, s.chain)[q]
  {
    SecsSplit(g, s.chain, q);
    Clust2SectIs(g, s.clust);
  }

  lemma FirstSector(g: Geometry, s: FState)
    requires FileOK(g, s) && s.fptr == 0 && s.sclust != 0
    ensures Core(g, s) && Clusters(g, s.chain) && g.csize >= 1
    ensures 0 < |Secs(g, s.chain)| && Home(g, 0) < |s.chain| && s.chain[Home(g, 0)] == s.sclust
    ensures 2 <= s.sclust < ALL_ONES
  {
    TimesLe(1, |s.chain|, g.csize);
    DivModIs(0, g.csize, 0, 0);
  }

  /** Inside a cluster the current cluster is the right one already. */
  lemma MidCluster(g: Geometry, s: FState, q: nat)
    requires FileOK(g, s) && g.csize >= 1 && s.fptr == 512 * q && q % g.csize != 0
    ensures AtSector(g, s, q) && s.clust < ALL_ONES
  {
    if q >= |Secs(g, s.chain)| { AtEnd(g, s, q); }
    NextCluster(g, s, q);
  }

  /** A run of sectors of the file does not touch the window. */
  lemma RunOffWindow(g: Geometry, s: FState, q: nat, cc: nat)
    requires AtSector(g, s, q) && 0 < cc && q % g.csize + cc <= g.csize
    ensures Clusters(g, s.chain) && q < |Secs(g, s.chain)|
    ensures var sect := Secs(g, s.chain)[q]; g.database <= sect && !(sect <= s.winsect < sect + cc)
  {
    AtSectorIs(g, s, q);
    var sect := Secs(g, s.chain)[q];
    if sect <= s.winsect < sect + cc {
      ConsecutiveSecs(g, s.chain, q, s.winsect - sect);
      SecsApart(g, s, q + (s.winsect - sect));
    }
  }

  lemma TransferredIntro(g: Geometry, s: FState, m: seq<Sector>, q: nat, cc: nat, data: seq<byte>)
    requires Clusters(g, s.chain) && q < |Secs(g, s.chain)| && |data| == 512 * cc
    requires Sent(s.media, m, Secs(g, s.chain)[q], cc, data)
    ensures Transferred(g, s, m, q, cc, data)
  {
  }

  lemma SpliceAll(buf: seq<byte>, fill: seq<byte>)
    requires |fill| == |buf|
    ensures Splice(buf, 0, fill) == fill
  {
  }

  lemma SpliceWrote(st: seq<byte>, p: nat, d: seq<byte>)
    requires p + |d| <= |st|
    ensures WroteAt(st, Splice(st, p, d), p, d, |st|)
  {
  }

  /** How much of the file is known while it is being written: what was there, and what is written. */
  function Known(fptr: nat, fsize: nat): (e: nat)
    ensures e >= fptr && e >= fsize && (e == fptr || e == fsize)
  {
    if fptr < fsize then fsize else fptr
  }

  lemma KnownIs(p: nat, fptr: nat, fsize: nat)
    ensures Known(p, fsize) == if p < fsize then fsize else p
    ensures Known(fptr, fsize) == if fptr < fsize then fsize else fptr
  {
  }

  lemma SizeMatched(g: Geometry, s: FState, s': FState, e: nat)
    requires Matched(g, s, e) && s' == s.(fsize := s'.fsize)
    ensures Matched(g, s', e)
  {
  }

  /** A direct write over sectors `q`, ... keeps the match, also for the bytes written. */
  /** The buffer after a direct write, where it is on one of the written sectors and where it is not. */
  lemma RefilledAt(m: seq<Sector>, m': seq<Sector>, buf: seq<byte>, dsect: nat, sect: nat, cc: nat, data: seq<byte>)
    requires |buf| == 512 && |data| == 512 * cc && Sent(m, m', sect, cc, data) && dsect <= ALL_ONES && |m| <= ALL_ONES
    ensures |m'| == |m|
    ensures if sect <= dsect < sect + cc then dsect < |m'| && m'[dsect] == Refilled(buf, dsect, sect, cc, data)
            else Refilled(buf, dsect, sect, cc, data) == buf && (dsect < |m| ==> m'[dsect] == m[dsect])
  {
    WrappedRange(dsect, sect, cc);
    if sect <= dsect < sect + cc {
      var k := dsect - sect;
      assert m'[sect + k] == data[512 * k..512 * k + 512];
    }
  }

  lemma MatchedIntro(g: Geometry, s: FState, e: nat)
    requires Clusters(g, s.chain) && s.dsect < |s.media| && |s.buf| == 512
    requires forall q, k ::
               0 <= q < |Secs(g, s.chain)| && Secs(g, s.chain)[q] == s.dsect && 0 <= k < 512 && 512 * q + k < e ==>
                 s.buf[k] == s.media[s.dsect][k]
    ensures Matched(g, s, e)
  {
    hide Secs, Clusters;
  }

  lemma MatchedOff(g: Geometry, s: FState, e: nat)
    requires s.dsect >= |s.media|
    ensures Matched(g, s, e)
  {
  }

  /** A byte of the file outside the sectors written was one before. */
  lemma ByteOutside(p: nat, k: nat, q: nat, cc: nat, e: nat, e': nat)
    requires !(q <= p < q + cc) && k < 512 && 512 * p + k < e' && 512 * q <= e
    requires e' <= (if e < 512 * q + 512 * cc then 512 * q + 512 * cc else e)
    ensures 512 * p + k < e
  {
  }

  lemma OutsideSecs(g: Geometry, ch: seq<nat>, q: nat, cc: nat, p: nat)
    requires g.csize >= 1 && Clusters(g, ch) && q < |Secs(g, ch)| && q % g.csize + cc <= g.csize && p < |Secs(g, ch)|
    requires q <= p < q + cc
    ensures Secs(g, ch)[q] <= Secs(g, ch)[p] < Secs(g, ch)[q] + cc
  {
    ConsecutiveSecs(g, ch, q, p - q);
  }

  lemma MatchedRun(g: Geometry, s: FState, s': FState, q: nat, cc: nat, data: seq<byte>, e: nat, e': nat)
    requires AtSector(g, s, q) && !s.dirty && 0 < cc && q % g.csize + cc <= g.csize && |data| == 512 * cc
    requires |s.buf| == 512
    requires Clusters(g, s.chain) && q < |Secs(g, s.chain)| && Sent(s.media, s'.media, Secs(g, s.chain)[q], cc, data)
    requires s' == s.(media := s'.media, buf := Refilled(s.buf, s.dsect, Secs(g, s.chain)[q], cc, data),
                      fptr := s'.fptr)
    requires Matched(g, s, e) && e' <= (if e < 512 * q + 512 * cc then 512 * q + 512 * cc else e) && 512 * q <= e
    ensures Matched(g, s', e')
  {
    hide *;
    AtSectorIs(g, s, q);
    CoreIs(g, s);
    RefilledAt(s.media, s'.media, s.buf, s.dsect, Secs(g, s.chain)[q], cc, data);
    var secs := Secs(g, s.chain);
    forall p, k | 0 <= p < |secs| && secs[p] == s.dsect && 0 <= k < 512 && 512 * p + k < e' && s.dsect < |s.media|
      ensures s'.buf[k] == s'.media[s.dsect][k]
    {
      if !(secs[q] <= s.dsect < secs[q] + cc) {
        if q <= p < q + cc { OutsideSecs(g, s.chain, q, cc, p); }
        ByteOutside(p, k, q, cc, e, e');
        MatchedAt(g, s, e, p, k);
        DiskClean(s);
      }
    }
    if s.dsect < |s.media| { MatchedIntro(g, s', e'); } else { MatchedOff(g, s', e'); }
  }

  /** A cut file matches as far as it goes. */
  lemma MatchedCut(g: Geometry, s: FState, s': FState, k: nat, e: nat)
    requires Core(g, s) && MediaStep(g, s, s') && k <= |s.chain| && s'.chain == s.chain[..k]
    requires s'.dsect == s.dsect && s'.dirty == s.dirty && s'.buf == s.buf && Matched(g, s, e)
    ensures Matched(g, s', e)
  {
    SecsPrefix(g, s.chain, k);
    var secs, secs' := Secs(g, s.chain), Secs(g, s.chain[..k]);
    hide Secs, HeapOK, IsChain, Unlinked, WindowApart;
    forall q | 0 <= q < |secs'| && secs'[q] == s.dsect
      ensures q < |secs| && secs[q] == s.dsect && s.dsect != s.winsect && g.database <= s.dsect
    {
      assert secs[..|secs'|][q] == secs[q];
      SecsApart(g, s, q);
    }
  }

  /** A clean buffer on a sector between `lo` and the end of the file holds other bytes than the drive. */
  ghost predicate GapDiffers(g: Geometry, s: FState, lo: nat) {
    && Clusters(g, s.chain) && !s.dirty && |s.buf| == 512 && s.dsect < |s.media|
    && exists q, k :: 0 <= q < |Secs(g, s.chain)| && Secs(g, s.chain)[q] == s.dsect && 0 <= k < 512
                      && lo <= 512 * q + k < s.fsize && s.buf[k] != s.media[s.dsect][k]
  }

  lemma GapMatched(g: Geometry, s: FState, lo: nat)
    requires Matched(g, s, lo) && lo <= s.fsize
    ensures Matched(g, s, s.fsize) <==> !GapDiffers(g, s, lo)
  {
  }

  /** What a direct write does to the stored bytes. */
  lemma DirectWrote(g: Geometry, s: FState, s': FState, q: nat, cc: nat, data: seq<byte>)
    requires AtSector(g, s, q) && !s.dirty && 0 < cc && q % g.csize + cc <= g.csize && |data| == 512 * cc
    requires |s.buf| == 512
    requires Clusters(g, s.chain) && q < |Secs(g, s.chain)| && Sent(s.media, s'.media, Secs(g, s.chain)[q], cc, data)
    requires s' == s.(media := s'.media, buf := Refilled(s.buf, s.dsect, Secs(g, s.chain)[q], cc, data),
                      fptr := s.fptr + 512 * cc)
    ensures FileOK(g, s') && Core(g, s') && Core(g, s)
    ensures WroteAt(Stored(g, s), Stored(g, s'), s.fptr, data, |Stored(g, s)|)
  {
    hide *;
    AtSectorIs(g, s, q);
    TransferredIntro(g, s, s'.media, q, cc, data);
    DirectWrite(g, s, s', q, cc, data);
    FileOKIs(g, s');
    SpliceWrote(Stored(g, s), s.fptr, data);
  }

  /** What a partial write in the buffer does to the stored bytes. */
  lemma PutWrote(g: Geometry, s: FState, s': FState, data: seq<byte>, keep: nat)
    requires InBuffer(g, s) && 0 < |data| <= 512 - s.fptr % 512 && |s.buf| == 512
    requires s' == s.(buf := Splice(s.buf, s.fptr % 512, data), dirty := true, fptr := s.fptr + |data|)
    ensures FileOK(g, s') && Core(g, s') && Core(g, s)
    ensures Matched(g, s, keep) ==> WroteAt(Stored(g, s), Stored(g, s'), s.fptr, data, keep)
  {
    hide *;
    PutInBuffer(g, s, s', data, keep);
    InBufferIs(g, s);
    FileOKIs(g, s');
  }

  lemma WroteLess(st: seq<byte>, st': seq<byte>, p: nat, d: seq<byte>, keep: nat, keep': nat)
    requires WroteAt(st, st', p, d, keep) && (keep' <= keep || keep >= |st|)
    ensures WroteAt(st, st', p, d, keep')
  {
  }

  lemma GrownWrote(st: seq<byte>, st1: seq<byte>, st2: seq<byte>, p: nat, d: seq<byte>, keep: nat)
    requires Grown(st, st1)
    ensures WroteAt(st1, st2, p, d, keep) ==> WroteAt(st, st2, p, d, keep)
  {
    if WroteAt(st1, st2, p, d, keep) { WroteAfterGrowth(st, st1, st2, p, d, keep); }
  }

  /** The file size is no more than a number next to the bytes. */
  lemma SetSize(g: Geometry, s: FState, size: nat)
    requires FileOK(g, s) && size <= 512 * |Secs(g, s.chain)|
    ensures FileOK(g, s.(fsize := size)) && Stored(g, s.(fsize := size)) == Stored(g, s)
  {
  }

  /** The wrapping test for a write past 4 GB. */
  lemma WrappedSize(fptr: nat, btw: nat)
    requires fptr <= ALL_ONES && btw <= ALL_ONES
    ensures (fptr + btw) % 0x1_0000_0000 < fptr <==> fptr + btw > ALL_ONES
  {
    if fptr + btw > ALL_ONES {
      Euclid(fptr + btw, 0x1_0000_0000, 1, fptr + btw - 0x1_0000_0000);
    } else {
      Euclid(fptr + btw, 0x1_0000_0000, 0, fptr + btw);
    }
  }

  // ---------- Seeking ----------

  /** Going back to the top. */
  lemma Rewind(g: Geometry, s: FState, s': FState)
    requires Core(g, s) && s' == s.(fptr := 0)
    ensures FileOK(g, s') && Stored(g, s') == Stored(g, s)
  {
  }

  /** Byte offsets and clusters: dividing by the cluster size in bytes. */
  lemma ByteCluster(g: Geometry, x: nat)
    requires g.csize >= 1
    ensures 512 * g.csize >= 1
    ensures x - x % (512 * g.csize) == 512 * Times(Home(g, x / 512), g.csize)
    ensures x / (512 * g.csize) == Home(g, x / 512)
  {
    var a := x / 512;
    var j, k := a / g.csize, a % g.csize;
    DivMod(a, g.csize);
    TimesIs(j, g.csize);
    Scaled(g.csize, j);
    Euclid(x, 512 * g.csize, j, 512 * k + x % 512);
  }

  lemma Scaled(c: nat, j: nat)
    ensures (512 * c) * j == 512 * (j * c)
  {
  }

  /** Whether a seek to `target` can start from the current cluster, and where that begins. */
  method SameOrLater(g: Geometry, fptr: nat, target: nat) returns (here: bool, start: nat)
    requires g.csize >= 1 && target > 0
    ensures here <==> fptr > 0 && Home(g, (target - 1) / 512) >= Home(g, (fptr - 1) / 512)
    ensures here ==> start == 512 * Times(Home(g, (fptr - 1) / 512), g.csize)
  {
    hide *;
    var bcs := 512 * g.csize;
    here, start := false, 0;
    if fptr > 0 {
      ByteCluster(g, target - 1);
      ByteCluster(g, fptr - 1);
      here := (target - 1) / bcs >= (fptr - 1) / bcs;
      start := (fptr - 1) - (fptr - 1) % bcs;
    }
  }

  /** A seek to the same or a later cluster starts from the current one. */
  lemma SeekHere(g: Geometry, s: FState, s': FState, target: nat)
    requires FileOK(g, s) && g.csize >= 1 && s.fptr > 0 && target > 0
    requires Home(g, (target - 1) / 512) >= Home(g, (s.fptr - 1) / 512)
    requires s' == s.(fptr := 512 * Times(Home(g, (s.fptr - 1) / 512), g.csize))
    ensures s'.fptr % 512 == 0 && s'.fptr < target && s'.fptr / 512 % g.csize == 0
    ensures AtSector(g, s', s'.fptr / 512) && Stored(g, s') == Stored(g, s)
  {
    var j := Home(g, (s.fptr - 1) / 512);
    var t := (target - 1) / 512;
    DivMod(t, g.csize);
    TimesLe(j, Home(g, t), g.csize);
    assert 512 * t <= target - 1;
    AtCluster(g, s, s', j);
  }

  lemma AtCluster(g: Geometry, s: FState, s': FState, j: nat)
    requires Core(g, s) && g.csize >= 1 && Clusters(g, s.chain) && j < |s.chain| && s.clust == s.chain[j]
    requires s' == s.(fptr := 512 * Times(j, g.csize))
    ensures Times(j, g.csize) % g.csize == 0 && s'.fptr / 512 == Times(j, g.csize)
    ensures AtSector(g, s', Times(j, g.csize)) && Stored(g, s') == Stored(g, s)
  {
    DivModIs(Times(j, g.csize), g.csize, j, 0);
    TimesLe(j + 1, |s.chain|, g.csize);
    assert Times(j + 1, g.csize) == Times(j, g.csize) + g.csize;
    assert |Secs(g, s.chain)| == Times(|s.chain|, g.csize) && Home(g, Times(j, g.csize)) == j;
    hide *;
    CoreIs(g, s);
    Reposition(g, s, s');
    AtSectorIntro(g, s', Times(j, g.csize));
  }

  /** The rest of the current cluster is allocated. */
  lemma ClusterEnd(g: Geometry, s: FState, q: nat)
    requires AtSector(g, s, q) && q % g.csize == 0
    ensures g.csize >= 1 && s.fptr + 512 * g.csize <= 512 * |Secs(g, s.chain)|
    ensures Clusters(g, s.chain) && s.fptr == 512 * q
    ensures (q + g.csize) % g.csize == 0
  {
    CoreIs(g, s);
    RunFits(g, s.chain, q, g.csize);
    DivMod(q, g.csize);
    DivModIs(q + g.csize, g.csize, q / g.csize + 1, 0);
  }

  /** On to the end of the current cluster. */
  lemma SkipCluster(g: Geometry, s: FState, s': FState, q: nat)
    requires AtSector(g, s, q) && q % g.csize == 0 && s' == s.(fptr := s.fptr + 512 * g.csize)
    ensures FileOK(g, s') && Stored(g, s') == Stored(g, s)
  {
    hide *;
    ClusterEnd(g, s, q);
    Advance(g, s, s', q, 512 * g.csize);
  }

  /** The last leg of a seek, inside the current cluster. */
  lemma Land(g: Geometry, s: FState, s': FState, q: nat, n: nat)
    requires AtSector(g, s, q) && q % g.csize == 0 && 0 < n <= 512 * g.csize && s' == s.(fptr := s.fptr + n)
    ensures Core(g, s') && Clusters(g, s.chain) && Stored(g, s') == Stored(g, s)
    ensures n % 512 == 0 ==> FileOK(g, s')
    ensures n % 512 != 0 ==> s'.fptr / 512 == q + n / 512 < |Secs(g, s.chain)| && s'.fptr % 512 != 0
    ensures n % 512 != 0 ==> g.nFatent >= 2 && Clust2Sect(g, s.clust) != 0
                             && Clust2Sect(g, s.clust) + n / 512 == Secs(g, s.chain)[q + n / 512]
  {
    AtSectorIs(g, s, q);
    ClusterEnd(g, s, q);
    Reposition(g, s, s');
    hide Core, Stored, Secs, Home, AtSector, FileOK, Clust2Sect;
    if n % 512 == 0 {
      Advance(g, s, s', q, n);
    } else {
      SectorOf(g, s, q);
      ConsecutiveSecs(g, s.chain, q, n / 512);
    }
  }

  lemma Landed(g: Geometry, s: FState, s1: FState, s2: FState, q: nat, n: nat)
    requires AtSector(g, s, q) && q % g.csize == 0 && 0 < n <= 512 * g.csize && n % 512 != 0
    requires s1 == s.(fptr := s.fptr + n)
    requires Core(g, s2) && s2 == s1.(media := s2.media, buf := s2.buf, dirty := s2.dirty, dsect := s2.dsect)
    requires Clusters(g, s.chain) && q + n / 512 < |Secs(g, s.chain)| && s2.dsect == Secs(g, s.chain)[q + n / 512]
    ensures FileOK(g, s2)
  {
    hide *;
    AtSectorIs(g, s, q);
    AtClusterOf(g, s, q);
    assert (s1.fptr - 1) / 512 == q + n / 512 && s1.fptr / 512 == q + n / 512;
    HomeSame(g, q, q + n / 512);
    FileOKIntro(g, s2);
  }

  // ---------- Truncating ----------

  /** How many clusters the bytes before the position need. */
  ghost function ClustersBefore(g: Geometry, fptr: nat): nat
    requires g.csize >= 1
  {
    if fptr == 0 then 0 else Home(g, (fptr - 1) / 512) + 1
  }

  /** The FAT with the chain ended after its first `k` clusters, before the rest is freed. */
  ghost function Ended(f: seq<nat>, ch: seq<nat>, k: nat, mark: nat): (r: seq<nat>)
    requires k <= |ch| && forall i :: 0 <= i < |ch| ==> ch[i] < |f|
    ensures |r| == |f|
  {
    if k == 0 then f else f[ch[k - 1] := mark]
  }

  /** Ending a chain early splits it: the rest is a chain of its own that nothing links to. */
  lemma EndedSplits(f: seq<nat>, ch: seq<nat>, k: nat, mark: nat)
    requires HeapOK(f) && IsChain(f, ch) && Unlinked(f, ch[0]) && k < |ch| && mark >= |f|
    ensures HeapOK(Ended(f, ch, k, mark)) && IsChain(Ended(f, ch, k, mark), ch[k..])
    ensures Unlinked(Ended(f, ch, k, mark), ch[k])
    ensures k > 0 ==> f[ch[k - 1]] == ch[k]
  {
    ChainDistinct(f, ch);
    if k > 0 {
      assert f[ch[k - 1]] == ch[k];
      EndKeeps(f, ch[k - 1], mark);
      var f1 := Ended(f, ch, k, mark);
      forall i | 0 <= i < |ch[k..]| ensures f1[ch[k..][i]] == f[ch[k + i]] {
        assert ch[k + i] != ch[k - 1];
      }
    } else {
      assert ch[0..] == ch;
    }
  }

  /** The FAT once the rest is freed too. */
  lemma Cut(f: seq<nat>, ch: seq<nat>, k: nat, mark: nat)
    requires HeapOK(f) && IsChain(f, ch) && Unlinked(f, ch[0]) && k < |ch| && mark >= |f|
    ensures 2 <= ch[k] < |f| && !Walk(Ended(f, ch, k, mark), ch[k]).intErr
    ensures Walk(Ended(f, ch, k, mark), ch[k]).freed == ch[k..]
    ensures var f' := Walk(Ended(f, ch, k, mark), ch[k]).fat;
            && HeapOK(f') && |f'| == |f|
            && (k > 0 ==> IsChain(f', ch[..k]) && Unlinked(f', ch[0]))
            && (forall c :: c in ch[k..] ==> f'[c] == 0)
            && (forall c :: 2 <= c < |f| && c !in ch ==> f'[c] == f[c])
  {
    var f1 := Ended(f, ch, k, mark);
    EndedSplits(f, ch, k, mark);
    WalkChain(f1, ch[k..]);
    WalkFrees(f1, ch[k]);
    CutKeeps(f, ch, k, mark, Walk(f1, ch[k]).fat);
  }

  lemma CutKeeps(f: seq<nat>, ch: seq<nat>, k: nat, mark: nat, f': seq<nat>)
    requires HeapOK(f) && IsChain(f, ch) && Unlinked(f, ch[0]) && k < |ch| && mark >= |f| && |f'| == |f|
    requires (forall d :: d in ch[k..] ==> 2 <= d < |f| && f'[d] == 0)
    requires (forall d :: 0 <= d < |f| && d !in ch[k..] ==> f'[d] == Ended(f, ch, k, mark)[d])
    ensures k > 0 ==> IsChain(f', ch[..k]) && Unlinked(f', ch[0])
    ensures forall c :: 2 <= c < |f| && c !in ch ==> f'[c] == f[c]
  {
    ChainDistinct(f, ch);
    hide HeapOK, Ended;
    EndedIs(f, ch, k, mark);
    if k > 0 {
      KeptChain(f, ch, k, mark, f');
      forall d | 2 <= d < |f| ensures f'[d] != ch[0] {
        if d !in ch[k..] { assert f'[d] == Ended(f, ch, k, mark)[d]; }
      }
    }
    forall c | 2 <= c < |f| && c !in ch ensures f'[c] == f[c] { assert c !in ch[k..]; }
  }

  lemma EndedIs(f: seq<nat>, ch: seq<nat>, k: nat, mark: nat)
    requires k <= |ch| && forall i :: 0 <= i < |ch| ==> ch[i] < |f|
    ensures forall c :: 0 <= c < |f| ==> Ended(f, ch, k, mark)[c] == if k > 0 && c == ch[k - 1] then mark else f[c]
  {
  }

  lemma KeptChain(f: seq<nat>, ch: seq<nat>, k: nat, mark: nat, f': seq<nat>)
    requires IsChain(f, ch) && Distinct(ch) && 0 < k < |ch| && mark >= |f| && |f'| == |f|
    requires (forall d :: 0 <= d < |f| && d !in ch[k..] ==> f'[d] == Ended(f, ch, k, mark)[d])
    ensures IsChain(f', ch[..k])
  {
    EndedIs(f, ch, k, mark);
    hide Ended;
    forall i | 0 <= i < k ensures f'[ch[i]] == if i == k - 1 then mark else ch[i + 1] {
      assert ch[i] !in ch[k..];
      assert f[ch[i]] == ch[i + 1];
    }
  }

  /** A file cut at its position. */
  lemma Truncated(g: Geometry, s: FState, s': FState, mark: nat)
    requires FileOK(g, s) && g.csize >= 1 && Clusters(g, s.chain) && s.sclust != 0 && mark >= |s.fat|
    requires MediaStep(g, s, s')
    requires s.fptr < s.fsize
    requires var k := ClustersBefore(g, s.fptr);
             && k <= |s.chain|
             && s' == s.(fat := s'.fat, media := s'.media, winsect := s'.winsect, chain := s.chain[..k],
                         sclust := if k == 0 then 0 else s.sclust, fsize := s.fptr)
             && if k == |s.chain| then s'.fat == s.fat
                else 2 <= s.chain[k] && s'.fat == Walk(Ended(s.fat, s.chain, k, mark), s.chain[k]).fat
    ensures FileOK(g, s') && File(g, s') == File(g, s)[..s.fptr]
  {
    var k := ClustersBefore(g, s.fptr);
    TruncatedChain(g, s, s', mark, k);
    TruncatedRest(g, s, s', k);
  }

  lemma ChainOKIs(g: Geometry, s: FState)
    ensures ChainOK(g, s) <==>
            && DataFits(g) && |s.fat| == g.nFatent && |s.media| == g.nsect && HeapOK(s.fat) && Clusters(g, s.chain)
            && (if s.sclust == 0 then s.chain == []
                else IsChain(s.fat, s.chain) && s.chain[0] == s.sclust && Unlinked(s.fat, s.sclust))
            && forall q :: 0 <= q < |Secs(g, s.chain)| ==> g.database <= Secs(g, s.chain)[q] < g.nsect
  {
    hide DataFits, HeapOK, Clusters, IsChain, Unlinked, Secs;
  }

  lemma CoreIff(g: Geometry, s: FState)
    ensures Core(g, s) <==>
            && ChainOK(g, s) && WindowApart(g, s) && BufferOK(g, s) && Clusters(g, s.chain)
            && s.fptr <= 512 * |Secs(g, s.chain)| && s.fsize <= 512 * |Secs(g, s.chain)|
  {
    hide DataFits, HeapOK, IsChain, Unlinked, Secs, WindowApart, BufferOK;
  }

  /** The buffer after a step that leaves it alone. */
  lemma BufferUntouched(g: Geometry, s: FState, s': FState)
    requires BufferOK(g, s) && MediaStep(g, s, s') && g.Valid() && |s.media| == g.nsect && s'.buf == s.buf
    requires s'.dsect == s.dsect && s'.dirty == s.dirty
    ensures BufferOK(g, s')
  {
  }

  lemma DataFitsValid(g: Geometry)
    requires DataFits(g)
    ensures g.Valid()
  {
  }

  lemma PrefixIn(g: Geometry, ch: seq<nat>, k: nat)
    requires Clusters(g, ch) && k <= |ch|
    requires forall q :: 0 <= q < |Secs(g, ch)| ==> g.database <= Secs(g, ch)[q] < g.nsect
    ensures Clusters(g, ch[..k])
    ensures forall q :: 0 <= q < |Secs(g, ch[..k])| ==> g.database <= Secs(g, ch[..k])[q] < g.nsect
  {
    SecsPrefix(g, ch, k);
    hide Secs;
    var secs, secs' := Secs(g, ch), Secs(g, ch[..k]);
    forall q | 0 <= q < |secs'| ensures g.database <= secs'[q] < g.nsect { assert secs[..|secs'|][q] == secs[q]; }
  }

  lemma StepSize(g: Geometry, s: FState, s': FState)
    requires MediaStep(g, s, s')
    ensures |s'.media| == |s.media|
  {
  }

  lemma TruncatedChain(g: Geometry, s: FState, s': FState, mark: nat, k: nat)
    requires Core(g, s) && s.sclust != 0 && mark >= |s.fat| && MediaStep(g, s, s') && k <= |s.chain|
    requires s' == s.(fat := s'.fat, media := s'.media, winsect := s'.winsect, chain := s.chain[..k],
                      sclust := if k == 0 then 0 else s.sclust, fsize := s.fptr)
    requires if k == |s.chain| then s'.fat == s.fat
             else 2 <= s.chain[k] && s'.fat == Walk(Ended(s.fat, s.chain, k, mark), s.chain[k]).fat
    ensures ChainOK(g, s') && WindowApart(g, s') && BufferOK(g, s')
    ensures Clusters(g, s.chain) && |Secs(g, s'.chain)| <= |Secs(g, s.chain)|
    ensures Secs(g, s.chain)[..|Secs(g, s'.chain)|] == Secs(g, s'.chain)
  {
    hide *;
    CoreIff(g, s);
    ChainOKIs(g, s);
    TruncatedLinks(g, s, s', mark, k);
    PrefixIn(g, s.chain, k);
    SecsPrefix(g, s.chain, k);
    StepSize(g, s, s');
    ApartAfter(g, s, s');
    DataFitsValid(g);
    BufferUntouched(g, s, s');
    ChainOKIs(g, s');
  }

  lemma TruncatedLinks(g: Geometry, s: FState, s': FState, mark: nat, k: nat)
    requires ChainOK(g, s) && s.sclust != 0 && mark >= |s.fat| && k <= |s.chain|
    requires s'.chain == s.chain[..k] && s'.sclust == if k == 0 then 0 else s.sclust
    requires if k == |s.chain| then s'.fat == s.fat
             else 2 <= s.chain[k] && s'.fat == Walk(Ended(s.fat, s.chain, k, mark), s.chain[k]).fat
    ensures |s'.fat| == |s.fat| && HeapOK(s'.fat) && |s.chain| > 0
    ensures if s'.sclust == 0 then s'.chain == []
            else IsChain(s'.fat, s'.chain) && s'.chain[0] == s'.sclust && Unlinked(s'.fat, s'.sclust)
    ensures forall c :: 2 <= c < |s.fat| && (c in s'.chain || s'.fat[c] == 0) ==> c in s.chain || s.fat[c] == 0
  {
    if k < |s.chain| {
      Cut(s.fat, s.chain, k, mark);
    } else {
      assert s.chain[..k] == s.chain;
    }
  }

  lemma TruncatedRest(g: Geometry, s: FState, s': FState, k: nat)
    requires FileOK(g, s) && g.csize >= 1 && s.fptr < s.fsize && k == ClustersBefore(g, s.fptr) <= |s.chain|
    requires ChainOK(g, s') && WindowApart(g, s') && BufferOK(g, s') && MediaStep(g, s, s')
    requires s' == s.(fat := s'.fat, media := s'.media, winsect := s'.winsect, chain := s.chain[..k],
                      sclust := s'.sclust, fsize := s.fptr)
    requires Clusters(g, s.chain) && Clusters(g, s'.chain) && |Secs(g, s'.chain)| <= |Secs(g, s.chain)|
    requires Secs(g, s.chain)[..|Secs(g, s'.chain)|] == Secs(g, s'.chain)
    ensures FileOK(g, s') && File(g, s') == File(g, s)[..s.fptr]
  {
    hide *;
    TruncatedPosition(g, s, s', k);
    FileOKIs(g, s);
    FileOKIs(g, s');
    CoreIs(g, s);
    CoreIs(g, s');
    FileOf(g, s);
    FileOf(g, s');
    forall i | 0 <= i < s.fptr ensures Stored(g, s')[i] == Stored(g, s)[i] {
      TruncatedByte(g, s, s', i);
    }
  }

  lemma FileOf(g: Geometry, s: FState)
    requires Core(g, s)
    ensures s.fsize <= |Stored(g, s)| && File(g, s) == Stored(g, s)[..s.fsize]
  {
  }

  lemma TruncatedPosition(g: Geometry, s: FState, s': FState, k: nat)
    requires FileOK(g, s) && g.csize >= 1 && s.fptr < s.fsize && k == ClustersBefore(g, s.fptr) <= |s.chain|
    requires ChainOK(g, s') && WindowApart(g, s') && BufferOK(g, s')
    requires s' == s.(fat := s'.fat, media := s'.media, winsect := s'.winsect, chain := s.chain[..k],
                      sclust := s'.sclust, fsize := s.fptr)
    requires Clusters(g, s.chain) && Clusters(g, s'.chain) && |Secs(g, s'.chain)| <= |Secs(g, s.chain)|
    requires Secs(g, s.chain)[..|Secs(g, s'.chain)|] == Secs(g, s'.chain)
    ensures FileOK(g, s')
  {
    hide *;
    FileOKIs(g, s);
    CoreIs(g, s);
    PositionedIs(g, s);
    BeforeCut(g, s.chain, s.fptr, k);
    TruncatedCore(g, s, s');
    var secs, secs' := Secs(g, s.chain), Secs(g, s'.chain);
    if s.fptr > 0 {
      var p := (s.fptr - 1) / 512;
      assert s'.chain[Home(g, p)] == s.chain[Home(g, p)];
      if s.fptr % 512 != 0 {
        assert s.fptr / 512 == p;
        assert secs[..|secs'|][p] == secs[p];
      }
    }
    FileOKIntro(g, s');
  }

  /** The bytes before the position are in the clusters that stay. */
  lemma BeforeCut(g: Geometry, ch: seq<nat>, fptr: nat, k: nat)
    requires g.csize >= 1 && k == ClustersBefore(g, fptr) <= |ch| && Clusters(g, ch[..k])
    ensures fptr <= 512 * |Secs(g, ch[..k])|
    ensures fptr > 0 ==> Home(g, (fptr - 1) / 512) < k && (fptr - 1) / 512 < |Secs(g, ch[..k])|
  {
    hide Secs;
    if fptr > 0 {
      DivMod((fptr - 1) / 512, g.csize);
      assert Times(k, g.csize) == Times(k - 1, g.csize) + g.csize;
    }
  }

  lemma TruncatedCore(g: Geometry, s: FState, s': FState)
    requires ChainOK(g, s') && WindowApart(g, s') && BufferOK(g, s') && Clusters(g, s'.chain)
    requires s'.fptr == s'.fsize == s.fptr <= 512 * |Secs(g, s'.chain)|
    ensures Core(g, s')
  {
  }

  lemma TruncatedByte(g: Geometry, s: FState, s': FState, i: nat)
    requires Core(g, s) && Core(g, s') && MediaStep(g, s, s') && Clusters(g, s.chain) && Clusters(g, s'.chain)
    requires s'.buf == s.buf && s'.dsect == s.dsect && s'.dirty == s.dirty
    requires |Secs(g, s'.chain)| <= |Secs(g, s.chain)| && Secs(g, s.chain)[..|Secs(g, s'.chain)|] == Secs(g, s'.chain)
    requires i < |Stored(g, s')| && i < |Stored(g, s)|
    ensures Stored(g, s')[i] == Stored(g, s)[i]
  {
    var secs, secs' := Secs(g, s.chain), Secs(g, s'.chain);
    assert secs[..|secs'|][i / 512] == secs[i / 512];
    SecsApart(g, s, i / 512);
  }

  /** Where the chain is cut: behind the current cluster, or before the first one. */
  lemma CutPoint(g: Geometry, s: FState, k: nat)
    requires FileOK(g, s) && g.csize >= 1 && s.fptr < s.fsize && k == ClustersBefore(g, s.fptr)
    ensures k <= |s.chain| && s.sclust != 0 && 2 <= s.sclust < |s.fat| && (k == 0 <==> s.fptr == 0)
    ensures k == 0 ==> |s.chain| > 0 && s.chain[0] == s.sclust
    ensures k > 0 ==> s.clust == s.chain[k - 1] && 2 <= s.clust < |s.fat|
    ensures 0 < k < |s.chain| ==> 2 <= s.fat[s.clust] == s.chain[k] < |s.fat|
    ensures k == |s.chain| ==> s.fat[s.clust] >= |s.fat|
  {
    if 0 < k < |s.chain| { assert s.fat[s.chain[k - 1]] == s.chain[k]; }
  }

  /** The file `s` cut behind its first `k` clusters. */
  ghost predicate CutTo(s: FState, s': FState, k: nat) {
    && k <= |s.chain|
    && s' == s.(fat := s'.fat, media := s'.media, winsect := s'.winsect, chain := s.chain[..k],
                sclust := if k == 0 then 0 else s.sclust, fsize := s.fptr)
  }

  /** The clusters behind the first `k` are free, and no entry of another file has changed. */
  ghost predicate TailFreed(s: FState, f': seq<nat>, k: nat) {
    && |f'| == |s.fat| && k <= |s.chain|
    && (forall c :: c in s.chain[k..] && c < |f'| ==> f'[c] == 0)
    && (forall c :: 2 <= c < |f'| && c !in s.chain ==> f'[c] == s.fat[c])
  }

  /** Nothing behind the position to release. */
  lemma CutNothing(g: Geometry, s: FState, s': FState, mark: nat, k: nat)
    requires FileOK(g, s) && g.csize >= 1 && Clusters(g, s.chain) && s.fptr < s.fsize && MediaStep(g, s, s')
    requires mark >= |s.fat| && k == ClustersBefore(g, s.fptr) == |s.chain| && CutTo(s, s', k) && s'.fat == s.fat
    ensures FileOK(g, s') && Core(g, s) && Core(g, s') && File(g, s') == File(g, s)[..s.fptr]
    ensures TailFreed(s, s'.fat, k)
  {
    hide Core, File, ChainOK, Clusters;
    CutPoint(g, s, k);
    Truncated(g, s, s', mark);
  }

  /** Everything behind the position released. */
  lemma CutTail(g: Geometry, s: FState, s': FState, mark: nat, k: nat, free: nat, free': nat, res: FResult)
    requires FileOK(g, s) && g.csize >= 1 && Clusters(g, s.chain) && s.fptr < s.fsize && MediaStep(g, s, s')
    requires mark >= |s.fat| && k == ClustersBefore(g, s.fptr) < |s.chain| && CutTo(s, s', k)
    requires free <= ALL_ONES && (forall i :: 0 <= i < |s.chain| ==> s.chain[i] < |s.fat|)
    requires Removed(Ended(s.fat, s.chain, k, mark), s'.fat, s.chain[k], free, free', res)
    ensures res == FR_OK && FileOK(g, s') && Core(g, s) && Core(g, s') && File(g, s') == File(g, s)[..s.fptr]
    ensures TailFreed(s, s'.fat, k) && (Exact(free, s.fat) ==> Exact(free', s'.fat))
  {
    hide *;
    FileOKIs(g, s);
    CutPoint(g, s, k);
    ChainOf(g, s);
    CutFat(s, s'.fat, mark, k, free, free', res);
    CutToIs(s, s', k);
    Truncated(g, s, s', mark);
    FileOKIs(g, s');
  }

  lemma CutToIs(s: FState, s': FState, k: nat)
    requires CutTo(s, s', k)
    ensures k <= |s.chain|
    ensures s' == s.(fat := s'.fat, media := s'.media, winsect := s'.winsect, chain := s.chain[..k],
                     sclust := if k == 0 then 0 else s.sclust, fsize := s.fptr)
  {
  }

  lemma ChainOf(g: Geometry, s: FState)
    requires Core(g, s) && s.sclust != 0
    ensures HeapOK(s.fat) && |s.chain| > 0 && IsChain(s.fat, s.chain) && Unlinked(s.fat, s.chain[0])
    ensures forall i :: 0 <= i < |s.chain| ==> 2 <= s.chain[i] < |s.fat|
    ensures |s.fat| == g.nFatent <= 0x1000_0000
  {
  }

  lemma CutFat(s: FState, f': seq<nat>, mark: nat, k: nat, free: nat, free': nat, res: FResult)
    requires HeapOK(s.fat) && IsChain(s.fat, s.chain) && Unlinked(s.fat, s.chain[0]) && k < |s.chain| && mark >= |s.fat|
    requires free <= ALL_ONES && |s.fat| <= 0x1000_0000 && forall i :: 0 <= i < |s.chain| ==> 2 <= s.chain[i] < |s.fat|
    requires Removed(Ended(s.fat, s.chain, k, mark), f', s.chain[k], free, free', res)
    ensures res == FR_OK && f' == Walk(Ended(s.fat, s.chain, k, mark), s.chain[k]).fat
    ensures TailFreed(s, f', k) && (Exact(free, s.fat) ==> Exact(free', f'))
  {
    var f1 := Ended(s.fat, s.chain, k, mark);
    Cut(s.fat, s.chain, k, mark);
    WalkFrees(f1, s.chain[k]);
    ChainUsed(s.fat, s.chain);
    hide Walk, HeapOK, IsChain, Unlinked, CountFree;
    if k > 0 { CountUpdate(s.fat, s.chain[k - 1], mark); }
  }

  /** The cuts along the way. */
  lemma CutCuts(g: Geometry, s: FState, f': seq<nat>, mark: nat, k: nat, cuts: seq<seq<nat>>, cuts1: seq<seq<nat>>,
                cuts': seq<seq<nat>>)
    requires Core(g, s) && s.sclust != 0 && k < |s.chain| && mark >= |s.fat|
    requires forall i :: 0 <= i < |s.chain| ==> s.chain[i] < |s.fat|
    requires g.fsType != FAT12 ==> cuts1 == if k == 0 then cuts else cuts + [Ended(s.fat, s.chain, k, mark)]
    requires g.fsType != FAT12 ==> Releasing(g.fsType, Ended(s.fat, s.chain, k, mark), s.chain[k], cuts1, f', 0, cuts')
    ensures CutsHold(g.fsType, cuts) ==> CutsHold(g.fsType, cuts')
  {
    ChainOf(g, s);
    EndedSplits(s.fat, s.chain, k, mark);
    hide Core, HeapOK, Unlinked, CutsSafe, IsChain, Ended;
    if CutsHold(g.fsType, cuts) && k > 0 { CutsAppendSafe(cuts, Ended(s.fat, s.chain, k, mark)); }
  }

  // ---------- Synchronising ----------

  /** The sector of the directory entry is no sector of a FAT, of FSINFO, of the file or of a free cluster. */
  ghost predicate DirEntryApart(g: Geometry, s: FState, sect: nat) {
    && sect < g.nsect && !g.InFat1(sect) && !g.InFat2(sect) && !g.IsFsInfo(sect)
    && forall c :: 2 <= c < |s.fat| && (c in s.chain || s.fat[c] == 0) ==> !InCluster(g, c, sect)
  }

  lemma DirEntryApartIs(g: Geometry, s: FState, sect: nat)
    requires DirEntryApart(g, s, sect)
    ensures sect < g.nsect && !g.InFat1(sect) && !g.InFat2(sect) && !g.IsFsInfo(sect)
  {
  }

  lemma DirEntryApartKept(g: Geometry, s: FState, s': FState, sect: nat)
    requires DirEntryApart(g, s, sect) && s'.fat == s.fat && s'.chain == s.chain
    ensures DirEntryApart(g, s', sect)
  {
  }

  /** A change outside the data area, or in the sector that was in the window, which is now on
      the directory entry or on FSINFO. */
  ghost predicate Elsewhere(g: Geometry, s: FState, s': FState, sect: nat) {
    && |s'.media| == |s.media|
    && (forall x: nat :: g.database <= x < |s.media| && x != s.winsect ==> s'.media[x] == s.media[x])
    && (s'.winsect == sect || g.IsFsInfo(s'.winsect))
  }

  lemma WindowToEntry(g: Geometry, s: FState, s': FState, sect: nat)
    requires FileOK(g, s) && Elsewhere(g, s, s', sect) && s' == s.(media := s'.media, winsect := s'.winsect)
    requires DirEntryApart(g, s, sect) && !s.dirty
    ensures FileOK(g, s') && Core(g, s) && Core(g, s') && Stored(g, s') == Stored(g, s)
  {
    hide *;
    FileOKIs(g, s);
    CoreIs(g, s);
    PositionedIs(g, s);
    ElsewhereCore(g, s, s', sect);
    FileOKIntro(g, s');
  }

  lemma ElsewhereCore(g: Geometry, s: FState, s': FState, sect: nat)
    requires Core(g, s) && Elsewhere(g, s, s', sect) && s' == s.(media := s'.media, winsect := s'.winsect)
    requires DirEntryApart(g, s, sect) && !s.dirty
    ensures Core(g, s') && Stored(g, s') == Stored(g, s)
  {
    ElsewhereApart(g, s, s', sect);
    var secs := Secs(g, s.chain);
    hide WindowApart, HeapOK, IsChain, Unlinked;
    assert Core(g, s');
    forall q | 0 <= q < |secs| ensures Disk(s')[secs[q]] == Disk(s)[secs[q]] { SecsApart(g, s, q); }
    SameContent(Disk(s), Disk(s'), secs);
  }

  lemma ElsewhereApart(g: Geometry, s: FState, s': FState, sect: nat)
    requires Core(g, s) && Elsewhere(g, s, s', sect) && s' == s.(media := s'.media, winsect := s'.winsect)
    requires DirEntryApart(g, s, sect) && !s.dirty
    ensures WindowApart(g, s') && BufferOK(g, s')
  {
    forall c | 2 <= c < |s'.fat| && (c in s'.chain || s'.fat[c] == 0) ensures !InCluster(g, c, s'.winsect) {
      ClusterFits(g, c);
    }
  }

  /** With the buffer clean the drive itself holds the file. */
  lemma OnDrive(g: Geometry, s: FState)
    requires Core(g, s) && !s.dirty
    ensures Clusters(g, s.chain) && SectorsIn(s.media, Secs(g, s.chain)) && s.fsize <= 512 * |Secs(g, s.chain)|
    ensures Content(s.media, Secs(g, s.chain))[..s.fsize] == File(g, s)
  {
  }

  /** Times, cluster and size stored into an entry. */
  function EntryFields(e: seq<byte>, size: nat, clust: nat, tm: nat): (r: seq<byte>)
    requires |e| == 32 && size < 0x1_0000_0000 && tm < 0x1_0000_0000
    ensures |r| == 32
  {
    var sized := Splice(e, 28, StDword(size));
    var clustered := Splice(Splice(sized, 26, StWord(clust)), 20, StWord(clust / 0x1_0000));
    Splice(Splice(clustered, 22, StDword(tm)), 18, StWord(0))
  }

  lemma FieldsSize(e: seq<byte>, size: nat, clust: nat, tm: nat)
    requires |e| == 32 && size < 0x1_0000_0000 && tm < 0x1_0000_0000
    ensures EntryFields(e, size, clust, tm)[..11] == e[..11] && EntrySize(EntryFields(e, size, clust, tm)) == size
  {
    hide Splice, StWord, StDword, LdDword;
    var d, r := StDword(size), EntryFields(e, size, clust, tm);
    assert r[28] == d[0] && r[29] == d[1] && r[30] == d[2] && r[31] == d[3];
  }

  lemma FieldsCluster(e: seq<byte>, size: nat, clust: nat, tm: nat)
    requires |e| == 32 && size < 0x1_0000_0000 && tm < 0x1_0000_0000 && clust < 0x1_0000_0000
    ensures EntryCluster(EntryFields(e, size, clust, tm)) == clust
  {
    hide Splice, StWord, StDword, LdWord;
    var lo, hi, r := StWord(clust), StWord(clust / 0x1_0000), EntryFields(e, size, clust, tm);
    assert r[26] == lo[0] && r[27] == lo[1] && r[20] == hi[0] && r[21] == hi[1];
    hide EntryFields;
    Halves(clust);
  }

  lemma Halves(clust: nat)
    requires clust < 0x1_0000_0000
    ensures var lo, hi := StWord(clust), StWord(clust / 0x1_0000);
            LdWord(lo[0], lo[1]) + 0x1_0000 * LdWord(hi[0], hi[1]) == clust
  {
    hide StWord, LdWord;
    var q := clust / 0x1_0000;
    assert q < 0x1_0000 && clust == 0x1_0000 * q + clust % 0x1_0000;
    Euclid(q, 0x1_0000, 0, q);
  }

  /** The attribute with the archive bit set. */
  function Archived(attr: byte): byte { if attr / 32 % 2 == 1 then attr else attr + 32 }

  /** The directory entry with archive bit, size, first cluster and times brought up to date. */
  function UpdatedEntry(e: seq<byte>, size: nat, clust: nat, tm: nat): (r: seq<byte>)
    requires |e| == 32 && size < 0x1_0000_0000 && tm < 0x1_0000_0000
    ensures |r| == 32
  {
    EntryFields(Splice(e, 11, [Archived(e[11])]), size, clust, tm)
  }

  /** What synchronising a file makes of its directory entry: the archive bit is set; the size is at 28, the time and
      date of the change at 22, the first cluster at 26 and 20; the date of the last access, at 18, is cleared; name,
      reserved bytes and creation time stay. */
  ghost predicate Updates(e: seq<byte>, r: seq<byte>, size: nat, clust: nat, tm: nat) {
    && |e| == |r| == 32 && r[..11] == e[..11] && r[12..18] == e[12..18]
    && r[11] / 0x20 % 2 == 1 && (r[11] == e[11] || r[11] as int == e[11] as int + 0x20)
    && Le32(r, 28) == size && Le32(r, 22) == tm && r[18] == 0 && r[19] == 0
    && r[26] as int + 0x100 * r[27] as int + 0x1_0000 * r[20] as int + 0x100_0000 * r[21] as int == clust
  }

  /** Reading the entry back gives name, size, time and first cluster. */
  lemma UpdatedEntryIs(e: seq<byte>, size: nat, clust: nat, tm: nat)
    requires |e| == 32 && size < 0x1_0000_0000 && clust < 0x1_0000_0000 && tm < 0x1_0000_0000
    ensures Updates(e, UpdatedEntry(e, size, clust, tm), size, clust, tm)
    ensures var r := UpdatedEntry(e, size, clust, tm);
            r[..11] == e[..11] && EntrySize(r) == size && EntryCluster(r) == clust
  {
    hide *;
    var e1, r := Splice(e, 11, [Archived(e[11])]), UpdatedEntry(e, size, clust, tm);
    UpdatedFields(e, size, clust, tm);
    ArchivedIs(e[11]);
    NameKept(e, Archived(e[11]));
    FieldsSize(e1, size, clust, tm);
    FieldsCluster(e1, size, clust, tm);
    FieldsTime(e1, size, clust, tm);
    FieldsKept(e1, size, clust, tm);
    EntryNumbers(r);
    UpdatesIntro(e, r, size, clust, tm);
  }

  lemma UpdatedFields(e: seq<byte>, size: nat, clust: nat, tm: nat)
    requires |e| == 32 && size < 0x1_0000_0000 && tm < 0x1_0000_0000
    ensures UpdatedEntry(e, size, clust, tm) == EntryFields(Splice(e, 11, [Archived(e[11])]), size, clust, tm)
  {
  }

  lemma UpdatesIntro(e: seq<byte>, r: seq<byte>, size: nat, clust: nat, tm: nat)
    requires |e| == |r| == 32 && r[..11] == e[..11] && r[12..18] == e[12..18]
    requires r[11] / 0x20 % 2 == 1 && (r[11] == e[11] || r[11] as int == e[11] as int + 0x20)
    requires Le32(r, 28) == size && Le32(r, 22) == tm && r[18] == 0 && r[19] == 0
    requires r[26] as int + 0x100 * r[27] as int + 0x1_0000 * r[20] as int + 0x100_0000 * r[21] as int == clust
    ensures Updates(e, r, size, clust, tm)
  {
    hide Le32;
  }

  lemma ArchivedIs(attr: byte)
    ensures Archived(attr) / 0x20 % 2 == 1 && (Archived(attr) == attr || Archived(attr) as int == attr as int + 0x20)
  {
  }

  lemma EntryNumbers(e: seq<byte>)
    requires |e| == 32
    ensures EntrySize(e) == Le32(e, 28)
    ensures EntryCluster(e) ==
            e[26] as int + 0x100 * e[27] as int + 0x1_0000 * e[20] as int + 0x100_0000 * e[21] as int
  {
  }

  lemma FieldsTime(e: seq<byte>, size: nat, clust: nat, tm: nat)
    requires |e| == 32 && size < 0x1_0000_0000 && tm < 0x1_0000_0000
    ensures var r := EntryFields(e, size, clust, tm); Le32(r, 22) == tm && r[18] == 0 && r[19] == 0
  {
    hide *;
    ZeroWord();
    TimeBytes(tm);
    TimeStored(e, size, clust, tm);
    var d, r := StDword(tm), EntryFields(e, size, clust, tm);
    Le32Of(r, 22, d);
  }

  lemma TimeStored(e: seq<byte>, size: nat, clust: nat, tm: nat)
    requires |e| == 32 && size < 0x1_0000_0000 && tm < 0x1_0000_0000 && |StWord(0)| == 2
    ensures var d, r := StDword(tm), EntryFields(e, size, clust, tm);
            && r[22] == d[0] && r[23] == d[1] && r[24] == d[2] && r[25] == d[3]
            && r[18] == StWord(0)[0] && r[19] == StWord(0)[1]
  {
    hide Splice, StWord, StDword;
  }

  lemma FieldsKept(e: seq<byte>, size: nat, clust: nat, tm: nat)
    requires |e| == 32 && size < 0x1_0000_0000 && tm < 0x1_0000_0000
    ensures var r := EntryFields(e, size, clust, tm); r[11] == e[11] && r[12..18] == e[12..18]
  {
    hide Splice, StWord, StDword;
  }

  lemma Le32Of(s: seq<byte>, off: nat, d: seq<byte>)
    requires off + 4 <= |s| && |d| == 4 && s[off] == d[0] && s[off + 1] == d[1] && s[off + 2] == d[2]
    requires s[off + 3] == d[3]
    ensures Le32(s, off) ==
            d[0] as int + 0x100 * d[1] as int + 0x1_0000 * d[2] as int + 0x100_0000 * d[3] as int
  {
  }

  lemma TimeBytes(tm: nat)
    requires tm < 0x1_0000_0000
    ensures var d := StDword(tm);
            d[0] as int + 0x100 * d[1] as int + 0x1_0000 * d[2] as int + 0x100_0000 * d[3] as int == tm
  {
  }

  lemma NameKept(e: seq<byte>, attr: byte)
    requires |e| == 32
    ensures var r := Splice(e, 11, [attr]); r[..11] == e[..11] && r[11] == attr && r[12..18] == e[12..18]
  {
  }

  function EntrySize(e: seq<byte>): nat
    requires |e| == 32
  {
    LdDword(e[28], e[29], e[30], e[31])
  }

  function EntryCluster(e: seq<byte>): nat
    requires |e| == 32
  {
    LdWord(e[26], e[27]) + 0x1_0000 * LdWord(e[20], e[21])
  }
}
