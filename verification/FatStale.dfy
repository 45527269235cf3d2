/** Truncation and the sector buffer. A truncation to a multiple of 512 leaves the buffer on a sector that
    the file gives up; if another file writes that sector and gives it up in turn, and the file grows onto
    it again by a seek, the gap reads as the old buffer until the buffer moves and as the drive afterwards. */
module FatStale {
  import opened Bytes
  import opened Seqs
  import opened FatEntry
  import opened FatVolume
  import opened FatHeap
  import opened FatChain
  import opened FatData
  import opened FatFileState
  import opened FatApart
  import opened FatFile
  import opened FatSession

  /** The buffer is on the sector of byte `p` of the file. */
  ghost predicate On(g: Geometry, s: FState, p: nat) {
    Clusters(g, s.chain) && p / 512 < |Secs(g, s.chain)| && s.dsect == Secs(g, s.chain)[p / 512]
  }

  /** It is clean, and differs from the drive there. */
  ghost predicate Stale(g: Geometry, s: FState, p: nat) {
    On(g, s, p) && !s.dirty && |s.buf| == 512 && s.dsect < |s.media| && s.buf[p % 512] != s.media[s.dsect][p % 512]
  }

  lemma OnIs(g: Geometry, s: FState, p: nat)
    ensures On(g, s, p)
          <==> Clusters(g, s.chain) && p / 512 < |Secs(g, s.chain)| && s.dsect == Secs(g, s.chain)[p / 512]
  {
    hide Clusters, Secs;
  }

  lemma StaleIs(g: Geometry, s: FState, p: nat)
    requires Stale(g, s, p)
    ensures On(g, s, p) && !s.dirty && |s.buf| == 512 && s.dsect < |s.media|
    ensures s.buf[p % 512] != s.media[s.dsect][p % 512]
  {
    hide On;
  }

  /** The file's byte is the one on the drive. */
  lemma StaleFile(g: Geometry, s: FState, p: nat)
    requires Core(g, s) && Stale(g, s, p) && p < s.fsize
    ensures p < |File(g, s)| && File(g, s)[p] == s.media[s.dsect][p % 512]
  {
    StaleIs(g, s, p);
    OnIs(g, s, p);
    DiskClean(s);
    FileOf(g, s);
    hide Core, File, Disk, Secs, Clusters, On, Stale;
    assert Stored(g, s)[p] == Disk(s)[Secs(g, s.chain)[p / 512]][p % 512];
  }

  /** A longer chain has the old sectors where they were. */
  lemma SecPrefix(g: Geometry, ch: seq<nat>, ch': seq<nat>, q: nat)
    requires Clusters(g, ch) && Clusters(g, ch') && ch <= ch' && q < |Secs(g, ch)|
    ensures q < |Secs(g, ch')| && Secs(g, ch')[q] == Secs(g, ch)[q]
  {
    assert ch'[..|ch|] == ch;
    SecsPrefix(g, ch', |ch|);
    hide Secs, Clusters;
    assert Secs(g, ch)[q] == Secs(g, ch')[..|Secs(g, ch)|][q];
  }

  lemma KeptIs(g: Geometry, s: FState, s': FState)
    requires BufferKept(g, s, s') && Tidy(g, s)
    ensures s.chain <= s'.chain && (Good(g, s) ==> Good(g, s'))
  {
    hide Tidy, Good, Matched;
  }

  lemma BufferedIntro(g: Geometry, s: FState, p: nat)
    requires On(g, s, p) && s.fptr == p
    ensures Buffered(g, s, 1)
  {
  }

  /** The position is in the file. */
  lemma PositionIn(g: Geometry, s: FState, p: nat)
    requires Core(g, s) && p < s.fsize
    ensures Clusters(g, s.chain) && p / 512 < |Secs(g, s.chain)|
  {
    CoreIs(g, s);
  }

  lemma AtLimitIs(g: Geometry, s: FState)
    requires AtLimit(g, s)
    ensures Clusters(g, s.chain) && s.fptr == 512 * |Secs(g, s.chain)|
  {
    hide Clusters, Secs;
  }

  lemma FromBufferIs(s: FState, s': FState, data: seq<byte>)
    requires FromBuffer(s, s', data) && |data| == 1
    ensures s'.dsect == s.dsect && s'.buf == s.buf && s'.dirty == s.dirty && s.fptr % 512 < |s.buf|
    ensures data[0] == s.buf[s.fptr % 512]
  {
  }

  lemma NextByte(p: nat)
    requires p % 512 < 511
    ensures (p + 1) / 512 == p / 512 && (p + 1) % 512 != 0
  {
  }

  /** A step of the file that leaves other files alone and its own bytes on the drive. */
  ghost predicate Moved(g: Geometry, s: FState, a: Snapshot, s': FState, b: Snapshot) {
    Local(g, s, a, s', b, {}) && DiskKept(g, s, s')
  }

  lemma MovedIs(g: Geometry, s: FState, a: Snapshot, s': FState, b: Snapshot)
    ensures Moved(g, s, a, s', b) <==> Local(g, s, a, s', b, {}) && DiskKept(g, s, s')
  {
    hide Local, DiskKept;
  }

  /** To byte `p`, inside the file. */
  method Go(f: Fil, p: nat) returns (ok: bool)
    requires Steady(f) && p < f.fsize
    modifies f, f.buf, f.fs, f.fs.win
    ensures f.fs.faults >= old(f.fs.faults) && (!ok ==> f.fs.faults > old(f.fs.faults))
    ensures ok ==> old(f.chain) <= f.chain
    ensures ok ==> Steady(f) && f.fptr == p < f.fsize == old(f.fsize) && Core(f.fs.g, f.S()) && old(Core(f.fs.g, f.S()))
    ensures ok ==> File(f.fs.g, f.S()) == old(File(f.fs.g, f.S()))
    ensures ok && (p % 512 != 0 || old(On(f.fs.g, f.S(), p))) ==> On(f.fs.g, f.S(), p)
    ensures ok && f.dsect == old(f.dsect) ==> f.buf[..] == old(f.buf[..]) && f.dirty == old(f.dirty)
    ensures ok && (f.dsect != old(f.dsect) || old(Good(f.fs.g, f.S()))) ==> Good(f.fs.g, f.S())
    ensures ok && (p % 512 == 0 || old(On(f.fs.g, f.S(), p))) ==> f.dsect == old(f.dsect)
    ensures ok ==> Moved(f.fs.g, old(f.S()), old(f.fs.Now()), f.S(), f.fs.Now())
  {
    hide *;
    SteadyIs(f);
    f.SIs();
    f.HeapFacts();
    AllOnesIs();
    ghost var g, s, a := f.fs.g, f.S(), f.fs.Now();
    FileOf(g, s);
    PositionIn(g, s, p);
    OnIs(g, s, p);
    var res := f.FLseek(p);
    f.SIs();
    ok := res == FR_OK;
    if ok {
      f.OKIs();
      ghost var s1 := f.S();
      if AtLimit(g, s1) { AtLimitIs(g, s1); }
      StaysKept(g, s, a, s1, f.fs.Now(), {});
      KeptIs(g, s, s1);
      SecPrefix(g, s.chain, s1.chain, p / 512);
      ReloadedIs(g, s, s1);
      FileOf(g, s1);
      PositionedIs(g, s1);
      OnIs(g, s1, p);
      SteadyIntro(f);
      MovedIs(g, s, a, s1, f.fs.Now());
    }
  }

  /** Just behind a byte the buffer is on its sector. */
  lemma OnAfter(g: Geometry, s: FState, p: nat)
    requires FileOK(g, s) && Core(g, s) && s.fptr == p + 1 && p % 512 < 511
    ensures On(g, s, p)
  {
    hide *;
    NextByte(p);
    CoreIs(g, s);
    PositionedIs(g, s);
    OnIs(g, s, p);
  }

  lemma OnSame(g: Geometry, s: FState, s': FState, p: nat)
    requires s'.dsect == s.dsect && s'.chain == s.chain
    ensures On(g, s, p) <==> On(g, s', p)
  {
    hide Clusters, Secs;
  }

  /** What the buffer is worth before a byte is read. */
  lemma BufferUse(g: Geometry, s: FState)
    requires Core(g, s)
    ensures On(g, s, s.fptr) ==> Buffered(g, s, 1)
    ensures Good(g, s) ==> Matched(g, s, s.fsize)
  {
    hide *;
    if On(g, s, s.fptr) { BufferedIntro(g, s, s.fptr); }
    if Good(g, s) { GoodMatched(g, s, s.fsize); }
  }

  /** And afterwards. */
  lemma Taken(g: Geometry, s: FState, s': FState, data: seq<byte>)
    requires FileOK(g, s') && Core(g, s') && s'.fptr == s.fptr + 1 && s'.chain == s.chain && |data| == 1
    requires On(g, s, s.fptr) ==> FromBuffer(s, s', data)
    ensures On(g, s, s.fptr) ==> s'.dsect == s.dsect && s.fptr % 512 < |s.buf| && data[0] == s.buf[s.fptr % 512]
    ensures s.fptr % 512 < 511 || On(g, s, s.fptr) ==> On(g, s', s.fptr)
  {
    hide *;
    if s.fptr % 512 < 511 { OnAfter(g, s', s.fptr); }
    if On(g, s, s.fptr) {
      FromBufferIs(s, s', data);
      OnSame(g, s, s', s.fptr);
    }
  }

  /** The byte at the position. */
  method Take(f: Fil) returns (ok: bool, b: byte)
    requires Steady(f) && f.canRead && f.fptr < f.fsize
    modifies f`clust, f`dirty, f`dsect, f`fptr, f`err, f.buf, f.fs, f.fs.win
    ensures f.fs.faults >= old(f.fs.faults) && (!ok ==> f.fs.faults > old(f.fs.faults))
    ensures ok ==> Steady(f) && Core(f.fs.g, f.S()) && old(Core(f.fs.g, f.S()))
    ensures ok ==> File(f.fs.g, f.S()) == old(File(f.fs.g, f.S())) && |File(f.fs.g, f.S())| == f.fsize
    ensures ok && (old(f.fptr) % 512 < 511 || old(On(f.fs.g, f.S(), f.fptr))) ==> On(f.fs.g, f.S(), old(f.fptr))
    ensures ok && old(On(f.fs.g, f.S(), f.fptr)) ==>
              f.dsect == old(f.dsect) && |old(f.buf[..])| == 512 && b == old(f.buf[..])[old(f.fptr) % 512]
    ensures ok && (f.dsect != old(f.dsect) || old(Good(f.fs.g, f.S()))) ==> Good(f.fs.g, f.S())
    ensures ok && old(Good(f.fs.g, f.S())) ==> b == File(f.fs.g, f.S())[old(f.fptr)]
  {
    hide *;
    SteadyIs(f);
    f.SIs();
    f.OKIs();
    f.HeapFacts();
    b := 0;
    ghost var g, s, a := f.fs.g, f.S(), f.fs.Now();
    FileOf(g, s);
    BufferUse(g, s);
    var res, data := f.FRead(1);
    f.SIs();
    ok := res == FR_OK;
    if ok {
      f.OKIs();
      ghost var s1 := f.S();
      StaysKept(g, s, a, s1, f.fs.Now(), {});
      KeptIs(g, s, s1);
      FileOf(g, s1);
      Taken(g, s, s1, data);
      b := data[0];
      SteadyIntro(f);
    }
  }

  /** Byte `p`. */
  method SeekRead(f: Fil, p: nat) returns (ok: bool, b: byte)
    requires Steady(f) && f.canRead && p < f.fsize
    modifies f, f.buf, f.fs, f.fs.win
    ensures f.fs.faults >= old(f.fs.faults) && (!ok ==> f.fs.faults > old(f.fs.faults))
    ensures ok ==> old(f.chain) <= f.chain
    ensures ok ==> Steady(f) && f.canRead && f.fsize == old(f.fsize) && Core(f.fs.g, f.S()) && old(Core(f.fs.g, f.S()))
    ensures ok ==> File(f.fs.g, f.S()) == old(File(f.fs.g, f.S())) && |File(f.fs.g, f.S())| == f.fsize
    ensures ok ==> On(f.fs.g, f.S(), p)
    ensures ok && old(On(f.fs.g, f.S(), p)) ==> f.dsect == old(f.dsect) && b == old(f.buf[..])[p % 512]
    ensures ok && f.dsect != old(f.dsect) ==> Good(f.fs.g, f.S())
    ensures ok && old(Good(f.fs.g, f.S())) ==> b == File(f.fs.g, f.S())[p]
  {
    hide *;
    b := 0;
    ok := Go(f, p);
    if ok { ok, b := Take(f); }
  }

  lemma OnTwo(g: Geometry, s: FState, s': FState, p: nat, p': nat)
    requires Core(g, s) && Core(g, s') && s.chain <= s'.chain && On(g, s, p) && On(g, s', p') && p / 512 != p' / 512
    ensures s'.dsect != s.dsect
  {
    OnIs(g, s, p);
    OnIs(g, s', p');
    CoreIs(g, s);
    SecPrefix(g, s.chain, s'.chain, p / 512);
    ChainOf(g, s');
    ChainDistinct(s'.fat, s'.chain);
    hide Core, Secs, Clusters, On, HeapOK, IsChain;
    if p < p' { SecsDistinct(g, s'.chain, p / 512, p' / 512); } else { SecsDistinct(g, s'.chain, p' / 512, p / 512); }
  }

  /** A byte under a stale buffer is read, then a byte of another sector, then the first byte again: the
      two reads differ, although nothing was written in between. */
  method ReadTwice(f: Fil, p: nat, p': nat) returns (ok: bool, first: byte, second: byte)
    requires Steady(f) && f.canRead && Stale(f.fs.g, f.S(), p) && p < f.fsize && p' < f.fsize && p / 512 != p' / 512
    modifies f, f.buf, f.fs, f.fs.win
    ensures !ok ==> f.fs.faults > old(f.fs.faults)
    ensures ok ==>
              first == old(f.buf[..])[p % 512] && second == old(f.fs.media)[old(f.dsect)][p % 512] && first != second
  {
    hide *;
    second := 0;
    ghost var g, s := f.fs.g, f.S();
    SteadyIs(f);
    f.SIs();
    StaleIs(g, s, p);
    StaleFile(g, s, p);
    ok, first := SeekRead(f, p);
    if ok {
      ghost var s1 := f.S();
      f.SIs();
      SteadyIs(f);
      var x;
      ok, x := SeekRead(f, p');
      if ok {
        f.SIs();
        OnTwo(g, s1, f.S(), p, p');
        ok, second := SeekRead(f, p);
      }
    }
  }


  /** The buffer agrees with the drive, as far as it shows the file, exactly if no byte of the file is
      stale. */
  lemma MatchedIffFresh(g: Geometry, s: FState)
    requires Core(g, s)
    ensures Matched(g, s, s.fsize) <==> forall p: nat :: p < s.fsize ==> !Stale(g, s, p)
  {
    CoreIs(g, s);
    hide Core, Secs, Clusters;
    if !Matched(g, s, s.fsize) {
      var q: nat, k: nat :| q < |Secs(g, s.chain)| && Secs(g, s.chain)[q] == s.dsect && k < 512 && 512 * q + k < s.fsize
                            && s.buf[k] != s.media[s.dsect][k];
      var p := 512 * q + k;
      assert p / 512 == q && p % 512 == k;
      assert Stale(g, s, p);
    }
    forall p: nat | Matched(g, s, s.fsize) && p < s.fsize ensures !Stale(g, s, p) {
      assert p == 512 * (p / 512) + p % 512;
    }
  }

  // ---------- How a buffer gets stale ----------

  lemma LocalTrans(g: Geometry, s: FState, a: Snapshot, s1: FState, a1: Snapshot, s2: FState, b: Snapshot)
    requires g.Valid() && |a.media| == g.nsect && Local(g, s, a, s1, a1, {}) && Local(g, s1, a1, s2, b, {})
    ensures Local(g, s, a, s2, b, {})
  {
    hide Within;
    WithinTrans(g, Mine(s.fat, s.chain), {}, s.fat, a, s1.fat, a1, s2.fat, b);
  }

  /** At most the clusters of `m` are free or in the file's chain, and all of these are. */
  ghost predicate Holds(s: FState, m: set<nat>) {
    Mine(s.fat, s.chain) == m
  }

  lemma HoldsIs(s: FState, m: set<nat>)
    ensures Holds(s, m) <==> Mine(s.fat, s.chain) == m
  {
    hide Mine;
  }

  lemma ShortChain(ch: seq<nat>, c1: nat, c2: nat)
    requires Distinct(ch) && |ch| > 0 && ch[0] == c1 && forall i :: 0 <= i < |ch| ==> ch[i] == c1 || ch[i] == c2
    ensures ch == [c1] || ch == [c1, c2]
  {
    if |ch| >= 2 {
      assert ch[0] != ch[1] && ch[0] != ch[|ch| - 1];
      assert ch[|ch| - 1] == ch[1];
    }
  }

  /** The chain of a file that holds one or two clusters. */
  lemma ChainWithin(g: Geometry, s: FState, c1: nat, c2: nat, ch: seq<nat>)
    requires Core(g, s) && Holds(s, {c1, c2}) && ch <= s.chain && c1 != c2
    requires ch == [c1] || ch == [c1, c2]
    ensures 2 <= c1 < |s.fat| && 2 <= c2 < |s.fat| && (s.chain == [c1] || s.chain == [c1, c2])
    ensures s.chain == [c1] ==> !NoneFree(s.fat) && 2 <= c2 < |s.fat| && s.fat[c2] == 0
  {
    assert c1 in s.chain;
    ChainOf(g, s);
    ChainDistinct(s.fat, s.chain);
    forall i | 0 <= i < |s.chain| ensures s.chain[i] in {c1, c2} { assert s.chain[i] in Mine(s.fat, s.chain); }
    assert c2 in Mine(s.fat, s.chain);
    hide Core, HeapOK, IsChain, Distinct;
    ShortChain(s.chain, c1, c2);
  }

  lemma ChainWithinOne(g: Geometry, s: FState, c: nat)
    requires Core(g, s) && Holds(s, {c})
    ensures s.chain == [] || s.chain == [c]
    ensures s.chain == [] ==> !NoneFree(s.fat) && 2 <= c < |s.fat| && s.fat[c] == 0
  {
    if s.chain != [] {
      ChainOf(g, s);
      ChainDistinct(s.fat, s.chain);
      forall i | 0 <= i < |s.chain| ensures s.chain[i] == c { assert s.chain[i] in Mine(s.fat, s.chain); }
    } else {
      assert c in Mine(s.fat, s.chain);
    }
  }

  /** With one sector per cluster, the sectors of short chains. */
  lemma ShortSecs(g: Geometry, c1: nat, c2: nat)
    requires g.csize == 1 && 2 <= c1 < g.nFatent && 2 <= c2 < g.nFatent
    ensures Clusters(g, [c1, c2]) && Secs(g, [c1, c2]) == [Sec(g, c1), Sec(g, c2)]
    ensures Clusters(g, [c1]) && Secs(g, [c1]) == [Sec(g, c1)]
    ensures Clusters(g, []) && Secs(g, []) == []
  {
    SecsExtend(g, [], c1);
    SecsExtend(g, [c1], c2);
    assert [] + [c1] == [c1] && [c1] + [c2] == [c1, c2];
    assert ClusterSecs(g, c1) == [Sec(g, c1)] && ClusterSecs(g, c2) == [Sec(g, c2)];
  }


  /** Two calls on other files in a row. */
  lemma OtherSurvives(f: Fil, g: Geometry, s: FState, a: Snapshot, s': FState, b: Snapshot, t: FState)
    requires f.Ready() && f.fs.g == g && Core(g, s) && Core(g, s') && Local(g, s, a, s', b, {})
    requires s.media == a.media && s.winsect == a.winsect && s'.media == b.media && s'.winsect == b.winsect
    requires FileOK(g, t) && Tidy(g, t) && t.fat == s.fat && t.media == s.media && t.winsect == s.winsect
    requires Disjoint(s, t)
    requires f.S() == t.(fat := s'.fat, media := s'.media, winsect := s'.winsect)
    requires f.err == FR_OK && f.fptr <= f.fsize <= ALL_ONES && f.dirOff + 32 <= 512 && (f.dirty ==> f.written)
    ensures Steady(f)
  {
    hide *;
    OtherFileKeeps(g, s, a, s', b, {}, t, f.S());
    SameTidy(g, t, f.S());
    SteadyIntro(f);
  }

  lemma SameTidy(g: Geometry, t: FState, t': FState)
    requires SameBytes(g, t, t')
    ensures Tidy(g, t') && Core(g, t) && Core(g, t') && File(g, t') == File(g, t)
  {
    hide Tidy, Core, File, Matched, Good;
  }

  lemma LocalHolds(g: Geometry, s: FState, a: Snapshot, s': FState, b: Snapshot, m: set<nat>)
    requires Local(g, s, a, s', b, {}) && Holds(s, m)
    ensures Holds(s', m)
  {
    hide Within, Mine;
  }

  lemma BeforeIs(g: Geometry)
    requires g.csize == 1
    ensures ClustersBefore(g, 0) == 0 && ClustersBefore(g, 512) == 1
  {
  }

  /** Truncation at the position. */
  method CutAt(f: Fil) returns (ok: bool)
    requires Steady(f) && f.canWrite && f.fptr < f.fsize
    modifies f`fsize, f`sclust, f`chain, f`dirty, f`written, f`err, f.fs, f.fs.win
    ensures f.fs.faults >= old(f.fs.faults) && (!ok ==> f.fs.faults > old(f.fs.faults))
    ensures ok ==>
              && Steady(f) && f.fsize == f.fptr && !f.dirty && f.fs.g.csize >= 1
              && ClustersBefore(f.fs.g, f.fptr) <= |old(f.chain)|
                   && f.chain == old(f.chain)[..ClustersBefore(f.fs.g, f.fptr)]
    ensures ok ==> Moved(f.fs.g, old(f.S()), old(f.fs.Now()), f.S(), f.fs.Now())
  {
    hide *;
    SteadyIs(f);
    f.SIs();
    f.OKIs();
    f.HeapFacts();
    AllOnesIs();
    ghost var g, s, a := f.fs.g, f.S(), f.fs.Now();
    FileOf(g, s);
    var res := f.FTruncate();
    f.SIs();
    ok := res == FR_OK;
    if ok {
      f.OKIs();
      StaysLocal(g, s, a, f.S(), f.fs.Now(), {});
      FreedAre(s, f.fs.fat, ClustersBefore(g, f.fptr));
      MovedIs(g, s, a, f.S(), f.fs.Now());
      SteadyIntro(f);
    }
  }

  lemma FreedAre(s: FState, f': seq<nat>, k: nat)
    requires TailFreed(s, f', k)
    ensures k <= |s.chain|
  {
  }

  /** The file of clusters `c1` and `c2` gives up `c2`; its buffer stays there. */
  method GiveUp(a: Fil, ghost c1: nat, ghost c2: nat) returns (ok: bool)
    requires Steady(a) && a.canWrite && a.fs.g.csize == 1 && a.chain == [c1, c2] && c1 != c2 && a.fsize == 1024
    requires Holds(a.S(), {c1, c2})
    modifies a, a.buf, a.fs, a.fs.win
    ensures a.fs.faults >= old(a.fs.faults) && (!ok ==> a.fs.faults > old(a.fs.faults))
    ensures ok ==>
              && Steady(a) && a.chain == [c1] && a.fptr == a.fsize == 512 && a.dsect == old(a.dsect)
              && a.buf[..] == old(a.buf[..]) && !a.dirty
    ensures ok ==> Holds(a.S(), {c1, c2}) && Local(a.fs.g, old(a.S()), old(a.fs.Now()), a.S(), a.fs.Now(), {})
  {
    hide *;
    SteadyIs(a);
    a.SIs();
    a.fs.Facts();
    ghost var g, s, n := a.fs.g, a.S(), a.fs.Now();
    BeforeIs(g);
    ok := Go(a, 512);
    if ok {
      SteadyIs(a);
      a.SIs();
      a.fs.Facts();
      ghost var s1, n1 := a.S(), a.fs.Now();
      MovedIs(g, s, n, s1, n1);
      LocalHolds(g, s, n, s1, n1, {c1, c2});
      ChainWithin(g, s1, c1, c2, [c1, c2]);
      a.OKIs();
      ok := CutAt(a);
      if ok {
        a.SIs();
        MovedIs(g, s1, n1, a.S(), a.fs.Now());
        LocalHolds(g, s1, n1, a.S(), a.fs.Now(), {c1, c2});
        LocalTrans(g, s, n, s1, n1, a.S(), a.fs.Now());
      }
    }
  }

  // ---------- The other file ----------

  /** Sector of a file of one cluster, one sector long. */
  lemma OneSector(g: Geometry, s: FState, c: nat)
    requires Core(g, s) && g.csize == 1 && s.chain == [c]
    ensures 2 <= c < g.nFatent && Clusters(g, s.chain) && Secs(g, s.chain) == [Sec(g, c)]
    ensures g.database <= Sec(g, c) < |s.media| && Sec(g, c) != s.winsect
    ensures s.fsize <= 512
    ensures s.fsize == 512 ==> File(g, s) == Disk(s)[Sec(g, c)]
  {
    CoreIs(g, s);
    ChainOf(g, s);
    ShortSecs(g, c, c);
    SecsApart(g, s, 0);
    SecsInCluster(g, s.chain, 0);
    FileOf(g, s);
    hide Core, Secs, HeapOK, IsChain, Unlinked, Sec;
    if s.fsize == 512 {
      assert forall k :: 0 <= k < 512 ==> File(g, s)[k] == Disk(s)[Sec(g, c)][k];
    }
  }

  lemma KeptAt(g: Geometry, s: FState, s': FState, x: nat)
    requires DiskKept(g, s, s') && g.database <= x < |s.media| && x != s.winsect
    ensures |s'.media| == |s.media| && Disk(s')[x] == Disk(s)[x]
  {
    hide Disk;
  }

  lemma WrittenAll(f: seq<byte>, d: seq<byte>)
    requires f == []
    ensures Overwrite(f, 0, d) == d
  {
  }

  /** An empty file with the only free cluster `c` to come: one sector is written to it. */
  method Fill(b: Fil, d: seq<byte>, ghost c: nat) returns (ok: bool)
    requires Steady(b) && b.canWrite && b.fs.g.csize == 1 && b.chain == [] && b.fsize == 0 && |d| == 512
    requires Holds(b.S(), {c})
    modifies b, b.buf, b.fs, b.fs.win
    ensures b.fs.faults >= old(b.fs.faults) && (!ok ==> b.fs.faults > old(b.fs.faults))
    ensures ok ==> Steady(b) && b.chain == [c] && b.fsize == 512 && Core(b.fs.g, b.S()) && Holds(b.S(), {c})
    ensures ok ==> File(b.fs.g, b.S()) == d && Local(b.fs.g, old(b.S()), old(b.fs.Now()), b.S(), b.fs.Now(), {})
  {
    hide *;
    SteadyIs(b);
    b.SIs();
    b.OKIs();
    b.HeapFacts();
    AllOnesIs();
    ghost var g, s, n := b.fs.g, b.S(), b.fs.Now();
    FileOf(g, s);
    NothingMatched(g, s);
    var res, bw := b.FWrite(d);
    b.SIs();
    ok := res == FR_OK;
    if ok {
      b.OKIs();
      ghost var s1 := b.S();
      StaysKept(g, s, n, s1, b.fs.Now(), {});
      CoreIs(g, s1);
      LocalHolds(g, s, n, s1, b.fs.Now(), {c});
      ChainWithinOne(g, s1, c);
      if s1.chain == [] { ShortSecs(g, c, c); } else { OneSector(g, s1, c); }
      if AtLimit(g, s1) { AtLimitIs(g, s1); }
      FileOf(g, s1);
      WrittenAll(File(g, s), d[..bw]);
      SteadyIntro(b);
    }
  }

  lemma NothingMatched(g: Geometry, s: FState)
    requires Core(g, s) && s.fsize == 0
    ensures Matched(g, s, s.fsize) && File(g, s) == []
  {
  }


  /** It is written and cut off again: the sector keeps what was written. */
  method Pass(b: Fil, d: seq<byte>, ghost c: nat) returns (ok: bool)
    requires Steady(b) && b.canWrite && b.fs.g.csize == 1 && b.chain == [] && b.fsize == 0 && |d| == 512
    requires Holds(b.S(), {c})
    modifies b, b.buf, b.fs, b.fs.win
    ensures b.fs.faults >= old(b.fs.faults) && (!ok ==> b.fs.faults > old(b.fs.faults))
    ensures ok ==>
              && Steady(b) && b.chain == [] && Holds(b.S(), {c})
              && Local(b.fs.g, old(b.S()), old(b.fs.Now()), b.S(), b.fs.Now(), {})
    ensures ok ==> c >= 2 && Sec(b.fs.g, c) < |b.fs.media| && b.fs.media[Sec(b.fs.g, c)] == d
  {
    hide *;
    SteadyIs(b);
    b.SIs();
    b.fs.Facts();
    ghost var g, s, n := b.fs.g, b.S(), b.fs.Now();
    ok := Fill(b, d, c);
    if ok {
      b.SIs();
      SteadyIs(b);
      b.fs.Facts();
      ghost var s1, n1 := b.S(), b.fs.Now();
      OneSector(g, s1, c);
      ok := Go(b, 0);
      if ok {
        b.SIs();
        SteadyIs(b);
        b.fs.Facts();
        ghost var s2, n2 := b.S(), b.fs.Now();
        MovedIs(g, s1, n1, s2, n2);
        LocalTrans(g, s, n, s1, n1, s2, n2);
        LocalHolds(g, s1, n1, s2, n2, {c});
        ChainWithinOne(g, s2, c);
        OneSector(g, s2, c);
        BeforeIs(g);
        ok := CutAt(b);
        if ok {
          b.SIs();
          MovedIs(g, s2, n2, b.S(), b.fs.Now());
          LocalTrans(g, s, n, s2, n2, b.S(), b.fs.Now());
          LocalHolds(g, s2, n2, b.S(), b.fs.Now(), {c});
          KeptAt(g, s2, b.S(), Sec(g, c));
          DiskClean(b.S());
        }
      }
    }
  }


  /** The file grows back onto `c2`: its buffer, which never left, is shown again. */
  method GrowBack(a: Fil, ghost c1: nat, ghost c2: nat) returns (ok: bool)
    requires Steady(a) && a.canWrite && a.fs.g.csize == 1 && a.chain == [c1] && c1 != c2 && a.fptr == a.fsize == 512
    requires Holds(a.S(), {c1, c2}) && !a.dirty && c2 >= 2 && a.dsect == Sec(a.fs.g, c2) < |a.fs.media|
    requires |a.buf[..]| == 512 && a.buf[..][8] != a.fs.media[a.dsect][8]
    modifies a, a.buf, a.fs, a.fs.win
    ensures a.fs.faults >= old(a.fs.faults) && (!ok ==> a.fs.faults > old(a.fs.faults))
    ensures ok ==>
              && Steady(a) && a.fsize == 700 && Stale(a.fs.g, a.S(), 520) && a.dsect == old(a.dsect)
              && a.buf[..] == old(a.buf[..])
    ensures ok ==> a.dsect < |a.fs.media| == |old(a.fs.media)| && a.fs.media[a.dsect] == old(a.fs.media[a.dsect])
  {
    hide *;
    SteadyIs(a);
    a.SIs();
    a.OKIs();
    a.HeapFacts();
    AllOnesIs();
    ghost var g, s, n := a.fs.g, a.S(), a.fs.Now();
    CoreIs(g, s);
    FileOf(g, s);
    ChainWithin(g, s, c1, c2, [c1]);
    var res := a.FLseek(700);
    a.SIs();
    ok := res == FR_OK;
    if ok {
      a.OKIs();
      ghost var s1 := a.S();
      StaysKept(g, s, n, s1, a.fs.Now(), {});
      KeptIs(g, s, s1);
      LocalHolds(g, s, n, s1, a.fs.Now(), {c1, c2});
      CoreIs(g, s1);
      ChainWithin(g, s1, c1, c2, [c1]);
      ShortSecs(g, c1, c2);
      if AtLimit(g, s1) { AtLimitIs(g, s1); }
      PositionedIs(g, s1);
      ReloadedIs(g, s, s1);
      FreeSector(g, s, c2);
      DiskClean(s);
      DiskClean(s1);
      KeptAt(g, s, s1, Sec(g, c2));
      OnIs(g, s1, 520);
      StaleIntro(g, s1, 520);
      SteadyIntro(a);
    }
  }

  /** A free cluster is not in the window. */
  lemma FreeSector(g: Geometry, s: FState, c: nat)
    requires Core(g, s) && 2 <= c < |s.fat| && s.fat[c] == 0 && g.csize == 1
    ensures g.database <= Sec(g, c) && Sec(g, c) != s.winsect
  {
    CoreIs(g, s);
    ClusterFits(g, c);
  }

  lemma StaleIntro(g: Geometry, s: FState, p: nat)
    requires On(g, s, p) && !s.dirty && |s.buf| == 512 && s.dsect < |s.media|
    requires s.buf[p % 512] != s.media[s.dsect][p % 512]
    ensures Stale(g, s, p)
  {
    hide On;
  }


  /** What the run below starts from: two files, one of two clusters with its clean buffer on the second,
      one empty, and no cluster free. */
  ghost predicate Start(a: Fil, b: Fil, c1: nat, c2: nat)
    reads a, a.buf, a.fs, a.fs.win, b, b.buf, b.fs, b.fs.win
  {
    && a != b && a.buf != b.buf && a.fs == b.fs && Steady(a) && Steady(b) && a.fs.g.csize == 1 && c1 != c2 && c2 >= 2
    && a.canRead && a.canWrite && a.chain == [c1, c2] && a.fsize == 1024 && !a.dirty && a.dsect == Sec(a.fs.g, c2)
    && b.canWrite && b.chain == [] && b.fsize == 0 && Holds(a.S(), {c1, c2})
  }

  lemma StartIs(a: Fil, b: Fil, c1: nat, c2: nat)
    requires Start(a, b, c1, c2)
    ensures a != b && a.buf != b.buf && a.fs == b.fs && Steady(a) && Steady(b) && a.fs.g.csize == 1 && c1 != c2
    ensures c2 >= 2
    ensures a.canRead && a.canWrite && a.chain == [c1, c2] && a.fsize == 1024 && !a.dirty && a.dsect == Sec(a.fs.g, c2)
    ensures b.canWrite && b.chain == [] && b.fsize == 0 && Holds(a.S(), {c1, c2})
  {
    hide Steady, Holds, Sec;
  }

  lemma NoChainApart(s: FState, t: FState)
    requires s.chain == [] || t.chain == []
    ensures Disjoint(s, t)
  {
  }

  lemma HoldsOther(s: FState, t: FState, c1: nat, c2: nat)
    requires Holds(s, {c1, c2}) && s.chain == [c1] && t.fat == s.fat && t.chain == [] && c1 != c2 && 2 <= c1 < |s.fat|
    requires s.fat[c1] != 0
    ensures Holds(t, {c2})
  {
    assert forall c :: c in Mine(t.fat, t.chain) ==> c in Mine(s.fat, s.chain) && c != c1;
    assert c2 in Mine(s.fat, s.chain);
  }

  lemma HoldsBack(t: FState, s: FState, c1: nat, c2: nat)
    requires Holds(t, {c2}) && t.chain == [] && s.fat == t.fat && s.chain == [c1] && 2 <= c1 < |s.fat|
    ensures Holds(s, {c1, c2})
  {
    assert c2 in Mine(t.fat, t.chain);
    assert forall c :: c in Mine(s.fat, s.chain) && c != c1 ==> c in Mine(t.fat, t.chain);
  }

  /** `b` takes the cluster that `a` gave up, and gives it up again. */
  method Borrow(a: Fil, b: Fil, d: seq<byte>, ghost c1: nat, ghost c2: nat) returns (ok: bool)
    requires a != b && a.buf != b.buf && a.fs == b.fs && Steady(a) && Steady(b) && a.fs.g.csize == 1 && c1 != c2
    requires a.chain == [c1] && Holds(a.S(), {c1, c2}) && b.canWrite && b.chain == [] && b.fsize == 0 && |d| == 512
    modifies b, b.buf, b.fs, b.fs.win
    ensures b.fs.faults >= old(b.fs.faults) && (!ok ==> b.fs.faults > old(b.fs.faults))
    ensures ok ==>
              && Steady(a) && Holds(a.S(), {c1, c2}) && c2 >= 2 && Sec(a.fs.g, c2) < |a.fs.media|
              && a.fs.media[Sec(a.fs.g, c2)] == d
    ensures a.buf[..] == old(a.buf[..])
  {
    hide *;
    SteadyIs(a);
    SteadyIs(b);
    a.SIs();
    b.SIs();
    a.OKIs();
    a.fs.NowIs();
    ghost var g, s, t, n := a.fs.g, a.S(), b.S(), a.fs.Now();
    HeadUsed(g, s, c1);
    HoldsOther(s, t, c1, c2);
    ok := Pass(b, d, c2);
    if ok {
      SteadyIs(b);
      a.SIs();
      b.SIs();
      b.OKIs();
      a.fs.NowIs();
      a.ReadyIntro();
      NoChainApart(t, s);
      OtherSurvives(a, g, t, n, b.S(), a.fs.Now(), s);
      SameFat(g, t, n, b.S(), a.fs.Now());
      HoldsBack(b.S(), a.S(), c1, c2);
    }
  }

  lemma SameFat(g: Geometry, s: FState, a: Snapshot, s': FState, b: Snapshot)
    requires Local(g, s, a, s', b, {})
    ensures |s'.fat| == |s.fat|
  {
    hide Mine;
  }

  lemma HeadUsed(g: Geometry, s: FState, c: nat)
    requires Core(g, s) && s.chain == [c]
    ensures 2 <= c < |s.fat| && s.fat[c] != 0
  {
    ChainOf(g, s);
    ChainUsed(s.fat, s.chain);
    assert c in s.chain;
  }

  /** The run: `a` gives up its second cluster, `b` takes, writes and gives up that cluster, `a` grows back
      onto it by a seek, and a byte of the gap is read twice. The first read returns what `a` had there
      before, the second what `b` wrote. */
  method StaleRead(a: Fil, b: Fil, d: seq<byte>, ghost c1: nat, ghost c2: nat)
    returns (ok: bool, first: byte, second: byte)
    requires Start(a, b, c1, c2) && |d| == 512 && d[8] != a.buf[..][8]
    modifies a, a.buf, b, b.buf, a.fs, a.fs.win
    ensures !ok ==> a.fs.faults > old(a.fs.faults)
    ensures ok ==> first == old(a.buf[..])[8] && second == d[8] && first != second
  {
    hide *;
    first, second := 0, 0;
    StartIs(a, b, c1, c2);
    SteadyIs(a);
    SteadyIs(b);
    a.SIs();
    b.SIs();
    a.OKIs();
    b.OKIs();
    a.fs.NowIs();
    ghost var g, s0, t0, n0 := a.fs.g, a.S(), b.S(), a.fs.Now();
    ok := GiveUp(a, c1, c2);
    if ok {
      SteadyIs(a);
      a.SIs();
      b.SIs();
      a.OKIs();
      a.fs.NowIs();
      b.ReadyIntro();
      ghost var s1, t1, n1 := a.S(), b.S(), a.fs.Now();
      NoChainApart(s0, t0);
      OtherSurvives(b, g, s0, n0, s1, n1, t0);
      ok := Borrow(a, b, d, c1, c2);
      if ok {
        a.SIs();
        ok := GrowBack(a, c1, c2);
        if ok { ok, first, second := ReadTwice(a, 520, 0); }
      }
    }
  }

}
