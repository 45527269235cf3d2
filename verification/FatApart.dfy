/** What a call on one open file leaves alone: the clusters and sectors of all other files and
    directories. */
module FatApart {
  import opened Bytes
  import opened FatEntry
  import opened FatVolume
  import opened FatHeap
  import opened FatChain
  import opened FatData
  import opened FatFileState

  /** The clusters a file may change: those of its chain and the free ones. */
  ghost function Mine(f: seq<nat>, ch: seq<nat>): (m: set<nat>) {
    set c | 2 <= c < |f| && (c in ch || f[c] == 0)
  }

  /** Sector `x` belongs to none of the clusters. */
  ghost predicate Outside(g: Geometry, m: set<nat>, x: nat) {
    forall c :: c in m && c >= 2 ==> !InCluster(g, c, x)
  }

  /** A step that changes entries and sectors of the clusters `m` only, besides the FAT, FSINFO and
      the sectors `d`; on the drive the sector that was in the window may change too. Only sectors of
      `m` are written without the window. */
  ghost predicate Within(g: Geometry, m: set<nat>, d: set<nat>, f: seq<nat>, a: Snapshot, f': seq<nat>, b: Snapshot) {
    && |f'| == |f| && |b.view| == |a.view| && |b.media| == |a.media|
    && (forall c :: 2 <= c < |f| && c !in m ==> f'[c] == f[c])
    && (forall x: nat ::
          x < |a.view| && !g.InFat1(x) && !g.InFat2(x) && !g.IsFsInfo(x) && Outside(g, m, x) && x !in d ==>
            b.view[x] == a.view[x])
    && (forall x: nat :: g.database <= x < |a.media| && x != a.winsect && Outside(g, m, x) && x !in d ==>
          b.media[x] == a.media[x])
    && (b.winsect == a.winsect || g.InFat1(b.winsect) || b.winsect == ALL_ONES || b.winsect in d
        || g.IsFsInfo(b.winsect))
    && (forall x :: x in b.direct ==> x in a.direct || !Outside(g, m, x))
  }

  lemma WithinTrans(g: Geometry, m: set<nat>, d: set<nat>, f: seq<nat>, a: Snapshot, f1: seq<nat>, a1: Snapshot,
                    f2: seq<nat>, b: Snapshot)
    requires g.Valid() && |a.media| == g.nsect
    requires Within(g, m, d, f, a, f1, a1) && Within(g, m, d, f1, a1, f2, b)
    ensures Within(g, m, d, f, a, f2, b)
  {
  }

  lemma WithinMore(g: Geometry, m: set<nat>, m': set<nat>, d: set<nat>, d': set<nat>, f: seq<nat>, a: Snapshot,
                   f': seq<nat>, b: Snapshot)
    requires m <= m' && d <= d' && Within(g, m, d, f, a, f', b)
    ensures Within(g, m', d', f, a, f', b)
  {
    assert forall x: nat :: Outside(g, m', x) ==> Outside(g, m, x);
  }

  /** Sector `x` is one of the chain's. */
  ghost predicate InChain(g: Geometry, ch: seq<nat>, x: nat) {
    exists c :: c in ch && c >= 2 && InCluster(g, c, x)
  }

  lemma InChainOf(g: Geometry, ch: seq<nat>, q: nat)
    requires DataFits(g) && Clusters(g, ch) && q < |Secs(g, ch)|
    ensures InChain(g, ch, Secs(g, ch)[q])
  {
    SecsInCluster(g, ch, q);
  }

  /** A dirty buffer belongs to the file. */
  ghost predicate Tidy(g: Geometry, s: FState) {
    s.dirty ==> InChain(g, s.chain, s.dsect)
  }

  /** The buffer is unused or on a sector of the file. */
  ghost predicate AtHome(g: Geometry, s: FState) {
    s.dsect != 0 ==> InChain(g, s.chain, s.dsect)
  }

  /** The buffer is dirty or holds what the drive holds. */
  ghost predicate Full(s: FState) {
    s.dirty || (s.dsect < |s.media| && s.media[s.dsect] == s.buf)
  }

  /** The buffer is unused, or on a sector of the file and up to date: no call on any file can make it
      differ from the drive. */
  ghost predicate Good(g: Geometry, s: FState) {
    s.dsect != 0 ==> InChain(g, s.chain, s.dsect) && Full(s)
  }

  /** The step stays within the file's clusters and the free ones, and loses none of them; the buffer
      may be left on a sector that is no longer the file's. */
  ghost predicate StaysCut(g: Geometry, s: FState, a: Snapshot, s': FState, b: Snapshot, ok: bool) {
    Tidy(g, s) ==>
      && Within(g, Mine(s.fat, s.chain), {}, s.fat, a, s'.fat, b)
      && (ok ==> Tidy(g, s') && Mine(s'.fat, s'.chain) == Mine(s.fat, s.chain))
  }

  /** A buffer that matches the drive still does, and a good one stays good. */
  ghost predicate BufferKept(g: Geometry, s: FState, s': FState) {
    && s.chain <= s'.chain
    && (forall e: nat :: e <= 512 * Times(|s.chain|, g.csize) && Matched(g, s, e) ==> Matched(g, s', e))
    && (Tidy(g, s) && Good(g, s) ==> Good(g, s'))
  }

  /** The buffer is left alone, or goes to another sector of the file and holds what the drive holds. */
  ghost predicate Reloaded(g: Geometry, s: FState, s': FState) {
    if s'.dsect == s.dsect then s'.buf == s.buf && s'.dirty == s.dirty else Good(g, s')
  }

  lemma ReloadedSame(g: Geometry, s: FState, s': FState)
    requires s'.dsect == s.dsect && s'.buf == s.buf && s'.dirty == s.dirty
    ensures Reloaded(g, s, s')
  {
  }

  lemma ReloadedIntro(g: Geometry, s: FState, s': FState)
    requires s'.dsect != s.dsect && InChain(g, s'.chain, s'.dsect) && Full(s')
    ensures Reloaded(g, s, s')
  {
  }

  /** The buffer is left alone before it moves. */
  lemma ReloadedAfter(g: Geometry, s: FState, s1: FState, s2: FState)
    requires g.Valid() && |s.media| == g.nsect && MediaStep(g, s, s1)
    requires s1.dsect == s.dsect && s1.buf == s.buf && s1.dirty == s.dirty && Reloaded(g, s1, s2) && DiskKept(g, s1, s2)
    ensures Reloaded(g, s, s2) && DiskKept(g, s, s2)
  {
    DiskOfMedia(g, s, s1);
    DiskTrans(g, s, s1, s2);
    hide DiskKept, MediaStep, Good;
  }

  lemma ReloadedIs(g: Geometry, s: FState, s': FState)
    requires Reloaded(g, s, s')
    ensures if s'.dsect == s.dsect then s'.buf == s.buf && s'.dirty == s.dirty else Good(g, s')
  {
  }

  lemma GoodSame(g: Geometry, s: FState, s': FState)
    requires Good(g, s) && s'.dsect == s.dsect && s'.buf == s.buf && s'.dirty == s.dirty && s'.media == s.media
    requires s'.chain == s.chain
    ensures Good(g, s')
  {
  }

  /** The buffer was already where the read needs it, or it was loaded. */
  lemma ReadFrom(g: Geometry, s0: FState, s1: FState, s2: FState, n: nat)
    requires s1.dsect == s0.dsect && s1.buf == s0.buf && s1.dirty == s0.dirty && Reloaded(g, s1, s2)
    requires s2.fptr == s0.fptr && s2.chain == s0.chain && Clusters(g, s2.chain)
    requires s2.fptr / 512 < |Secs(g, s2.chain)| && s2.dsect == Secs(g, s2.chain)[s2.fptr / 512]
    ensures Buffered(g, s0, n) ==> s2.dsect == s0.dsect && s2.buf == s0.buf && s2.dirty == s0.dirty
    ensures s2.dsect != s0.dsect ==> Good(g, s2)
  {
    hide Good;
  }

  /** Both, for a call that does not cut the file. */
  ghost predicate Stays(g: Geometry, s: FState, a: Snapshot, s': FState, b: Snapshot, ok: bool) {
    StaysCut(g, s, a, s', b, ok) && (ok ==> BufferKept(g, s, s'))
  }

  lemma KeptTrans(g: Geometry, s: FState, s1: FState, s2: FState)
    requires BufferKept(g, s, s1) && BufferKept(g, s1, s2) && (Tidy(g, s) ==> Tidy(g, s1))
    ensures BufferKept(g, s, s2)
  {
    hide Matched, Good, Tidy;
    TimesLe(|s.chain|, |s1.chain|, g.csize);
  }

  /** Only fields that the buffer does not depend on change. */
  lemma KeptSame(g: Geometry, s: FState, s': FState)
    requires s'.chain == s.chain && s'.dsect == s.dsect && s'.dirty == s.dirty && s'.buf == s.buf && s'.media == s.media
    ensures BufferKept(g, s, s')
  {
  }

  /** The buffer is on a sector of the file, and dirty or up to date. */
  lemma KeptFull(g: Geometry, s: FState, s': FState)
    requires s.chain <= s'.chain && Full(s')
    requires (InChain(g, s'.chain, s'.dsect) || (s.dirty && s'.chain == s.chain && s'.dsect == s.dsect))
    ensures BufferKept(g, s, s')
  {
    forall e: nat | e <= 512 * Times(|s.chain|, g.csize) ensures Matched(g, s', e) { MatchedDirty(g, s', e); }
  }

  /** The buffer stays as it is, and so do the sectors of the file; the chain may have grown. */
  lemma KeptMedia(g: Geometry, s: FState, s': FState)
    requires DataFits(g) && Clusters(g, s.chain) && Clusters(g, s'.chain) && s.chain <= s'.chain
    requires |s'.media| == |s.media|
    requires s'.dsect == s.dsect && s'.dirty == s.dirty && s'.buf == s.buf
    requires s.dsect < |s.media| && InChain(g, s.chain, s.dsect) && !s.dirty ==> s'.media[s.dsect] == s.media[s.dsect]
    ensures BufferKept(g, s, s')
  {
    var secs, secs' := Secs(g, s.chain), Secs(g, s'.chain);
    SecsPrefix(g, s'.chain, |s.chain|);
    assert s'.chain[..|s.chain|] == s.chain;
    hide InCluster, Secs;
    forall e: nat | e <= 512 * Times(|s.chain|, g.csize) && Matched(g, s, e) ensures Matched(g, s', e) {
      forall q, k | 0 <= q < |secs'| && secs'[q] == s.dsect && 0 <= k < 512 && 512 * q + k < e && !s.dirty
          && |s.buf| == 512 && s.dsect < |s.media|
        ensures s'.buf[k] == s'.media[s.dsect][k]
      {
        assert q < |secs| && secs'[..|secs|][q] == secs[q];
        InChainOf(g, s.chain, q);
      }
    }
    assert forall c :: c in s.chain ==> c in s'.chain;
  }

  lemma KeptMatched(g: Geometry, s: FState, s': FState, e: nat)
    requires BufferKept(g, s, s') && Core(g, s) && e <= |Stored(g, s)| && Matched(g, s, e)
    ensures Matched(g, s', e)
  {
    hide Matched, HeapOK, IsChain, Unlinked;
  }

  lemma StaysMatched(g: Geometry, s: FState, a: Snapshot, s': FState, b: Snapshot, e: nat)
    requires Stays(g, s, a, s', b, true) && Core(g, s) && e <= |Stored(g, s)|
    ensures Matched(g, s, e) ==> Matched(g, s', e)
  {
    hide StaysCut, BufferKept, Core, Matched;
    if Matched(g, s, e) { KeptMatched(g, s, s', e); }
  }

  lemma GoodStays(g: Geometry, s: FState, a: Snapshot, s': FState, b: Snapshot)
    requires Stays(g, s, a, s', b, true) && Core(g, s) && Good(g, s)
    ensures Good(g, s')
  {
    hide StaysCut, Matched, HeapOK, IsChain, Unlinked, Clusters, WindowApart, Full;
    if s.dirty { DirtyBuffer(g, s); assert g.database > 0; }
  }

  lemma KeptFat(g: Geometry, s: FState, s': FState)
    requires Core(g, s) && MediaStep(g, s, s') && Clusters(g, s'.chain) && s.chain <= s'.chain
    requires s'.dsect == s.dsect && s'.dirty == s.dirty && s'.buf == s.buf
    ensures BufferKept(g, s, s')
  {
    hide HeapOK, IsChain, Unlinked, Secs, Matched;
    if s.dsect < |s.media| && InChain(g, s.chain, s.dsect) { InChainApart(g, s, s.dsect); }
    KeptMedia(g, s, s');
  }

  /** Sectors of the file are data sectors, and not the one in the window. */
  lemma InChainApart(g: Geometry, s: FState, x: nat)
    requires Core(g, s) && InChain(g, s.chain, x)
    ensures g.database <= x < g.nsect == |s.media| && x != s.winsect
  {
    hide HeapOK, IsChain, Unlinked, Secs;
    var c :| c in s.chain && c >= 2 && InCluster(g, c, x);
    ClusterFits(g, c);
  }

  lemma StaysTrans(g: Geometry, s: FState, a: Snapshot, s1: FState, a1: Snapshot, s2: FState, b: Snapshot, ok: bool)
    requires g.Valid() && |a.media| == g.nsect
    requires Stays(g, s, a, s1, a1, true) && Stays(g, s1, a1, s2, b, ok)
    ensures Stays(g, s, a, s2, b, ok)
  {
    hide Within, Mine, Tidy, BufferKept;
    if Tidy(g, s) {
      WithinMore(g, Mine(s1.fat, s1.chain), Mine(s.fat, s.chain), {}, {}, s1.fat, a1, s2.fat, b);
      WithinTrans(g, Mine(s.fat, s.chain), {}, s.fat, a, s1.fat, a1, s2.fat, b);
    }
    if ok { KeptTrans(g, s, s1, s2); }
  }

  /** Nothing but fields of the file changes. */
  lemma StaysSame(g: Geometry, s: FState, s': FState, a: Snapshot, ok: bool)
    requires s'.fat == s.fat && s'.chain == s.chain
    requires ok ==> (s'.dsect == s.dsect && s'.dirty == s.dirty && s'.buf == s.buf && s'.media == s.media)
                    || (InChain(g, s.chain, s'.dsect) && Full(s'))
    ensures Stays(g, s, a, s', a, ok)
  {
    hide BufferKept;
    if ok {
      if InChain(g, s.chain, s'.dsect) && Full(s') { KeptFull(g, s, s'); } else { KeptSame(g, s, s'); }
    }
  }

  lemma StaysIsCut(g: Geometry, s: FState, a: Snapshot, s': FState, b: Snapshot, ok: bool)
    requires Stays(g, s, a, s', b, ok)
    ensures StaysCut(g, s, a, s', b, ok)
  {
  }

  /** An access that reads FAT entries. */
  lemma FatStays(g: Geometry, s: FState, s': FState, a: Snapshot, b: Snapshot, ok: bool)
    requires FatStep(g, a, b) && s'.fat == s.fat && s'.chain == s.chain && Core(g, s) && |a.view| == |a.media|
    requires a.media == s.media && a.winsect == s.winsect && b.media == s'.media && b.winsect == s'.winsect
    requires s'.dirty == s.dirty && s'.dsect == s.dsect && s'.buf == s.buf
    ensures Stays(g, s, a, s', b, ok)
  {
    CoreIs(g, s);
    hide BufferKept, Core;
    MediaOfFat(g, a, b, s, s');
    KeptFat(g, s, s');
  }

  /** An allocation. */
  lemma GrowStays(g: Geometry, s: FState, s': FState, a: Snapshot, b: Snapshot, arg: nat, ok: bool)
    requires FatStep(g, a, b) && Touched(s.fat, s'.fat, arg) && (arg == 0 || arg in s.chain)
    requires s'.dirty == s.dirty && s'.dsect == s.dsect && (ok ==> BufferKept(g, s, s'))
    requires ok ==>
              s.chain <= s'.chain && forall c :: c in s'.chain ==> c in s.chain || (2 <= c < |s.fat| && s.fat[c] == 0)
    requires ok ==> forall c :: 2 <= c < |s.fat| && s.fat[c] == 0 && c !in s'.chain ==> s'.fat[c] == 0
    ensures Stays(g, s, a, s', b, ok)
  {
    hide BufferKept;
    if ok {
      assert forall c :: c in s.chain ==> c in s'.chain;
    }
  }

  lemma InChainMine(g: Geometry, f: seq<nat>, ch: seq<nat>, x: nat)
    requires InChain(g, ch, x) && (forall i :: 0 <= i < |ch| ==> ch[i] < |f|)
    ensures !Outside(g, Mine(f, ch), x)
  {
    var c :| c in ch && c >= 2 && InCluster(g, c, x);
    assert c in Mine(f, ch);
  }

  /** Sectors of the file written without the window. */
  lemma DataStays(g: Geometry, s: FState, s': FState, a: Snapshot, b: Snapshot, sect: nat, cc: nat, ok: bool)
    requires DataStep(sect, cc, a, b) && s'.fat == s.fat && s'.chain == s.chain && |a.view| == |a.media|
    requires forall i :: 0 <= i < |s.chain| ==> s.chain[i] < |s.fat|
    requires forall x: nat :: sect <= x < sect + cc ==> InChain(g, s.chain, x)
    requires s'.dsect == s.dsect && (s'.dirty ==> s.dirty || InChain(g, s.chain, s'.dsect))
    requires ok ==> BufferKept(g, s, s')
    ensures Stays(g, s, a, s', b, ok)
  {
    hide InChain, Mine, Outside, BufferKept;
    forall x: nat | sect <= x < sect + cc ensures !Outside(g, Mine(s.fat, s.chain), x) {
      InChainMine(g, s.fat, s.chain, x);
    }
  }

  lemma ChainRange(g: Geometry, s: FState)
    requires Core(g, s)
    ensures g.Valid() && |s.media| == g.nsect && forall i :: 0 <= i < |s.chain| ==> s.chain[i] < |s.fat|
  {
  }

  /** The dirty buffer written back. */
  lemma FlushStays(g: Geometry, s: FState, s': FState, a: Snapshot, b: Snapshot, ok: bool)
    requires Core(g, s) && s.dirty && DataStep(s.dsect, 1, a, b) && |a.view| == |a.media|
    requires s'.fat == s.fat && s'.chain == s.chain && s'.dsect == s.dsect && (ok ==> Full(s'))
    ensures Stays(g, s, a, s', b, ok)
  {
    hide *;
    ChainRange(g, s);
    if ok { KeptFull(g, s, s'); }
    if Tidy(g, s) {
      TidyIs(g, s);
      DataStays(g, s, s', a, b, s.dsect, 1, ok);
    } else {
      StaysAnyhow(g, s, s', a, b, ok);
    }
  }

  lemma SectorInChain(g: Geometry, s: FState, q: nat)
    requires Core(g, s) && Clusters(g, s.chain) && q < |Secs(g, s.chain)|
    ensures InChain(g, s.chain, Secs(g, s.chain)[q])
  {
    InChainOf(g, s.chain, q);
  }

  lemma TidyIs(g: Geometry, s: FState)
    requires Tidy(g, s) && s.dirty
    ensures InChain(g, s.chain, s.dsect)
  {
  }

  lemma StaysAnyhow(g: Geometry, s: FState, s': FState, a: Snapshot, b: Snapshot, ok: bool)
    requires !Tidy(g, s) && (ok ==> BufferKept(g, s, s'))
    ensures Stays(g, s, a, s', b, ok)
  {
  }

  lemma ClustInChain(g: Geometry, s: FState)
    requires FileOK(g, s) && s.fptr > 0
    ensures s.clust in s.chain
  {
  }

  lemma StretchedAt(f: seq<nat>, clst: nat, ncl: nat, mark: nat)
    requires ncl < |f| && clst < |f|
    ensures forall c :: 0 <= c < |f| && c != clst && c != ncl ==> Stretched(f, clst, ncl, mark)[c] == f[c]
  {
  }

  /** What `create_chain` does for a file at a cluster boundary. */
  lemma NextOrNewStays(g: Geometry, s: FState, s': FState, q: nat, arg: nat, clst: nat, scl: nat, mark: nat,
                       a: Snapshot, b: Snapshot)
    requires FileOK(g, s) && g.csize >= 1 && Clusters(g, s.chain) && s.fptr == 512 * q && q % g.csize == 0
    requires if q == 0 then arg == 0 && s.sclust == 0 else arg == s.clust
    requires FatStep(g, a, b) && Touched(s.fat, s'.fat, arg)
    requires clst != ALL_ONES ==> Created(s.fat, s'.fat, arg, scl, mark, clst)
    requires s'.dirty == s.dirty && s'.dsect == s.dsect && (clst != ALL_ONES ==> BufferKept(g, s, s'))
    requires clst != ALL_ONES ==> s'.chain == if q >= |Secs(g, s.chain)| && clst != 0 then s.chain + [clst] else s.chain
    ensures Stays(g, s, a, s', b, clst != ALL_ONES)
  {
    hide *;
    FileOKIs(g, s);
    HeapOf(g, s);
    if q > 0 { ClustInChain(g, s); }
    if clst != ALL_ONES {
      if q >= |Secs(g, s.chain)| {
        AtEnd(g, s, q);
        CreatedFresh(s.fat, s'.fat, arg, scl, mark, clst);
        if clst != 0 { StretchedAt(s.fat, arg, clst, mark); }
      } else if q > 0 {
        CoreIs(g, s);
        NextCluster(g, s, q);
        CreatedFollow(s.fat, s'.fat, arg, scl, mark, clst);
      } else {
        NotEmpty(g, s);
      }
    }
    GrowStays(g, s, s', a, b, arg, clst != ALL_ONES);
  }

  /** The same, with what it means for the file itself. */
  lemma FileGrows(g: Geometry, s: FState, s': FState, q: nat, arg: nat, clst: nat, scl: nat, mark: nat, a: Snapshot,
                  b: Snapshot)
    requires FileOK(g, s) && g.csize >= 1 && Clusters(g, s.chain) && s.fptr == 512 * q && q % g.csize == 0
    requires if q == 0 then arg == 0 && s.sclust == 0 else arg == s.clust
    requires FatStep(g, a, b) && Touched(s.fat, s'.fat, arg) && mark >= |s.fat| && |a.view| == |a.media|
    requires a.media == s.media && a.winsect == s.winsect && b.media == s'.media && b.winsect == s'.winsect
    requires clst != ALL_ONES ==> Created(s.fat, s'.fat, arg, scl, mark, clst)
    requires s' == s.(fat := s'.fat, media := s'.media, winsect := s'.winsect,
                      chain := if q >= |Secs(g, s.chain)| && clst != 0 && clst != ALL_ONES then s.chain + [clst]
                          else s.chain,
                      sclust := if s.sclust == 0 && clst != 0 && clst != ALL_ONES then clst else s.sclust)
    ensures Stays(g, s, a, s', b, clst != ALL_ONES)
    ensures clst == 0 ==>
              FileOK(g, s') && Core(g, s) && Core(g, s') && Stored(g, s') == Stored(g, s) && NoneFree(s'.fat)
    ensures clst == 0 ==> s'.chain == s.chain && q == |Secs(g, s.chain)|
    ensures clst != ALL_ONES && clst != 0 ==>
              Core(g, s) && Core(g, s') && Clusters(g, s'.chain) && 2 <= clst && Grown(Stored(g, s), Stored(g, s'))
    ensures clst != ALL_ONES && clst != 0 ==>
              q < |Secs(g, s'.chain)| && Home(g, q) < |s'.chain| && s'.chain[Home(g, q)] == clst
    ensures MediaStep(g, s, s')
  {
    assert ALL_ONES != 0;
    hide *;
    FileOKIs(g, s);
    CoreIs(g, s);
    MediaOfFat(g, a, b, s, s');
    if clst != ALL_ONES {
      NextOrNew(g, s, s', q, arg, clst, scl, mark);
      if clst == 0 { CoreIs(g, s'); }
      KeptFat(g, s, s');
    }
    NextOrNewStays(g, s, s', q, arg, clst, scl, mark, a, b);
  }

  /** After the step another field of the file changes. */
  lemma StaysAlso(g: Geometry, s: FState, a: Snapshot, s1: FState, s2: FState, b: Snapshot, ok: bool)
    requires Stays(g, s, a, s1, b, ok)
    requires s2 == s1.(clust := s2.clust, fptr := s2.fptr, fsize := s2.fsize)
    ensures Stays(g, s, a, s2, b, ok)
  {
    hide BufferKept;
    if ok {
      KeptSame(g, s1, s2);
      KeptTrans(g, s, s1, s2);
    }
  }

  /** A run of sectors from sector `q` of the file on is written without the window. */
  lemma RunStays(g: Geometry, s: FState, s': FState, a: Snapshot, b: Snapshot, q: nat, cc: nat, ok: bool)
    requires AtSector(g, s, q) && !s.dirty && g.csize >= 1 && cc <= g.csize - q % g.csize && Clusters(g, s.chain)
    requires q < |Secs(g, s.chain)|
    requires DataStep(Secs(g, s.chain)[q], cc, a, b) && |a.view| == |a.media|
    requires s'.fat == s.fat && s'.chain == s.chain && s'.dirty == s.dirty && s'.dsect == s.dsect
    requires s.media == a.media && s'.media == b.media && |s.buf| == 512 && 0 < cc
    requires ok ==> exists data :: |data| == 512 * cc && Sent(s.media, s'.media, Secs(g, s.chain)[q], cc, data)
                                && s'.buf == Refilled(s.buf, s.dsect, Secs(g, s.chain)[q], cc, data)
    ensures Stays(g, s, a, s', b, ok)
  {
    hide *;
    AtSectorIs(g, s, q);
    ChainRange(g, s);
    RunInChain(g, s, q, cc);
    if ok { KeptRun(g, s, s', q, cc); }
    DataStays(g, s, s', a, b, Secs(g, s.chain)[q], cc, ok);
  }

  /** A buffer on one of the sectors written is refilled; another one is left alone. */
  lemma KeptRun(g: Geometry, s: FState, s': FState, q: nat, cc: nat)
    requires AtSector(g, s, q) && Clusters(g, s.chain) && q < |Secs(g, s.chain)| && g.csize >= 1
    requires 0 < cc <= g.csize - q % g.csize
    requires s'.chain == s.chain && s'.dirty == s.dirty && s'.dsect == s.dsect && |s.buf| == 512
    requires exists data :: |data| == 512 * cc && Sent(s.media, s'.media, Secs(g, s.chain)[q], cc, data)
                         && s'.buf == Refilled(s.buf, s.dsect, Secs(g, s.chain)[q], cc, data)
    ensures BufferKept(g, s, s')
  {
    hide *;
    AtSectorIs(g, s, q);
    CoreIs(g, s);
    RunInChain(g, s, q, cc);
    var sect := Secs(g, s.chain)[q];
    var data :| && |data| == 512 * cc && Sent(s.media, s'.media, sect, cc, data)
                && s'.buf == Refilled(s.buf, s.dsect, sect, cc, data);
    RefilledIs(s.media, s'.media, s.buf, s.dsect, sect, cc, data);
    if sect <= s.dsect < sect + cc {
      FullIs(s');
      KeptFull(g, s, s');
    } else {
      KeptMedia(g, s, s');
    }
  }

  lemma FullIs(s: FState)
    requires s.dsect < |s.media| && s.media[s.dsect] == s.buf
    ensures Full(s)
  {
  }

  lemma RefilledIs(m: seq<Sector>, m': seq<Sector>, buf: seq<byte>, dsect: nat, sect: nat, cc: nat, data: seq<byte>)
    requires |data| == 512 * cc && |buf| == 512 && Sent(m, m', sect, cc, data) && dsect <= ALL_ONES && |m| <= ALL_ONES
    ensures |m'| == |m|
    ensures if sect <= dsect < sect + cc then dsect < |m'| && m'[dsect] == Refilled(buf, dsect, sect, cc, data)
            else Refilled(buf, dsect, sect, cc, data) == buf && (dsect < |m| ==> m'[dsect] == m[dsect])
  {
    WrappedRange(dsect, sect, cc);
    if sect <= dsect < sect + cc { assert m'[sect + (dsect - sect)] == m'[dsect]; }
  }

  lemma RunInChain(g: Geometry, s: FState, q: nat, cc: nat)
    requires AtSector(g, s, q) && g.csize >= 1 && cc <= g.csize - q % g.csize && Clusters(g, s.chain)
    requires q < |Secs(g, s.chain)|
    ensures forall x: nat :: Secs(g, s.chain)[q] <= x < Secs(g, s.chain)[q] + cc ==> InChain(g, s.chain, x)
  {
    SecsSplit(g, s.chain, q);
    var c := s.chain[Home(g, q)];
    hide *;
    forall x: nat | Secs(g, s.chain)[q] <= x < Secs(g, s.chain)[q] + cc ensures InChain(g, s.chain, x) {
      InClusterIs(g, c, x - Sec(g, c));
      InChainIntro(g, s.chain, c, x);
    }
  }

  lemma InChainIntro(g: Geometry, ch: seq<nat>, c: nat, x: nat)
    requires c in ch && c >= 2 && InCluster(g, c, x)
    ensures InChain(g, ch, x)
  {
  }

  /** Bytes go into the buffer of sector `q` of the file. */
  lemma BufferStays(g: Geometry, s: FState, s': FState, a: Snapshot, q: nat)
    requires Core(g, s) && Clusters(g, s.chain) && q < |Secs(g, s.chain)| && s'.dsect == Secs(g, s.chain)[q]
    requires s'.fat == s.fat && s'.chain == s.chain && s'.dirty
    ensures Stays(g, s, a, s', a, true)
  {
    InChainOf(g, s.chain, q);
    assert Full(s');
    hide *;
    StaysSame(g, s, s', a, true);
  }

  // ---------- Truncating ----------

  /** Only entries of the chain have changed. */
  ghost predicate OnlyChain(f: seq<nat>, f': seq<nat>, ch: seq<nat>) {
    |f'| == |f| && forall c :: 2 <= c < |f| && c !in ch ==> f'[c] == f[c]
  }

  lemma OnlyChainSame(f: seq<nat>, ch: seq<nat>)
    ensures OnlyChain(f, f, ch)
  {
  }

  lemma OnlyChainAt(f: seq<nat>, f': seq<nat>, ch: seq<nat>, c: nat)
    requires OnlyAt(f, f', c) && c in ch
    ensures OnlyChain(f, f', ch)
  {
  }

  /** Ending the chain after its first `k` clusters and walking on from there touches only the chain,
      even when the walk is broken off. */
  lemma WalkOnly(g: Geometry, s: FState, k: nat, mark: nat, f': seq<nat>)
    requires Core(g, s) && s.sclust != 0 && k < |s.chain| && mark >= |s.fat|
    requires forall i :: 0 <= i < |s.chain| ==> s.chain[i] < |s.fat|
    requires OnWalk(Ended(s.fat, s.chain, k, mark), s.chain[k], f')
    ensures OnlyChain(s.fat, f', s.chain)
  {
    ChainOf(g, s);
    Cut(s.fat, s.chain, k, mark);
    EndedIs(s.fat, s.chain, k, mark);
    hide Core, HeapOK, IsChain, Unlinked, Walk, Ended;
    var f1 := Ended(s.fat, s.chain, k, mark);
    forall c | 2 <= c < |s.fat| && c !in s.chain ensures f'[c] == s.fat[c] {
      assert c !in s.chain[k..];
      assert f'[c] == f1[c];
    }
  }

  /** The step stays within the file's clusters and the free ones; the buffer may be left on a
      sector that is no longer the file's. */
  ghost predicate Trims(g: Geometry, s: FState, a: Snapshot, s': FState, b: Snapshot, ok: bool) {
    && Within(g, Mine(s.fat, s.chain), {}, s.fat, a, s'.fat, b)
    && (ok ==> Mine(s'.fat, s'.chain) == Mine(s.fat, s.chain))
  }

  lemma TrimIntro(g: Geometry, s: FState, s': FState, k: nat, a: Snapshot, b: Snapshot, ok: bool)
    requires FatStep(g, a, b) && OnlyChain(s.fat, s'.fat, s.chain)
    requires ok ==> TailFreed(s, s'.fat, k) && s'.chain == s.chain[..k]
    ensures Trims(g, s, a, s', b, ok)
  {
    if ok {
      forall c | c in s.chain ensures c in s'.chain || c in s.chain[k..] {
        assert s.chain == s.chain[..k] + s.chain[k..];
      }
    }
  }

  lemma TrimStays(g: Geometry, s: FState, a: Snapshot, s': FState, b: Snapshot, ok: bool)
    requires Trims(g, s, a, s', b, ok) || Trims(g, s, a, s', b, true)
    requires ok ==> !s'.dirty
    ensures StaysCut(g, s, a, s', b, ok)
  {
  }

  /** The dirty buffer is written back after the release, within what was the file's before it. */
  lemma TrimFlushStays(g: Geometry, s: FState, a: Snapshot, s1: FState, a1: Snapshot, s2: FState, b: Snapshot, ok: bool)
    requires g.Valid() && |a.media| == g.nsect && |a1.view| == |a1.media|
    requires forall i :: 0 <= i < |s.chain| ==> s.chain[i] < |s.fat|
    requires Trims(g, s, a, s1, a1, true) && s.dirty && s1.dsect == s.dsect && DataStep(s.dsect, 1, a1, b)
    requires s2.fat == s1.fat && s2.chain == s1.chain && (ok ==> !s2.dirty)
    ensures StaysCut(g, s, a, s2, b, ok)
  {
    hide InChain, Mine, Outside, InCluster;
    if Tidy(g, s) {
      var m := Mine(s.fat, s.chain);
      InChainMine(g, s.fat, s.chain, s.dsect);
      assert Within(g, m, {}, s1.fat, a1, s2.fat, b);
      WithinTrans(g, m, {}, s.fat, a, s1.fat, a1, s2.fat, b);
    }
  }

  // ---------- Synchronising ----------

  /** The step stays within the file's clusters, the free ones and the sectors `d`. */
  ghost predicate StaysBut(g: Geometry, s: FState, a: Snapshot, s': FState, b: Snapshot, d: set<nat>, ok: bool) {
    && (Tidy(g, s) ==>
         && Within(g, Mine(s.fat, s.chain), d, s.fat, a, s'.fat, b)
         && (ok ==> Tidy(g, s') && Mine(s'.fat, s'.chain) == Mine(s.fat, s.chain)))
    && (ok ==> BufferKept(g, s, s'))
  }

  lemma StaysButMore(g: Geometry, s: FState, a: Snapshot, s': FState, b: Snapshot, d: set<nat>, ok: bool)
    requires Stays(g, s, a, s', b, ok)
    ensures StaysBut(g, s, a, s', b, d, ok)
  {
    hide Within, Mine, BufferKept;
    if Tidy(g, s) { WithinMore(g, Mine(s.fat, s.chain), Mine(s.fat, s.chain), {}, d, s.fat, a, s'.fat, b); }
  }

  lemma StaysButTrans(g: Geometry, s: FState, a: Snapshot, s1: FState, a1: Snapshot, s2: FState, b: Snapshot,
                      d: set<nat>, ok: bool)
    requires g.Valid() && |a.media| == g.nsect && (forall x :: x in d ==> !g.IsFsInfo(x))
    requires StaysBut(g, s, a, s1, a1, d, true) && StaysBut(g, s1, a1, s2, b, d, ok)
    ensures StaysBut(g, s, a, s2, b, d, ok)
  {
    hide Within, Mine, Tidy, BufferKept;
    if Tidy(g, s) {
      WithinMore(g, Mine(s1.fat, s1.chain), Mine(s.fat, s.chain), d, d, s1.fat, a1, s2.fat, b);
      WithinTrans(g, Mine(s.fat, s.chain), d, s.fat, a, s1.fat, a1, s2.fat, b);
    }
    if ok { KeptTrans(g, s, s1, s2); }
  }

  /** The window moves to the sector of the directory entry, or changes there, or is written back. */
  lemma EntryStays(g: Geometry, s: FState, s': FState, a: Snapshot, v: seq<Sector>, b: Snapshot, sect: nat, off: nat,
                   e: seq<byte>, ok: bool)
    requires |b.view| == |a.view| && |b.media| == |a.media| && |a.view| == |a.media| && sect < |a.view|
    requires off + |e| <= 512
    requires (v == a.view || v == Apply(a.view, Patch(sect, off, e))) && SameSectors(g, v, b.view)
    requires forall x: nat :: g.database <= x < |a.media| && x != a.winsect && x != sect ==> b.media[x] == a.media[x]
    requires b.winsect == a.winsect || b.winsect == ALL_ONES || b.winsect == sect || g.IsFsInfo(b.winsect)
    requires b.direct == a.direct
    requires s'.fat == s.fat && s'.chain == s.chain && s'.dirty == s.dirty && s'.dsect == s.dsect && s'.buf == s.buf
    requires Core(g, s) && DirEntryApart(g, s, sect) && s.media == a.media && s.winsect == a.winsect
    requires s'.media == b.media
    ensures StaysBut(g, s, a, s', b, {sect}, ok)
  {
    KeptBut(g, s, s', sect);
    hide BufferKept, Core;
  }

  lemma KeptBut(g: Geometry, s: FState, s': FState, sect: nat)
    requires Core(g, s) && DirEntryApart(g, s, sect) && |s'.media| == |s.media| && s'.chain == s.chain
    requires s'.dirty == s.dirty && s'.dsect == s.dsect && s'.buf == s.buf
    requires forall x: nat :: g.database <= x < |s.media| && x != s.winsect && x != sect ==> s'.media[x] == s.media[x]
    ensures BufferKept(g, s, s')
  {
    if s.dsect < |s.media| && InChain(g, s.chain, s.dsect) {
      InChainApart(g, s, s.dsect);
      var c :| c in s.chain && c >= 2 && InCluster(g, c, s.dsect);
      assert s.dsect != sect;
    }
    hide HeapOK, IsChain, Unlinked, Secs, Matched;
    KeptMedia(g, s, s');
  }

  // ---------- Other files ----------

  /** After the step every cluster of `m` is free, ends a chain or links inside `m`. */
  ghost predicate ClosedIn(m: set<nat>, f: seq<nat>) {
    forall c :: c in m && c < |f| ==> f[c] == 0 || f[c] in m || f[c] >= |f|
  }

  lemma OutsideOf(g: Geometry, m: set<nat>, ch: seq<nat>, x: nat)
    requires InChain(g, ch, x) && forall c :: c in ch ==> c !in m
    ensures Outside(g, m, x)
  {
    var c :| c in ch && c >= 2 && InCluster(g, c, x);
    forall d | d in m && d >= 2 ensures !InCluster(g, d, x) { ClustersApart(g, c, d, x); }
  }

  /** A chain that shares no cluster with `m` is still that file's chain. */
  lemma ChainSurvives(g: Geometry, m: set<nat>, t: FState, t': FState)
    requires ChainOK(g, t) && |t'.fat| == |t.fat| && |t'.media| == |t.media| && HeapOK(t'.fat) && ClosedIn(m, t'.fat)
    requires forall c :: 2 <= c < |t.fat| && c !in m ==> t'.fat[c] == t.fat[c]
    requires forall c :: c in t.chain ==> c !in m
    requires t'.chain == t.chain && t'.sclust == t.sclust
    ensures ChainOK(g, t')
  {
    hide HeapOK;
    if t.sclust != 0 {
      assert t.sclust in t.chain;
      forall i | 0 <= i < |t.chain| ensures t'.fat[t.chain[i]] == t.fat[t.chain[i]] { assert t.chain[i] in t.chain; }
    }
  }

  /** The same bytes, and the buffer as good as it was. */
  ghost predicate SameBytes(g: Geometry, t: FState, t': FState) {
    && Core(g, t) && Core(g, t') && File(g, t') == File(g, t) && Tidy(g, t')
    && (forall e: nat :: Matched(g, t', e) <==> Matched(g, t, e)) && (Good(g, t') <==> Good(g, t))
  }

  /** A file whose clusters and whose window the step does not touch. */
  lemma FileSurvives(g: Geometry, m: set<nat>, d: set<nat>, a: Snapshot, b: Snapshot, t: FState, t': FState)
    requires FileOK(g, t) && Tidy(g, t) && t.media == a.media && t.winsect == a.winsect
    requires Within(g, m, d, t.fat, a, t'.fat, b) && HeapOK(t'.fat) && ClosedIn(m, t'.fat)
    requires (forall c :: c in t.chain ==> c !in m) && (forall x :: x in d ==> !InChain(g, t.chain, x))
    requires t' == t.(fat := t'.fat, media := b.media, winsect := b.winsect) && WindowApart(g, t')
    ensures FileOK(g, t') && SameBytes(g, t, t')
  {
    ChainSurvives(g, m, t, t');
    var secs := Secs(g, t.chain);
    hide IsChain, Unlinked, HeapOK, InCluster, Secs;
    forall x: nat | InChain(g, t.chain, x) ensures Outside(g, m, x) { OutsideOf(g, m, t.chain, x); }
    BufferSurvives(g, m, d, a, b, t, t');
    MatchSurvives(g, t, t');
    hide Matched, Good;
    forall q | 0 <= q < |secs| ensures secs[q] < |t.media| && Disk(t')[secs[q]] == Disk(t)[secs[q]] {
      SectorInChain(g, t, q);
      SecsApart(g, t, q);
    }
    SameContent(Disk(t), Disk(t'), secs);
  }

  lemma BufferSurvives(g: Geometry, m: set<nat>, d: set<nat>, a: Snapshot, b: Snapshot, t: FState, t': FState)
    requires Core(g, t) && Tidy(g, t) && WindowApart(g, t') && t.media == a.media && t.winsect == a.winsect
    requires Within(g, m, d, t.fat, a, t'.fat, b)
    requires forall x :: InChain(g, t.chain, x) ==> Outside(g, m, x) && x !in d
    requires t' == t.(fat := t'.fat, media := b.media, winsect := b.winsect)
    ensures BufferOK(g, t') && Tidy(g, t')
    ensures InChain(g, t.chain, t.dsect) ==> t.dsect < |t.media| == |t'.media| && t'.media[t.dsect] == t.media[t.dsect]
  {
    hide HeapOK, IsChain, Unlinked, Secs;
    if InChain(g, t.chain, t.dsect) {
      InChainApart(g, t, t.dsect);
      var c :| c in t.chain && c >= 2 && InCluster(g, c, t.dsect);
      assert c in t'.chain && c < |t'.fat|;
    }
  }

  lemma MatchSurvives(g: Geometry, t: FState, t': FState)
    requires Core(g, t) && |t'.media| == |t.media| && t' == t.(fat := t'.fat, media := t'.media, winsect := t'.winsect)
    requires InChain(g, t.chain, t.dsect) ==> t.dsect < |t.media| && t'.media[t.dsect] == t.media[t.dsect]
    ensures forall e: nat :: Matched(g, t', e) <==> Matched(g, t, e)
    ensures Good(g, t') <==> Good(g, t)
  {
    hide HeapOK, IsChain, Unlinked, InCluster;
    forall e: nat ensures Matched(g, t', e) <==> Matched(g, t, e) {
      if t.dsect < |t.media| && !InChain(g, t.chain, t.dsect) { NotMatchable(g, t, e); NotMatchable(g, t', e); }
    }
  }

  /** A buffer that is on no sector of the file matches anyhow. */
  lemma NotMatchable(g: Geometry, t: FState, e: nat)
    requires DataFits(g) && !InChain(g, t.chain, t.dsect)
    ensures Matched(g, t, e)
  {
    if Clusters(g, t.chain) {
      forall q | 0 <= q < |Secs(g, t.chain)| ensures Secs(g, t.chain)[q] != t.dsect { InChainOf(g, t.chain, q); }
    }
  }

  /** The window after a step of another file. */
  lemma WindowSurvives(g: Geometry, m: set<nat>, d: set<nat>, a: Snapshot, s': FState, b: Snapshot, t: FState,
                       t': FState)
    requires DataFits(g) && |t.fat| == g.nFatent && Within(g, m, d, t.fat, a, t'.fat, b) && t.winsect == a.winsect
    requires WindowApart(g, t) && WindowApart(g, s') && s'.fat == t'.fat && s'.winsect == b.winsect
    requires (forall x :: x in d ==> !InChain(g, t.chain, x))
    requires t' == t.(fat := t'.fat, media := b.media, winsect := b.winsect)
    ensures WindowApart(g, t')
  {
    forall c | 2 <= c < |t'.fat| && (c in t'.chain || t'.fat[c] == 0) ensures !InCluster(g, c, t'.winsect) {
      ClusterFits(g, c);
      if c in t.chain && b.winsect in d && InCluster(g, c, b.winsect) { InChainIntro(g, t.chain, c, b.winsect); }
    }
  }

  lemma MineClosed(g: Geometry, s: FState, m: set<nat>)
    requires Core(g, s) && m == Mine(s.fat, s.chain)
    ensures ClosedIn(m, s.fat)
  {
    forall c | c in m && c < |s.fat| ensures s.fat[c] == 0 || s.fat[c] in m || s.fat[c] >= |s.fat| {
      if c in s.chain {
        var i :| 0 <= i < |s.chain| && s.chain[i] == c;
        if i < |s.chain| - 1 { assert s.chain[i + 1] in s.chain; }
      }
    }
  }

  ghost predicate NoneShared(a: seq<nat>, b: seq<nat>) {
    forall c :: c in b ==> c !in a
  }

  /** No cluster belongs to both files. */
  ghost predicate Disjoint(s: FState, t: FState) {
    NoneShared(s.chain, t.chain)
  }

  lemma NotMine(g: Geometry, s: FState, t: FState)
    requires Core(g, t) && t.fat == s.fat && Disjoint(s, t)
    ensures forall c :: c in t.chain ==> c !in Mine(s.fat, s.chain)
  {
    if t.sclust != 0 { ChainUsed(t.fat, t.chain); }
  }

  lemma DisjointIs(s: FState, t: FState)
    ensures Disjoint(s, t) <==> NoneShared(s.chain, t.chain)
  {
  }

  /** Two open files that start at different clusters are disjoint. */
  lemma DifferentStarts(g: Geometry, s: FState, t: FState)
    requires Core(g, s) && Core(g, t) && s.fat == t.fat && s.sclust != t.sclust
    ensures Disjoint(s, t) && Disjoint(t, s)
  {
    if s.sclust != 0 && t.sclust != 0 { ChainsDisjoint(s.fat, s.chain, t.chain); }
  }

  /** Only clusters of the file and free ones are touched, none of them is lost, and nothing else
      changes but the sectors `d`. */
  ghost predicate Local(g: Geometry, s: FState, a: Snapshot, s': FState, b: Snapshot, d: set<nat>) {
    Within(g, Mine(s.fat, s.chain), d, s.fat, a, s'.fat, b) && Mine(s'.fat, s'.chain) == Mine(s.fat, s.chain)
  }

  lemma StaysLocal(g: Geometry, s: FState, a: Snapshot, s': FState, b: Snapshot, d: set<nat>)
    requires Tidy(g, s) && StaysCut(g, s, a, s', b, true)
    ensures Local(g, s, a, s', b, d) && Tidy(g, s')
  {
    hide Within, Mine, Tidy;
    WithinMore(g, Mine(s.fat, s.chain), Mine(s.fat, s.chain), {}, d, s.fat, a, s'.fat, b);
  }

  lemma StaysKept(g: Geometry, s: FState, a: Snapshot, s': FState, b: Snapshot, d: set<nat>)
    requires Tidy(g, s) && Stays(g, s, a, s', b, true)
    ensures Local(g, s, a, s', b, d) && Tidy(g, s') && BufferKept(g, s, s')
  {
    hide StaysCut, BufferKept;
    StaysLocal(g, s, a, s', b, d);
  }

  lemma StaysButKept(g: Geometry, s: FState, a: Snapshot, s': FState, b: Snapshot, d: set<nat>)
    requires Tidy(g, s) && StaysBut(g, s, a, s', b, d, true)
    ensures Local(g, s, a, s', b, d) && Tidy(g, s') && BufferKept(g, s, s')
  {
    hide Within, Mine, Tidy, BufferKept;
  }

  /** Inside a sector the buffer is on that sector. */
  lemma PositionHome(g: Geometry, s: FState)
    requires FileOK(g, s) && s.fptr % 512 != 0
    ensures AtHome(g, s)
  {
    InChainOf(g, s.chain, s.fptr / 512);
  }

  /** After a truncation a good buffer is still good exactly if it is still on a sector of the file. */
  lemma CutGood(g: Geometry, s: FState, s': FState)
    requires Core(g, s) && Core(g, s') && DiskKept(g, s, s') && s'.dsect == s.dsect && s'.buf == s.buf && !s'.dirty
    requires Good(g, s)
    ensures Good(g, s') <==> AtHome(g, s')
  {
    if s.dsect != 0 && InChain(g, s'.chain, s'.dsect) {
      InChainApart(g, s, s.dsect);
      assert Disk(s')[s.dsect] == Disk(s)[s.dsect];
    }
    hide HeapOK, IsChain, Unlinked, InChain, Secs;
  }

  /** A good buffer agrees with the drive wherever it shows the file. */
  lemma GoodMatched(g: Geometry, s: FState, e: nat)
    requires Core(g, s) && Good(g, s)
    ensures Matched(g, s, e)
  {
    if s.dsect != 0 {
      MatchedDirty(g, s, e);
    } else {
      hide HeapOK, IsChain, Unlinked, InCluster;
      forall q | 0 <= q < |Secs(g, s.chain)| ensures Secs(g, s.chain)[q] != 0 { SectorPositive(g, s, q); }
    }
  }

  /** A successful call on one file leaves every other open file what it was, and the files stay
      disjoint; `d` are the sectors that the call may write besides. */
  lemma OtherFileKeeps(g: Geometry, s: FState, a: Snapshot, s': FState, b: Snapshot, d: set<nat>, t: FState, t': FState)
    requires Core(g, s) && Core(g, s') && Local(g, s, a, s', b, d)
    requires s.media == a.media && s.winsect == a.winsect && s'.media == b.media && s'.winsect == b.winsect
    requires FileOK(g, t) && Tidy(g, t) && t.fat == s.fat && t.media == s.media && t.winsect == s.winsect
    requires Disjoint(s, t) && forall x :: x in d ==> !InChain(g, t.chain, x)
    requires t' == t.(fat := s'.fat, media := s'.media, winsect := s'.winsect)
    ensures FileOK(g, t') && SameBytes(g, t, t')
    ensures Disjoint(s', t') && Disjoint(t', s')
  {
    hide *;
    FileOKIs(g, t);
    LocalIs(g, s, a, s', b, d);
    var m := Mine(s.fat, s.chain);
    MineClosed(g, s', m);
    NotMine(g, s, t);
    CoreWindow(g, t);
    CoreWindow(g, s');
    WindowSurvives(g, m, d, a, s', b, t, t');
    FileSurvives(g, m, d, a, b, t, t');
    DisjointAfter(g, s', t', m);
  }

  lemma LocalIs(g: Geometry, s: FState, a: Snapshot, s': FState, b: Snapshot, d: set<nat>)
    requires Local(g, s, a, s', b, d)
    ensures Within(g, Mine(s.fat, s.chain), d, s.fat, a, s'.fat, b) && Mine(s'.fat, s'.chain) == Mine(s.fat, s.chain)
    ensures |s'.fat| == |s.fat|
  {
    hide Mine;
  }

  lemma CoreWindow(g: Geometry, s: FState)
    requires Core(g, s)
    ensures DataFits(g) && |s.fat| == g.nFatent && HeapOK(s.fat) && WindowApart(g, s)
  {
  }

  lemma DisjointAfter(g: Geometry, s: FState, t: FState, m: set<nat>)
    requires Core(g, s) && m == Mine(s.fat, s.chain) && forall c :: c in t.chain ==> c !in m
    ensures Disjoint(s, t) && Disjoint(t, s)
  {
    assert forall c :: c in s.chain ==> c in m;
  }

  /** After a truncation to `k` clusters the buffer is at home exactly if it was on one of these. */
  lemma HomeAfterCut(g: Geometry, s: FState, s': FState, k: nat, j: nat)
    requires Core(g, s) && s.sclust != 0 && k <= |s.chain| && j < |s.chain| && s.dsect != 0
    requires s.chain[j] >= 2 && InCluster(g, s.chain[j], s.dsect) && s'.chain == s.chain[..k] && s'.dsect == s.dsect
    ensures AtHome(g, s') <==> j < k
  {
    ChainOf(g, s);
    ChainDistinct(s.fat, s.chain);
    hide Core, HeapOK, IsChain, Unlinked, InCluster;
    if j < k { assert s'.chain[j] in s'.chain; }
    forall c | c in s'.chain && c != s.chain[j] && c >= 2 ensures !InCluster(g, c, s.dsect) {
      ClustersApart(g, s.chain[j], c, s.dsect);
    }
    if j >= k { assert s.chain[j] !in s'.chain; }
  }
}
