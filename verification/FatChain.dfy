/** Allocation and release of cluster chains. */
module FatChain {
  import opened Bytes
  import opened FatEntry
  import opened FatVolume
  import opened FatHeap

  /** No FAT that a prefix of the stores leaves on the drive has a dangling link. */
  ghost predicate CutsSafe(cuts: seq<seq<nat>>) {
    forall k :: 0 <= k < |cuts| ==> NoDangling(cuts[k])
  }

  /** A known free count is right. */
  ghost predicate Exact(freeClust: nat, f: seq<nat>) {
    freeClust == ALL_ONES || freeClust == CountFree(f)
  }

  /** What allocation and release keep: a well-formed FAT, a right free count, and on
      FAT16 and FAT32, even when a transfer fails, no dangling link at any cut. */
  ghost predicate Sound(fsType: FsType, f: seq<nat>, f': seq<nat>, cuts: seq<seq<nat>>, cuts': seq<seq<nat>>,
                        free: nat, free': nat, ok: bool) {
    && (HeapOK(f) && (ok || fsType != FAT12) ==> HeapOK(f'))
    && (HeapOK(f) && fsType != FAT12 && CutsSafe(cuts) ==> CutsSafe(cuts'))
    && (ok && Exact(free, f) ==> Exact(free', f'))
  }

  lemma SoundSame(fsType: FsType, f: seq<nat>, cuts: seq<seq<nat>>, free: nat, ok: bool)
    ensures Sound(fsType, f, f, cuts, cuts, free, free, ok)
  {
  }

  lemma SoundIs(fsType: FsType, f: seq<nat>, f': seq<nat>, cuts: seq<seq<nat>>, cuts': seq<seq<nat>>,
                free: nat, free': nat, ok: bool)
    requires HeapOK(f) && Sound(fsType, f, f', cuts, cuts', free, free', ok)
    ensures CutsHold(fsType, cuts) ==> CutsHold(fsType, cuts')
    ensures ok && Exact(free, f) ==> Exact(free', f')
  {
  }

  /** On FAT16 and FAT32: every prefix of the stores leaves a FAT without dangling links. */
  ghost predicate CutsHold(fsType: FsType, cuts: seq<seq<nat>>) {
    fsType != FAT12 && CutsSafe(cuts)
  }

  lemma CutsMore(fsType: FsType, cuts: seq<seq<nat>>, f: seq<nat>)
    requires HeapOK(f)
    ensures CutsHold(fsType, cuts) ==> CutsHold(fsType, cuts + [f])
  {
  }

  lemma CutsHoldWide(fsType: FsType, cuts: seq<seq<nat>>)
    ensures CutsHold(fsType, cuts) ==> fsType != FAT12
  {
  }

  /** `c` is the first free cluster after `scl`, in the order of a scan that wraps around. */
  ghost predicate FirstFreeAfter(f: seq<nat>, scl: nat, c: nat) {
    && 2 <= c < |f| && f[c] == 0
    && (c > scl ==> forall d :: 2 <= d && scl < d < c ==> f[d] != 0)
    && (c <= scl ==> (forall d :: 2 <= d < c ==> f[d] != 0) && forall d :: scl < d < |f| && 2 <= d ==> f[d] != 0)
  }

  ghost predicate NoneFree(f: seq<nat>) {
    forall d :: 2 <= d < |f| ==> f[d] != 0
  }

  ghost predicate HasOne(f: seq<nat>) {
    exists d :: 2 <= d < |f| && f[d] == 1
  }

  /** The clusters after `scl` up to `ncl`, around the end if `wrapped`, are in use. */
  ghost predicate Scanned(f: seq<nat>, scl: nat, ncl: nat, wrapped: bool) {
    && ncl < |f|
    && (!wrapped ==> scl <= ncl && forall d :: 2 <= d && scl < d <= ncl ==> f[d] != 0)
    && (wrapped ==>
          && 2 <= ncl < scl && (forall d :: 2 <= d <= ncl ==> f[d] != 0)
          && forall d :: scl < d < |f| && 2 <= d ==> f[d] != 0)
  }

  lemma ScanStart(f: seq<nat>, scl: nat)
    requires scl < |f|
    ensures Scanned(f, scl, scl, false)
  {
  }

  /** One step of the scan, from `ncl` to `next`. */
  lemma ScanStep(f: seq<nat>, scl: nat, ncl: nat, wrapped: bool, next: nat)
    requires Scanned(f, scl, ncl, wrapped) && 1 <= scl < |f| && |f| >= 3
    requires next == if ncl + 1 < |f| then ncl + 1 else 2
    ensures var w := wrapped || ncl + 1 >= |f|;
            && 2 <= next < |f|
            && (w && next > scl ==> NoneFree(f))
            && (f[next] == 1 ==> HasOne(f))
            && (!(w && next > scl) && f[next] == 0 ==> FirstFreeAfter(f, scl, next))
            && (!(w && next > scl) && f[next] != 0 && next == scl ==> NoneFree(f))
            && (!(w && next > scl) && f[next] != 0 && next != scl ==> Scanned(f, scl, next, w))
            && (wrapped ==> next > ncl && next <= scl)
  {
  }

  /** The scan for a free cluster: its number, 0 for none, 1 or all ones for an error. */
  method FindFree(fs: FatFs, scl: nat) returns (ncl: nat)
    requires fs.Valid() && 1 <= scl < fs.g.nFatent
    modifies fs`winsect, fs`wflag, fs`media, fs`durable, fs`faults, fs.win
    ensures fs.Valid() && FatStep(fs.g, old(fs.Now()), fs.Now()) && fs.faults >= old(fs.faults)
    ensures ncl == ALL_ONES ==> fs.faults > old(fs.faults)
    ensures ncl == 1 ==> HasOne(fs.fat)
    ensures ncl == 0 ==> NoneFree(fs.fat)
    ensures ncl >= 2 && ncl != ALL_ONES ==> FirstFreeAfter(fs.fat, scl, ncl)
  {
    hide *;
    fs.Facts();
    ScanStart(fs.fat, scl);
    ncl := scl;
    ghost var wrapped := false;
    while true
      invariant fs.Valid() && FatStep(fs.g, old(fs.Now()), fs.Now()) && fs.faults >= old(fs.faults)
      invariant ncl < fs.g.nFatent == |fs.fat| && Scanned(fs.fat, scl, ncl, wrapped)
      decreases if wrapped then scl - ncl else fs.g.nFatent - ncl + scl
    {
      ghost var s0 := fs.Now();
      fs.Facts();
      ScanStep(fs.fat, scl, ncl, wrapped, if ncl + 1 < |fs.fat| then ncl + 1 else 2);
      ncl := ncl + 1;
      if ncl >= fs.g.nFatent {
        ncl := 2;
        wrapped := true;
        if ncl > scl { return 0; }
      }
      var cs := fs.GetFat(ncl);
      FatStepTrans(fs.g, old(fs.Now()), s0, fs.Now());
      if cs == 0 { break; }
      if cs == ALL_ONES || cs == 1 { return cs; }
      if ncl == scl { return 0; }
    }
  }

  /** The FAT after `ncl` is marked, and linked behind `clst` unless it starts a chain. */
  ghost function Stretched(f: seq<nat>, clst: nat, ncl: nat, mark: nat): (r: seq<nat>)
    requires ncl < |f| && clst < |f|
    ensures |r| == |f|
  {
    if clst == 0 then f[ncl := mark] else f[ncl := mark][clst := ncl]
  }

  lemma StretchKeeps(f: seq<nat>, clst: nat, ncl: nat, mark: nat)
    requires HeapOK(f) && 2 <= ncl < |f| && f[ncl] == 0 && mark >= |f|
    requires clst == 0 || (2 <= clst < |f| && f[clst] >= |f|)
    ensures HeapOK(f[ncl := mark]) && HeapOK(Stretched(f, clst, ncl, mark))
  {
    MarkKeeps(f, ncl, mark);
    if clst != 0 { LinkKeeps(f[ncl := mark], clst, ncl); }
  }

  lemma StretchCount(f: seq<nat>, clst: nat, ncl: nat, mark: nat)
    requires 2 <= ncl < |f| && f[ncl] == 0 && mark != 0
    requires clst == 0 || (2 <= clst < |f| && f[clst] != 0)
    ensures CountFree(f) >= 1 && CountFree(Stretched(f, clst, ncl, mark)) == CountFree(f) - 1
  {
    CountUpdate(f, ncl, mark);
    if clst != 0 { CountUpdate(f[ncl := mark], clst, ncl); }
  }

  /** A stretched chain is the old one with the new cluster at its end. */
  lemma StretchExtends(f: seq<nat>, ch: seq<nat>, ncl: nat, mark: nat)
    requires HeapOK(f) && IsChain(f, ch) && 2 <= ncl < |f| && f[ncl] == 0 && mark >= |f|
    ensures IsChain(Stretched(f, ch[|ch| - 1], ncl, mark), ch + [ncl])
  {
    ChainDistinct(f, ch);
    ChainUsed(f, ch);
  }

  lemma ChainUsed(f: seq<nat>, ch: seq<nat>)
    requires IsChain(f, ch)
    ensures forall c :: c in ch ==> f[c] != 0
  {
    forall i | 0 <= i < |ch| ensures f[ch[i]] != 0 {
      if i < |ch| - 1 { assert f[ch[i]] == ch[i + 1]; }
    }
  }

  lemma CutsAppendSafe(cuts: seq<seq<nat>>, f: seq<nat>)
    requires CutsSafe(cuts) && HeapOK(f)
    ensures CutsSafe(cuts + [f])
  {
  }

  /** Only free entries and the one of `clst` have changed. */
  ghost predicate Touched(f: seq<nat>, f': seq<nat>, clst: nat) {
    |f'| == |f| && forall c :: 0 <= c < |f| && f[c] != 0 && c != clst ==> f'[c] == f[c]
  }

  lemma TouchedSame(f: seq<nat>, clst: nat)
    ensures Touched(f, f, clst)
  {
  }

  /** Mark the new cluster as the last one, then link it to the previous one if there is one. */
  method LinkNew(fs: FatFs, clst: nat, ncl: nat) returns (res: FResult)
    requires fs.Valid() && 2 <= ncl < fs.g.nFatent == |fs.fat| && fs.fat[ncl] == 0
    requires clst == 0 || (2 <= clst < |fs.fat| && fs.fat[clst] >= |fs.fat|)
    modifies fs`winsect, fs`wflag, fs`media, fs`durable, fs`faults, fs`log, fs`fat, fs`cuts, fs.win
    ensures fs.Valid() && FatStep(fs.g, old(fs.Now()), fs.Now()) && fs.faults >= old(fs.faults)
    ensures res == FR_OK || (res == FR_DISK_ERR && fs.faults > old(fs.faults))
    ensures fs.g.nFatent == |fs.fat| <= fs.g.Kept(LAST_LINK)
    ensures res == FR_OK ==> fs.fat == Stretched(old(fs.fat), clst, ncl, fs.g.Kept(LAST_LINK))
    ensures HeapOK(old(fs.fat)) && fs.g.fsType != FAT12 ==> HeapOK(fs.fat)
    ensures HeapOK(old(fs.fat)) && fs.g.fsType != FAT12 && CutsSafe(old(fs.cuts)) ==> CutsSafe(fs.cuts)
    ensures Touched(old(fs.fat), fs.fat, clst)
  {
    hide *;
    fs.Facts();
    fs.g.KeptLinks();
    LastLinkSmall();
    ghost var f, c0, mark := fs.fat, fs.cuts, fs.g.Kept(LAST_LINK);
    Linked(f, clst, ncl, mark);
    res := fs.PutFat(ncl, LAST_LINK);
    OnlyAtIntro(f, f[ncl := mark], ncl);
    TouchedAt(f, f, fs.fat, clst, ncl);
    if HeapOK(f) && CutsSafe(c0) { CutsAppendSafe(c0, f[ncl := mark]); }
    if res == FR_OK && clst != 0 {
      fs.Facts();
      ghost var s1, f1, c1 := fs.Now(), fs.fat, fs.cuts;
      res := fs.PutFat(clst, ncl);
      FatStepTrans(fs.g, old(fs.Now()), s1, fs.Now());
      OnlyAtIntro(f1, f1[clst := ncl], clst);
      TouchedAt(f, f1, fs.fat, clst, clst);
      if HeapOK(f) && CutsSafe(c1) { CutsAppendSafe(c1, f1[clst := ncl]); }
    }
  }

  /** The two FATs of a stretch. */
  lemma Linked(f: seq<nat>, clst: nat, ncl: nat, mark: nat)
    requires 2 <= ncl < |f| && f[ncl] == 0 && mark >= |f| && (clst == 0 || (2 <= clst < |f| && f[clst] >= |f|))
    ensures Stretched(f, clst, ncl, mark) == if clst == 0 then f[ncl := mark] else f[ncl := mark][clst := ncl]
    ensures HeapOK(f) ==> HeapOK(f[ncl := mark]) && HeapOK(Stretched(f, clst, ncl, mark))
    ensures Touched(f, f, clst)
  {
    if HeapOK(f) { StretchKeeps(f, clst, ncl, mark); }
  }

  lemma TouchedAt(f: seq<nat>, f1: seq<nat>, f2: seq<nat>, clst: nat, c: nat)
    requires Touched(f, f1, clst) && OnlyAt(f1, f2, c) && c < |f| && (c == clst || f[c] == 0)
    ensures Touched(f, f2, clst)
  {
  }

  /** Where the search for a new cluster starts. */
  function SearchStart(clst: nat, lastClust: nat, n: nat): (scl: nat)
  {
    if clst != 0 then clst else if lastClust == 0 || lastClust >= n then 1 else lastClust
  }

  /** Cluster `clst` is already followed by another one. */
  ghost predicate HasNext(f: seq<nat>, clst: nat) {
    2 <= clst < |f| && 2 <= f[clst] < |f|
  }

  /** What `create_chain` did to the FAT and why, for every return value but a disk error. */
  ghost predicate Created(f: seq<nat>, f': seq<nat>, clst: nat, scl: nat, mark: nat, ncl: nat) {
    if HasNext(f, clst) then f' == f && ncl == f[clst]
    else if ncl == 0 then f' == f && NoneFree(f)
    else if ncl == 1 then f' == f && (HasOne(f) || (clst != 0 && !(2 <= clst < |f| && f[clst] >= |f|)))
    else
      && (clst == 0 || (2 <= clst < |f| && f[clst] >= |f|))
      && FirstFreeAfter(f, scl, ncl) && f' == Stretched(f, clst, ncl, mark)
  }

  lemma CreatedAfter(f: seq<nat>, f': seq<nat>, clst: nat, scl: nat, mark: nat, ncl: nat)
    requires Created(f, f', clst, scl, mark, ncl)
    ensures ncl >= 2 && !HasNext(f, clst) ==> FirstFreeAfter(f, scl, ncl)
    ensures ncl < 2 ==> !HasNext(f, clst)
  {
  }

  lemma CreatedFresh(f: seq<nat>, f': seq<nat>, clst: nat, scl: nat, mark: nat, ncl: nat)
    requires Created(f, f', clst, scl, mark, ncl) && HeapOK(f)
    requires clst == 0 || (2 <= clst < |f| && f[clst] >= |f|)
    ensures ncl != 1
    ensures ncl == 0 ==> f' == f && NoneFree(f)
    ensures ncl != 0 ==> 2 <= ncl < |f| && f[ncl] == 0 && f' == Stretched(f, clst, ncl, mark)
  {
  }

  /** Bit 0 of the FSINFO flag is set whenever the free count changes, and no other bit does: the next synchronisation
      then saves the counts. */
  ghost predicate Noted(free: nat, free': nat, flag: nat, flag': nat) {
    (flag' == flag || (flag % 2 == 0 && flag' == flag + 1)) && (free' != free ==> flag' % 2 == 1)
  }

  lemma NotedSame(free: nat, flag: nat)
    ensures Noted(free, free, flag, flag)
  {
  }

  lemma NotedTrans(free0: nat, free1: nat, free2: nat, flag0: nat, flag1: nat, flag2: nat)
    requires Noted(free0, free1, flag0, flag1) && Noted(free1, free2, flag1, flag2)
    ensures Noted(free0, free2, flag0, flag2)
  {
  }

  /** Record a new cluster in the allocation hints. */
  method CountAllocated(fs: FatFs, ncl: dword)
    modifies fs`lastClust, fs`freeClust, fs`fsiFlag
    ensures fs.lastClust == ncl
    ensures fs.freeClust ==
             if old(fs.freeClust) == ALL_ONES || old(fs.freeClust) == 0 then ALL_ONES else old(fs.freeClust) - 1
    ensures Noted(old(fs.freeClust), fs.freeClust, old(fs.fsiFlag), fs.fsiFlag)
  {
    fs.lastClust := ncl;
    if fs.freeClust != ALL_ONES {
      fs.freeClust := if fs.freeClust == 0 then ALL_ONES else fs.freeClust - 1;
      fs.fsiFlag := if fs.fsiFlag % 2 == 0 then fs.fsiFlag + 1 else fs.fsiFlag;
    }
  }

  /** Search from `scl` and take the cluster found. */
  method Allocate(fs: FatFs, clst: nat, scl: nat) returns (ncl: nat)
    requires fs.Valid() && 1 <= scl < fs.g.nFatent == |fs.fat|
    requires clst == 0 || (2 <= clst < |fs.fat| && fs.fat[clst] >= |fs.fat|)
    modifies fs`winsect, fs`wflag, fs`media, fs`durable, fs`faults, fs`log, fs`fat, fs`cuts, fs.win
    modifies fs`lastClust, fs`freeClust, fs`fsiFlag
    ensures fs.Valid() && FatStep(fs.g, old(fs.Now()), fs.Now()) && fs.faults >= old(fs.faults)
    ensures |fs.fat| == |old(fs.fat)| == fs.g.nFatent <= fs.g.Kept(LAST_LINK)
    ensures ncl == ALL_ONES ==> fs.faults > old(fs.faults)
    ensures ncl != ALL_ONES ==> Created(old(fs.fat), fs.fat, clst, scl, fs.g.Kept(LAST_LINK), ncl)
    ensures ncl != ALL_ONES && ncl >= 2 ==> fs.lastClust == ncl
    ensures ncl < 2 ==> fs.lastClust == old(fs.lastClust)
    ensures Touched(old(fs.fat), fs.fat, clst)
    ensures Sound(fs.g.fsType, old(fs.fat), fs.fat, old(fs.cuts), fs.cuts, old(fs.freeClust), fs.freeClust,
                  ncl != ALL_ONES)
    ensures Noted(old(fs.freeClust), fs.freeClust, old(fs.fsiFlag), fs.fsiFlag)
  {
    hide *;
    fs.Facts();
    fs.g.KeptLinks();
    ghost var f := fs.fat;
    NotedSame(fs.freeClust, fs.fsiFlag);
    ncl := FindFree(fs, scl);
    TouchedSame(f, clst);
    CreatedNone(f, clst, scl, fs.g.Kept(LAST_LINK), ncl);
    SoundSame(fs.g.fsType, f, fs.cuts, fs.freeClust, ncl != ALL_ONES);
    if ncl < 2 || ncl == ALL_ONES { return; }
    ghost var s0 := fs.Now();
    fs.Facts();
    StretchFound(f, clst, scl, ncl, fs.g.Kept(LAST_LINK));
    var res := LinkNew(fs, clst, ncl);
    FatStepTrans(fs.g, old(fs.Now()), s0, fs.Now());
    if res == FR_OK {
      ExactAfter(f, clst, ncl, fs.g.Kept(LAST_LINK), fs.freeClust);
      CountAllocated(fs, ncl);
    } else {
      ncl := ALL_ONES; // both clusters are in range, so the error is the drive's
    }
    SoundAfter(fs.g.fsType, f, fs.fat, old(fs.cuts), fs.cuts, old(fs.freeClust), fs.freeClust, ncl != ALL_ONES);
  }

  lemma SoundAfter(fsType: FsType, f: seq<nat>, f': seq<nat>, cuts: seq<seq<nat>>, cuts': seq<seq<nat>>,
                   free: nat, free': nat, ok: bool)
    requires HeapOK(f) && (ok || fsType != FAT12) ==> HeapOK(f')
    requires HeapOK(f) && fsType != FAT12 && CutsSafe(cuts) ==> CutsSafe(cuts')
    requires ok && Exact(free, f) ==> Exact(free', f')
    ensures Sound(fsType, f, f', cuts, cuts', free, free', ok)
  {
  }

  lemma CreatedNone(f: seq<nat>, clst: nat, scl: nat, mark: nat, ncl: nat)
    requires clst == 0 || (2 <= clst < |f| && f[clst] >= |f|)
    requires (ncl == 1 ==> HasOne(f)) && (ncl == 0 ==> NoneFree(f))
    ensures ncl < 2 ==> Created(f, f, clst, scl, mark, ncl)
    ensures ALL_ONES >= 2
  {
  }

  lemma StretchFound(f: seq<nat>, clst: nat, scl: nat, ncl: nat, mark: nat)
    requires clst == 0 || (2 <= clst < |f| && f[clst] >= |f|)
    requires FirstFreeAfter(f, scl, ncl) && mark >= |f|
    ensures 2 <= ncl < |f| && f[ncl] == 0
    ensures Created(f, Stretched(f, clst, ncl, mark), clst, scl, mark, ncl)
    ensures HeapOK(f) ==> HeapOK(Stretched(f, clst, ncl, mark))
  {
    if HeapOK(f) { StretchKeeps(f, clst, ncl, mark); }
  }

  lemma ExactAfter(f: seq<nat>, clst: nat, ncl: nat, mark: nat, freeClust: nat)
    requires 2 <= ncl < |f| && f[ncl] == 0 && mark >= |f|
    requires clst == 0 || (2 <= clst < |f| && f[clst] >= |f|)
    ensures Exact(freeClust, f) ==>
              Exact(if freeClust == ALL_ONES || freeClust == 0 then ALL_ONES else freeClust - 1,
                    Stretched(f, clst, ncl, mark))
  {
    StretchCount(f, clst, ncl, mark);
  }

  /** Stretch the chain ending at `clst`, or start a new one. */
  method CreateChain(fs: FatFs, clst: nat) returns (ncl: nat)
    requires fs.Valid()
    modifies fs`winsect, fs`wflag, fs`media, fs`durable, fs`faults, fs`log, fs`fat, fs`cuts, fs.win
    modifies fs`lastClust, fs`freeClust, fs`fsiFlag
    ensures fs.Valid() && FatStep(fs.g, old(fs.Now()), fs.Now()) && fs.faults >= old(fs.faults)
    ensures |fs.fat| == |old(fs.fat)| == fs.g.nFatent <= fs.g.Kept(LAST_LINK)
    ensures ncl == ALL_ONES ==> fs.faults > old(fs.faults)
    ensures ncl != ALL_ONES ==> Created(old(fs.fat), fs.fat, clst, SearchStart(clst, old(fs.lastClust), fs.g.nFatent),
                                        fs.g.Kept(LAST_LINK), ncl)
    ensures Sound(fs.g.fsType, old(fs.fat), fs.fat, old(fs.cuts), fs.cuts, old(fs.freeClust), fs.freeClust,
                  ncl != ALL_ONES)
    ensures Touched(old(fs.fat), fs.fat, clst)
    ensures Noted(old(fs.freeClust), fs.freeClust, old(fs.fsiFlag), fs.fsiFlag)
    ensures ncl != ALL_ONES && ncl >= 2 && !HasNext(old(fs.fat), clst) ==>
              && fs.lastClust == ncl
              && FirstFreeAfter(old(fs.fat), if clst != 0 then clst
                                             else if 0 < old(fs.lastClust) < fs.g.nFatent then old(fs.lastClust) else 1,
                                ncl)
    ensures ncl < 2 || HasNext(old(fs.fat), clst) ==> fs.lastClust == old(fs.lastClust)
  {
    StartIs(clst, fs.lastClust, fs.g.nFatent);
    hide *;
    fs.Facts();
    fs.g.KeptLinks();
    var scl := 1;
    ghost var f, l0 := fs.fat, fs.lastClust;
    NotedSame(fs.freeClust, fs.fsiFlag);
    ghost var s0 := fs.Now();
    TouchedSame(fs.fat, clst);
    ncl := 0;
    if clst == 0 {
      if fs.lastClust != 0 && fs.lastClust < fs.g.nFatent { scl := fs.lastClust; }
    } else {
      var cs := fs.GetFat(clst);
      s0 := fs.Now();
      fs.Facts();
      SoundSame(fs.g.fsType, fs.fat, fs.cuts, fs.freeClust, cs != ALL_ONES);
      SoundSame(fs.g.fsType, fs.fat, fs.cuts, fs.freeClust, 1 != ALL_ONES);
      CreatedEarly(fs.fat, clst, SearchStart(clst, fs.lastClust, fs.g.nFatent), fs.g.Kept(LAST_LINK), cs);
      if cs < 2 {
        ncl := 1;
      } else if cs == ALL_ONES || cs < fs.g.nFatent {
        ncl := cs;
      } else {
        scl := clst;
      }
    }
    if ncl == 0 {
      ncl := Allocate(fs, clst, scl);
      FatStepTrans(fs.g, old(fs.Now()), s0, fs.Now());
    }
    if ncl != ALL_ONES {
      CreatedAfter(f, fs.fat, clst, SearchStart(clst, l0, fs.g.nFatent), fs.g.Kept(LAST_LINK), ncl);
    }
  }

  lemma StartIs(clst: nat, lastClust: nat, n: nat)
    ensures SearchStart(clst, lastClust, n) ==
             if clst != 0 then clst else if lastClust == 0 || lastClust >= n then 1 else lastClust
  {
  }

  lemma CreatedEarly(f: seq<nat>, clst: nat, scl: nat, mark: nat, cs: nat)
    requires clst != 0 && (cs != ALL_ONES ==> cs == if 2 <= clst < |f| then f[clst] else 1)
    ensures ALL_ONES >= 2
    ensures cs < 2 ==> Created(f, f, clst, scl, mark, 1)
    ensures 2 <= cs < |f| && cs != ALL_ONES ==> Created(f, f, clst, scl, mark, cs)
  {
  }

  /** A free count raised by `k`; an unknown one stays unknown. */
  function Raised(free: nat, k: nat): (r: nat)
    requires free <= ALL_ONES
    ensures r <= ALL_ONES
  {
    if free + k <= ALL_ONES then free + k else ALL_ONES
  }

  /** The walk from `c0` in `f0` has freed `done` so far and continues at `c` in `f`. */
  ghost predicate Walking(f0: seq<nat>, c0: nat, f: seq<nat>, c: nat, done: seq<nat>)
    requires 2 <= c0
  {
    && 2 <= c
    && Walk(f0, c0).fat == Walk(f, c).fat && Walk(f0, c0).freed == done + Walk(f, c).freed
    && Walk(f0, c0).intErr == Walk(f, c).intErr
  }

  lemma WalkStart(f: seq<nat>, c: nat)
    requires 2 <= c
    ensures Walking(f, c, f, c, [])
  {
  }

  lemma WalkStep(f0: seq<nat>, c0: nat, f: seq<nat>, c: nat, done: seq<nat>)
    requires 2 <= c0 && Walking(f0, c0, f, c, done) && 2 <= c < |f|
    ensures f[c] >= 2 ==> Walking(f0, c0, f[c := 0], f[c], done + [c]) && CountUsed(f[c := 0]) < CountUsed(f)
    ensures f[c] == 0 ==> Walk(f0, c0) == Walked(f, done, false)
    ensures f[c] == 1 ==> Walk(f0, c0) == Walked(f, done, true)
  {
    if f[c] >= 2 {
      CountUpdate(f, c, 0);
      assert done + [c] + Walk(f[c := 0], f[c]).freed == done + Walk(f, c).freed;
    }
  }

  lemma WalkEnd(f0: seq<nat>, c0: nat, f: seq<nat>, c: nat, done: seq<nat>)
    requires 2 <= c0 && Walking(f0, c0, f, c, done) && c >= |f|
    ensures Walk(f0, c0) == Walked(f, done, false)
  {
  }

  /** Only entries that the walk from `c0` frees have changed. */
  ghost predicate OnWalk(f0: seq<nat>, c0: nat, f: seq<nat>) {
    |f| == |f0| && forall d :: 0 <= d < |f0| && f[d] != f0[d] ==> 2 <= c0 && d in Walk(f0, c0).freed
  }

  lemma OnWalkSame(f: seq<nat>, c0: nat)
    ensures OnWalk(f, c0, f)
  {
  }

  lemma OnWalkStep(f0: seq<nat>, c0: nat, f: seq<nat>, c: nat, done: seq<nat>, f': seq<nat>)
    requires 2 <= c0 && Walking(f0, c0, f, c, done) && 2 <= c < |f| && OnWalk(f0, c0, f)
    requires OnlyAt(f, f', c) && (f'[c] != f[c] ==> f[c] >= 2)
    ensures OnWalk(f0, c0, f')
  {
    if f'[c] != f[c] {
      assert Walk(f, c).freed[0] == c;
      assert Walk(f0, c0).freed[|done|] == c;
    }
  }

  /** What a release that starts at a cluster without predecessor keeps at every step. */
  ghost predicate Releasing(fsType: FsType, f0: seq<nat>, c0: nat, cuts0: seq<seq<nat>>, f: seq<nat>, c: nat,
                            cuts: seq<seq<nat>>) {
    HeapOK(f0) && Unlinked(f0, c0) ==>
      && HeapOK(f) && (2 <= c < |f| ==> Unlinked(f, c))
      && (fsType != FAT12 && CutsSafe(cuts0) ==> CutsSafe(cuts))
  }

  lemma ReleaseStep(fsType: FsType, f0: seq<nat>, c0: nat, cuts0: seq<seq<nat>>, f: seq<nat>, c: nat,
                    cuts: seq<seq<nat>>, cuts': seq<seq<nat>>)
    requires Releasing(fsType, f0, c0, cuts0, f, c, cuts) && 2 <= c < |f|
    requires fsType != FAT12 ==> cuts' == cuts + [f[c := 0]]
    ensures Releasing(fsType, f0, c0, cuts0, f[c := 0], f[c], cuts')
  {
    if HeapOK(f0) && Unlinked(f0, c0) {
      FreeKeeps(f, c);
      if fsType != FAT12 && CutsSafe(cuts0) { CutsAppendSafe(cuts, f[c := 0]); }
    }
  }

  lemma ReleaseStart(fsType: FsType, f: seq<nat>, c: nat, cuts: seq<seq<nat>>)
    ensures Releasing(fsType, f, c, cuts, f, c, cuts)
  {
  }

  lemma RaisedOnce(free: nat, k: nat)
    requires free <= ALL_ONES
    ensures Raised(free, 0) == free && Raised(Raised(free, k), 1) == Raised(free, k + 1)
  {
  }

  method CountFreed(fs: FatFs)
    modifies fs`freeClust, fs`fsiFlag
    ensures fs.freeClust == Raised(old(fs.freeClust), 1)
    ensures Noted(old(fs.freeClust), fs.freeClust, old(fs.fsiFlag), fs.fsiFlag)
  {
    if fs.freeClust != ALL_ONES {
      fs.freeClust := fs.freeClust + 1;
      fs.fsiFlag := if fs.fsiFlag % 2 == 0 then fs.fsiFlag + 1 else fs.fsiFlag;
    }
  }

  /** One round of the release loop: the entry of `c` is read and, if it is a link or an
      end mark, zeroed. */
  method FreeOne(fs: FatFs, c: nat) returns (res: FResult, nxt: nat, stop: bool)
    requires fs.Valid() && 2 <= c < fs.g.nFatent == |fs.fat|
    modifies fs`winsect, fs`wflag, fs`media, fs`durable, fs`faults, fs`log, fs`fat, fs`cuts, fs.win
    modifies fs`freeClust, fs`fsiFlag
    ensures fs.Valid() && FatStep(fs.g, old(fs.Now()), fs.Now()) && fs.faults >= old(fs.faults)
    ensures |fs.fat| == fs.g.nFatent
    ensures !stop ==> res == FR_OK && nxt == old(fs.fat)[c] >= 2 && fs.fat == old(fs.fat)[c := 0]
    ensures !stop ==>
              && fs.freeClust == Raised(old(fs.freeClust), 1)
              && (fs.g.fsType != FAT12 ==> fs.cuts == old(fs.cuts) + [fs.fat])
    ensures stop ==> fs.freeClust == old(fs.freeClust)
    ensures stop && res != FR_DISK_ERR ==>
              && fs.fat == old(fs.fat) && fs.cuts == old(fs.cuts)
              && ((res == FR_OK && fs.fat[c] == 0) || (res == FR_INT_ERR && fs.fat[c] == 1))
    ensures stop && res == FR_DISK_ERR ==>
              && fs.faults > old(fs.faults)
              && (fs.g.fsType != FAT12 ==> fs.fat == old(fs.fat) && fs.cuts == old(fs.cuts))
    ensures OnlyAt(old(fs.fat), fs.fat, c) && (fs.fat[c] != old(fs.fat)[c] ==> old(fs.fat)[c] >= 2)
    ensures Noted(old(fs.freeClust), fs.freeClust, old(fs.fsiFlag), fs.fsiFlag)
  {
    hide *;
    fs.Facts();
    fs.g.KeptLinks();
    res, stop := FR_OK, true;
    NotedSame(fs.freeClust, fs.fsiFlag);
    OnlyAtIntro(fs.fat, fs.fat, c);
    nxt := fs.GetFat(c);
    if nxt == 0 {
    } else if nxt == 1 {
      res := FR_INT_ERR;
    } else if nxt == ALL_ONES {
      res := FR_DISK_ERR;
    } else {
      ghost var s0 := fs.Now();
      fs.Facts();
      res := fs.PutFat(c, 0);
      FatStepTrans(fs.g, old(fs.Now()), s0, fs.Now());
      if res == FR_OK {
        stop := false;
        OnlyAtIntro(old(fs.fat), fs.fat, c);
        CountFreed(fs);
      }
    }
  }

  /** What `remove_chain` did, for every return value but a disk error. */
  ghost predicate Removed(f: seq<nat>, f': seq<nat>, clst: nat, free: nat, free': nat, res: FResult)
    requires free <= ALL_ONES
  {
    if !(2 <= clst < |f|) then res == FR_INT_ERR && f' == f && free' == free
    else
      && f' == Walk(f, clst).fat && free' == Raised(free, |Walk(f, clst).freed|)
      && res == if Walk(f, clst).intErr then FR_INT_ERR else FR_OK
  }

  lemma RemovedIntro(f: seq<nat>, f': seq<nat>, clst: nat, free: nat, free': nat, res: FResult)
    requires free <= ALL_ONES
    requires if !(2 <= clst < |f|) then res == FR_INT_ERR && f' == f && free' == free
             else res == FR_DISK_ERR || exists done :: Walk(f, clst) == Walked(f', done, res == FR_INT_ERR)
                                                    && free' == Raised(free, |done|) && res in {FR_OK, FR_INT_ERR}
    ensures res != FR_DISK_ERR ==> Removed(f, f', clst, free, free', res)
  {
  }

  /** Free the clusters from `clst` on. */
  method RemoveChain(fs: FatFs, clst: nat) returns (res: FResult)
    requires fs.Valid()
    modifies fs`winsect, fs`wflag, fs`media, fs`durable, fs`faults, fs`log, fs`fat, fs`cuts, fs.win
    modifies fs`freeClust, fs`fsiFlag
    ensures fs.Valid() && FatStep(fs.g, old(fs.Now()), fs.Now()) && fs.faults >= old(fs.faults)
    ensures |fs.fat| == |old(fs.fat)| == fs.g.nFatent
    ensures res == FR_DISK_ERR ==> fs.faults > old(fs.faults)
    ensures res != FR_DISK_ERR ==> Removed(old(fs.fat), fs.fat, clst, old(fs.freeClust), fs.freeClust, res)
    ensures res != FR_DISK_ERR || fs.g.fsType != FAT12 ==>
              Releasing(fs.g.fsType, old(fs.fat), clst, old(fs.cuts), fs.fat, 0, fs.cuts)
    ensures OnWalk(old(fs.fat), clst, fs.fat)
    ensures Noted(old(fs.freeClust), fs.freeClust, old(fs.fsiFlag), fs.fsiFlag)
  {
    hide *;
    fs.Facts();
    fs.CountsFit();
    NotedSame(fs.freeClust, fs.fsiFlag);
    if clst < 2 || clst >= fs.g.nFatent {
      res := FR_INT_ERR;
      OnWalkSame(fs.fat, clst);
      ReleaseStart(fs.g.fsType, fs.fat, clst, fs.cuts);
      ReleaseEnd(fs.g.fsType, fs.fat, clst, fs.cuts, fs.fat, clst, fs.cuts);
      RemovedIntro(old(fs.fat), fs.fat, clst, old(fs.freeClust), fs.freeClust, res);
    } else {
      res := ReleaseFrom(fs, clst);
    }
  }

  lemma ReleaseEnd(fsType: FsType, f0: seq<nat>, c0: nat, cuts0: seq<seq<nat>>, f: seq<nat>, c: nat,
                   cuts: seq<seq<nat>>)
    requires Releasing(fsType, f0, c0, cuts0, f, c, cuts)
    ensures Releasing(fsType, f0, c0, cuts0, f, 0, cuts)
  {
  }

  /** The release loop. */
  method ReleaseFrom(fs: FatFs, clst: nat) returns (res: FResult)
    requires fs.Valid() && 2 <= clst < fs.g.nFatent == |fs.fat|
    modifies fs`winsect, fs`wflag, fs`media, fs`durable, fs`faults, fs`log, fs`fat, fs`cuts, fs.win
    modifies fs`freeClust, fs`fsiFlag
    ensures fs.Valid() && FatStep(fs.g, old(fs.Now()), fs.Now()) && fs.faults >= old(fs.faults)
    ensures |fs.fat| == |old(fs.fat)| == fs.g.nFatent
    ensures res == FR_DISK_ERR ==> fs.faults > old(fs.faults)
    ensures res != FR_DISK_ERR ==> Removed(old(fs.fat), fs.fat, clst, old(fs.freeClust), fs.freeClust, res)
    ensures res != FR_DISK_ERR || fs.g.fsType != FAT12 ==>
              Releasing(fs.g.fsType, old(fs.fat), clst, old(fs.cuts), fs.fat, 0, fs.cuts)
    ensures OnWalk(old(fs.fat), clst, fs.fat)
    ensures Noted(old(fs.freeClust), fs.freeClust, old(fs.fsiFlag), fs.fsiFlag)
  {
    hide *;
    fs.Facts();
    fs.CountsFit();
    NotedSame(fs.freeClust, fs.fsiFlag);
    res := FR_OK;
    var c, stop := clst, false;
    ghost var done: seq<nat> := [];
    WalkStart(fs.fat, clst);
    OnWalkSame(fs.fat, clst);
    ReleaseStart(fs.g.fsType, fs.fat, clst, fs.cuts);
    RaisedOnce(fs.freeClust, 0);
    while c < fs.g.nFatent && !stop
      invariant fs.Valid() && FatStep(fs.g, old(fs.Now()), fs.Now()) && fs.faults >= old(fs.faults)
      invariant |fs.fat| == fs.g.nFatent && 2 <= c && fs.freeClust <= ALL_ONES && OnWalk(old(fs.fat), clst, fs.fat)
      invariant !stop ==> res == FR_OK && Walking(old(fs.fat), clst, fs.fat, c, done)
      invariant fs.freeClust == Raised(old(fs.freeClust), |done|)
      invariant Noted(old(fs.freeClust), fs.freeClust, old(fs.fsiFlag), fs.fsiFlag)
      invariant !stop || res != FR_DISK_ERR || fs.g.fsType != FAT12 ==>
                  Releasing(fs.g.fsType, old(fs.fat), clst, old(fs.cuts), fs.fat, c, fs.cuts)
      invariant stop && res == FR_DISK_ERR ==> fs.faults > old(fs.faults)
      invariant stop && res != FR_DISK_ERR ==>
                  res in {FR_OK, FR_INT_ERR} && Walk(old(fs.fat), clst) == Walked(fs.fat, done, res == FR_INT_ERR)
      decreases if stop then 0 else 1, CountUsed(fs.fat)
    {
      ghost var f, s0, c1, n1, i1 := fs.fat, fs.Now(), fs.cuts, fs.freeClust, fs.fsiFlag;
      fs.Facts();
      fs.CountsFit();
      WalkStep(old(fs.fat), clst, f, c, done);
      RaisedOnce(old(fs.freeClust), |done|);
      var nxt;
      res, nxt, stop := FreeOne(fs, c);
      NotedTrans(old(fs.freeClust), n1, fs.freeClust, old(fs.fsiFlag), i1, fs.fsiFlag);
      OnWalkStep(old(fs.fat), clst, f, c, done, fs.fat);
      FatStepTrans(fs.g, old(fs.Now()), s0, fs.Now());
      if !stop {
        ReleaseStep(fs.g.fsType, old(fs.fat), clst, old(fs.cuts), f, c, c1, fs.cuts);
        done := done + [c];
        c := nxt;
      }
    }
    if !stop { WalkEnd(old(fs.fat), clst, fs.fat, c, done); }
    if res != FR_DISK_ERR || fs.g.fsType != FAT12 {
      ReleaseEnd(fs.g.fsType, old(fs.fat), clst, old(fs.cuts), fs.fat, c, fs.cuts);
    }
    RemovedIntro(old(fs.fat), fs.fat, clst, old(fs.freeClust), fs.freeClust, res);
  }

  // ---------- What is on the drive ----------

  /** Whenever the drive is cut off, its FAT is the one after some prefix of the stores; what is
      missing lies in the sector of the dirty window. */
  lemma DriveHoldsPrefix(fs: FatFs)
    requires fs.Valid()
    ensures |fs.media| == fs.g.nsect && fs.durable < |fs.cuts| && fs.g.Valid()
    ensures fs.g.Fat(fs.media) == fs.cuts[fs.durable]
    ensures fs.cuts[|fs.cuts| - 1] == fs.fat && |fs.cuts| == |fs.log| + 1
    ensures forall i :: fs.durable <= i < |fs.log| ==> fs.wflag && fs.log[i].sector == fs.winsect
    ensures forall s: nat :: s < |fs.media| && !fs.g.InFat2(s) && !fs.g.IsFsInfo(s) && s !in fs.direct
                           ==> s < |Replay(fs.base, fs.log[..fs.durable])|
                               && fs.media[s] == Replay(fs.base, fs.log[..fs.durable])[s]
  {
    hide Geometry.Fat, CopiesEqual;
    FatOfAgree(fs.g, fs.direct, fs.media, Replay(fs.base, fs.log[..fs.durable]));
    FatOfAgree(fs.g, fs.direct, fs.View(), Replay(fs.base, fs.log));
    assert fs.log[..|fs.log|] == fs.log;
  }

  /** On FAT16 and FAT32 no cut leaves a link to a free cluster on the drive. */
  lemma DriveNeverDangles(fs: FatFs)
    requires fs.Valid() && CutsHold(fs.g.fsType, fs.cuts)
    ensures fs.g.Valid() && |fs.media| == fs.g.nsect && NoDangling(fs.g.Fat(fs.media))
  {
    hide FatFs.Valid, Geometry.Fat, NoDangling;
    DriveHoldsPrefix(fs);
  }

  /** A link stored with `put_fat` is read back by `get_fat`, whatever the width of the entries;
      every other entry reads as before. */
  method StoreThenLoad(fs: FatFs, c: nat, val: nat, d: nat) returns (ok: bool, loaded: nat)
    requires fs.Valid() && 2 <= c < fs.g.nFatent && 2 <= d < fs.g.nFatent && (val < fs.g.nFatent || val == LAST_LINK)
    modifies fs`winsect, fs`wflag, fs`media, fs`durable, fs`faults, fs`log, fs`fat, fs`cuts, fs.win
    ensures fs.Valid() && |old(fs.fat)| == fs.g.nFatent && (!ok ==> fs.faults > old(fs.faults))
    ensures ok && c == d && val < fs.g.nFatent ==> loaded == val
    ensures ok && c == d && val == LAST_LINK ==> loaded >= fs.g.nFatent
    ensures ok && c != d ==> loaded == old(fs.fat)[d]
  {
    hide *;
    fs.Facts();
    fs.g.KeptLinks();
    LastLinkSmall();
    var res := fs.PutFat(c, val);
    loaded := 0;
    ok := res == FR_OK;
    if ok {
      loaded := fs.GetFat(d);
      ok := loaded != ALL_ONES;
    }
  }

  lemma LastLinkSmall()
    ensures LAST_LINK < 0x1000_0000
  {
  }
}
