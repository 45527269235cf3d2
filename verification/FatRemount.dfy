/** Mounting a volume whose geometry is known, and what is known of it after it was unmounted. */
module FatRemount {
  import opened Bytes
  import opened FatEntry
  import opened FatVolume
  import opened FatHeap
  import opened FatChain

  /** The boot sector says that the sector behind it is FSINFO. */
  ghost predicate HasInfo(g: Geometry, v: seq<Sector>) {
    g.fsType == FAT32 && g.volbase + 1 < |v| && v[g.volbase][48] == 1 && v[g.volbase][49] == 0
  }

  /** What mounting takes from the drive as the number of free clusters. */
  ghost predicate OnDrive(g: Geometry, v: seq<Sector>, free: nat) {
    if HasInfo(g, v) && IsInfo(v[g.volbase + 1]) then Le32(v[g.volbase + 1], 488) == free else free == ALL_ONES
  }

  /** The end of `find_volume`: the window is on the boot sector. */
  method Mount(g: Geometry, media: seq<Sector>) returns (fs: FatFs)
    requires g.Valid() && |media| == g.nsect
    ensures fresh(fs) && fresh(fs.win) && fs.Valid() && fs.g == g && fs.media == media && !fs.wflag
    ensures fs.fat == g.Fat(media)
    ensures fs.faults == 0 ==> OnDrive(g, media, fs.freeClust)
    ensures fs.faults == 0 && HasInfo(g, media) && IsInfo(media[g.volbase + 1]) ==>
              fs.fsiFlag == 0 && InfoHolds(media[g.volbase + 1], fs.freeClust, fs.lastClust)
  {
    hide *;
    InfoPlace(g, media);
    fs := new FatFs(g, media, g.volbase, NoCount(), NoCount(), 0x80);
    fs.LoadFsInfo();
    HasInfoIs(g, media);
    OnDriveIs(g, media, fs.freeClust, fs.lastClust);
    fs.Facts();
    fs.CleanFacts();
    FatStays(g, media, fs.View());
  }

  function NoCount(): (r: dword) ensures r == ALL_ONES { ALL_ONES }

  lemma InfoPlace(g: Geometry, v: seq<Sector>)
    requires g.Valid() && |v| == g.nsect
    ensures g.volbase < g.fatbase && g.volbase < |v| <= ALL_ONES && !g.InFat2(g.volbase) && !g.IsFsInfo(g.volbase)
    ensures g.fsType == FAT32 ==> g.volbase + 1 < |v|
  {
  }

  lemma HasInfoIs(g: Geometry, v: seq<Sector>)
    requires g.volbase < |v|
    ensures HasInfo(g, v)
          <==> g.fsType == FAT32 && g.volbase + 1 < |v| && v[g.volbase][48] == 1 && v[g.volbase][49] == 0
  {
  }

  lemma OnDriveIs(g: Geometry, v: seq<Sector>, free: nat, last: nat)
    ensures HasInfo(g, v) && InfoHolds(v[g.volbase + 1], free, last) ==> OnDrive(g, v, free) && IsInfo(v[g.volbase + 1])
    ensures HasInfo(g, v) && !IsInfo(v[g.volbase + 1]) && free == ALL_ONES ==> OnDrive(g, v, free)
    ensures !HasInfo(g, v) && free == ALL_ONES ==> OnDrive(g, v, free)
  {
    hide IsInfo, Le32;
  }

  lemma FatStays(g: Geometry, v: seq<Sector>, v': seq<Sector>)
    requires g.Valid() && |v| == g.nsect && SameSectors(g, v', v)
    ensures g.Fat(v') == g.Fat(v)
  {
    FatKept(g, v', v);
  }

  lemma BootStays(g: Geometry, v: seq<Sector>, v': seq<Sector>)
    requires g.Valid() && |v| == g.nsect && SameSectors(g, v, v')
    ensures HasInfo(g, v') <==> HasInfo(g, v)
  {
    InfoPlace(g, v);
  }

  lemma Saved(g: Geometry, v: seq<Sector>, m: seq<Sector>, free: nat, last: nat, free': nat, last': nat, f: seq<nat>)
    requires g.Valid() && |v| == |m| == g.nsect && SameSectors(g, v, m)
    ensures g.Fat(m) == g.Fat(v) && (HasInfo(g, m) <==> HasInfo(g, v)) && (HasInfo(g, m) ==> g.fsType == FAT32)
    ensures HasInfo(g, m) && InfoHolds(m[g.volbase + 1], free, last) ==> IsInfo(m[g.volbase + 1])
    ensures HasInfo(g, m) && InfoHolds(m[g.volbase + 1], free, last) && InfoHolds(m[g.volbase + 1], free', last') ==>
              free == free' && last == last'
    ensures OnDrive(g, m, free') && !HasInfo(g, m) ==> Exact(free', f)
  {
    FatStays(g, m, v);
    BootStays(g, v, m);
    hide IsInfo, Le32, Geometry.Fat;
  }

  /** Unmount and mount again: the counts that were to be saved are those that come back, so that a right free count
      stays right. */
  method SyncAndMount(fs: FatFs) returns (res: FResult, fs': FatFs)
    requires fs.Valid()
    modifies fs, fs.win
    ensures fs'.Valid() && fs'.g == fs.g && fs.faults >= old(fs.faults)
    ensures res == FR_OK && fs.faults == old(fs.faults) ==> fs'.fat == old(fs.fat)
    ensures res == FR_OK && fs.faults == old(fs.faults) && fs'.faults == 0 && HasInfo(fs.g, old(fs.View()))
            && old(fs.fsiFlag) == 1 ==>
              fs'.freeClust == old(fs.freeClust) && fs'.lastClust == old(fs.lastClust)
    ensures res == FR_OK && fs.faults == old(fs.faults) && fs'.faults == 0 && old(fs.fsiFlag) == 1
            && Exact(old(fs.freeClust), old(fs.fat)) ==>
              Exact(fs'.freeClust, fs'.fat)
  {
    hide *;
    fs.Facts();
    ghost var v, f := fs.View(), fs.fat;
    res := fs.SyncFs();
    fs.Facts();
    ghost var v1 := fs.View();
    FatStays(fs.g, v1, v);
    BootStays(fs.g, v, v1);
    fs' := Mount(fs.g, fs.media);
    if res == FR_OK {
      Saved(fs.g, v1, fs.media, old(fs.freeClust), old(fs.lastClust), fs'.freeClust, fs'.lastClust, f);
    }
  }
}
