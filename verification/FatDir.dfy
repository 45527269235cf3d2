/** Directories: positions in a table of entries, searching, allocating, registering and removing. */
module FatDir {
  import opened Bytes
  import opened FatEntry
  import opened FatVolume
  import opened FatHeap
  import opened FatChain
  import opened FatData
  import opened FatApart
  import opened FatDirState

  class Dir {
    const fs: FatFs
    const sclust: nat
    var index: nat
    var clust: nat
    var sect: nat
    var off: nat          // offset of the entry in the window
    var fn: seq<byte>     // the name searched for or registered
    ghost var chain: seq<nat>

    /** The table is in one piece. */
    ghost predicate OK()
      reads `chain, fs, fs.win
    {
      fs.Valid() && TableOK(fs.g, fs.fat, sclust, chain)
    }

    ghost function Secs(): seq<nat>
      requires Clusters(fs.g, chain)
      reads `chain
    {
      TableSecs(fs.g, chain)
    }

    /** The slots of the directory, as the window shows them. */
    ghost function Table(): (slots: seq<Slot>)
      reads `chain, fs`winsect, fs`media, fs.win
    {
      if Clusters(fs.g, chain) && SectorsIn(fs.View(), TableSecs(fs.g, chain)) then
          Slots(fs.View(), TableSecs(fs.g, chain)) else []
    }

    /** The current entry. */
    ghost function Entry(): Slot
      reads `chain, `index, fs`winsect, fs`media, fs.win
    {
      if index < |Table()| then Table()[index] else Blank()
    }

    lemma EntryIs()
      ensures Entry() == if index < |Table()| then Table()[index] else Blank()
    {
    }

    /** The object is at slot `i`. */
    ghost predicate At(i: nat)
      reads `chain, `index, `clust, `sect, `off
    {
      index == i < 0x1_0000 && fs.g.csize >= 1 && Clusters(fs.g, chain) && PlaceOf(fs.g, chain, i, sect, clust, off)
    }

    /** A directory object for the table that starts at `sclust`, looking for `fn`. */
    constructor (fs: FatFs, sclust: nat, fn: seq<byte>, ghost chain: seq<nat>)
      requires fs.Valid() && TableOK(fs.g, fs.fat, sclust, chain)
      ensures OK() && this.fs == fs && this.sclust == sclust && this.fn == fn && this.chain == chain
    {
      hide *;
      this.fs, this.sclust, this.fn, this.chain := fs, sclust, fn, chain;
      index, clust, sect, off := 0, 0, 0, 0;
      new;
      OKIntro();
    }

    lemma OKIs()
      requires OK()
      ensures fs.Valid() && TableOK(fs.g, fs.fat, sclust, chain) && fs.g.csize >= 1 && Clusters(fs.g, chain)
      ensures |Table()| == 16 * |TableSecs(fs.g, chain)| && SectorsIn(fs.View(), TableSecs(fs.g, chain))
      ensures Table() == Slots(fs.View(), TableSecs(fs.g, chain))
    {
      hide TableOK, FatFs.Valid;
      fs.Facts();
      TableFacts(fs.g, fs.fat, sclust, chain);
      TableSectorsIn(fs.g, fs.fat, sclust, chain, fs.View());
    }

    lemma OKIntro()
      requires fs.Valid() && TableOK(fs.g, fs.fat, sclust, chain)
      ensures OK()
    {
    }

    lemma AtIs(i: nat)
      requires At(i)
      ensures index == i < 0x1_0000 && fs.g.csize >= 1 && Clusters(fs.g, chain)
      ensures PlaceOf(fs.g, chain, i, sect, clust, off)
      ensures i / 16 < |TableSecs(fs.g, chain)| && sect == TableSecs(fs.g, chain)[i / 16] && off == 32 * (i % 16) <= 480
    {
    }

    lemma AtIntro(i: nat)
      requires index == i < 0x1_0000 && fs.g.csize >= 1 && Clusters(fs.g, chain)
      requires PlaceOf(fs.g, chain, i, sect, clust, off)
      ensures At(i)
    {
    }

    /** A step that shows every sector outside the FATs as before keeps the table. */
    lemma Same(v: seq<Sector>, t: seq<Slot>)
      requires fs.Valid() && TableOK(fs.g, fs.fat, sclust, chain) && Clusters(fs.g, chain) && fs.g.Valid()
      requires |v| == |fs.View()| == fs.g.nsect && SectorsIn(v, TableSecs(fs.g, chain))
      requires t == Slots(v, TableSecs(fs.g, chain))
      requires forall s: nat :: s < |v| && !fs.g.InFat1(s) && !fs.g.InFat2(s) && !fs.g.IsFsInfo(s) ==>
                fs.View()[s] == v[s]
      ensures OK() && Table() == t
    {
      hide TableOK, FatFs.Valid, SectorsIn, Slots, Geometry.Valid, Geometry.InFat1, Geometry.InFat2, Geometry.IsFsInfo;
      TableKept(fs.g, fs.fat, sclust, chain, v, fs.View());
    }

    lemma SameStep(a: Snapshot, t: seq<Slot>)
      requires fs.Valid() && TableOK(fs.g, fs.fat, sclust, chain) && Clusters(fs.g, chain) && fs.g.Valid()
      requires FatStep(fs.g, a, fs.Now()) && |a.view| == |fs.View()| == fs.g.nsect
      requires SectorsIn(a.view, TableSecs(fs.g, chain))
      requires t == Slots(a.view, TableSecs(fs.g, chain))
      ensures OK() && Table() == t
    {
      hide TableOK, FatFs.Valid, SectorsIn, Slots, Geometry.Valid, Geometry.InFat1, Geometry.InFat2, Geometry.IsFsInfo;
      hide FatFs.View;
      Same(a.view, t);
    }

    // ---------- Moving about ----------

    /** Go to slot `idx`, by following the chain from its start. */
    method SetIndex(idx: nat) returns (res: FResult)
      requires OK() && idx < 0x1_0000
      modifies `index, `clust, `sect, `off, fs`winsect, fs`wflag, fs`media, fs`durable, fs`faults, fs.win
      ensures OK() && Table() == old(Table()) && fs.faults >= old(fs.faults)
      ensures res == FR_OK || res == FR_INT_ERR || (res == FR_DISK_ERR && fs.faults > old(fs.faults))
      ensures res == FR_OK ==> idx < |Table()| && At(idx)
      ensures res == FR_INT_ERR ==> idx >= |Table()|
      ensures DirStays(fs.g, old(fs.fat), old(chain), old(fs.Now()), fs.fat, chain, fs.Now())
    {
      hide *;
      OKIs();
      fs.Facts();
      TableFacts(fs.g, fs.fat, sclust, chain);
      StartOfIs(fs.g, sclust);
      DirSame(fs.g, fs.fat, chain, fs.Now());
      index := idx;
      var clst := sclust;
      res := FR_INT_ERR;
      StartInRange(fs.g, fs.fat, sclust, chain);
      if clst == 1 || clst >= fs.g.nFatent { return; }
      if clst == 0 && fs.g.fsType == FAT32 { clst := fs.g.dirbase; }
      if clst == 0 {
        RootOK(fs.g, fs.fat, sclust, chain);
        RootPlace(fs.g, idx);
        if idx >= fs.g.nRootdir { return; }
        clust, sect, off := 0, fs.g.dirbase + idx / 16, 32 * (idx % 16);
        AtIntro(idx);
        res := FR_OK;
      } else {
        var rest;
        res, clst, rest := Walk(clst, idx);
        if res == FR_OK {
          var base := Clust2Sect(fs.g, clst);
          clust, sect, off := clst, base + rest / 16, 32 * (rest % 16);
          AtIntro(idx);
        }
      }
    }

    /** Follow the chain for the whole clusters among `idx` slots. */
    method Walk(start: nat, idx: nat) returns (res: FResult, clst: nat, rest: nat)
      requires OK() && chain != [] && start == StartOf(fs.g, sclust)
      modifies fs`winsect, fs`wflag, fs`media, fs`durable, fs`faults, fs.win
      ensures OK() && Table() == old(Table()) && fs.faults >= old(fs.faults)
      ensures res == FR_OK || res == FR_INT_ERR || (res == FR_DISK_ERR && fs.faults > old(fs.faults))
      ensures res == FR_OK ==> idx < |Table()| && fs.g.nFatent >= 2 && fs.g.csize >= 1 && Clusters(fs.g, chain)
      ensures res == FR_OK ==>
                && Clust2Sect(fs.g, clst) != 0
                && PlaceOf(fs.g, chain, idx, Clust2Sect(fs.g, clst) + rest / 16, clst, 32 * (rest % 16))
      ensures res == FR_INT_ERR ==> idx >= |Table()|
      ensures DirStays(fs.g, old(fs.fat), old(chain), old(fs.Now()), fs.fat, chain, fs.Now())
    {
      hide *;
      OKIs();
      fs.Facts();
      clst, rest, res := start, idx, FR_OK;
      ghost var j, a0 := 0, fs.Now();
      DirSame(fs.g, fs.fat, chain, a0);
      WalkFrom(fs.g, fs.fat, sclust, chain, idx);
      while rest >= 16 * fs.g.csize && res == FR_OK
        invariant OK() && Table() == old(Table()) && fs.faults >= old(fs.faults) && fs.g.csize >= 1
        invariant || res == FR_OK || (res == FR_INT_ERR && idx >= |Table()|)
                  || (res == FR_DISK_ERR && fs.faults > old(fs.faults))
        invariant res == FR_OK ==> WalkedTo(fs.g, chain, idx, j, clst, rest)
        invariant DirStays(fs.g, fs.fat, chain, a0, fs.fat, chain, fs.Now())
        decreases rest, if res == FR_OK then 1 else 0
      {
        OKIs();
        fs.Facts();
        ghost var a, t := fs.Now(), Table();
        WalkOn(fs.g, fs.fat, sclust, chain, idx, j, clst, rest);
        var next := fs.GetFat(clst);
        fs.Facts();
        SameStep(a, t);
        DirFat(fs.g, fs.fat, chain, a, fs.Now());
        DirTrans(fs.g, fs.fat, chain, a0, fs.fat, chain, a, fs.fat, chain, fs.Now());
        if next == ALL_ONES {
          res := FR_DISK_ERR;
        } else if next < 2 || next >= fs.g.nFatent {
          res := FR_INT_ERR;
          OKIs();
        } else {
          clst, rest, j := next, rest - 16 * fs.g.csize, j + 1;
        }
      }
      if res == FR_OK {
        OKIs();
        WalkDone(fs.g, fs.fat, sclust, chain, idx, j, clst, rest);
        PlaceInside(fs.g, chain, idx, Clust2Sect(fs.g, clst) + rest / 16, clst, 32 * (rest % 16));
      }
    }

    /** The next slot of the table as it is; `atEnd` if the chain would have to be stretched. */
    method Advance() returns (res: FResult, atEnd: bool)
      requires OK() && At(index)
      modifies `index, `clust, `sect, `off, fs`winsect, fs`wflag, fs`media, fs`durable, fs`faults, fs.win
      ensures OK() && Table() == old(Table()) && fs.faults >= old(fs.faults)
      ensures res == FR_OK || res == FR_NO_FILE || (res == FR_DISK_ERR && fs.faults > old(fs.faults))
      ensures res == FR_OK && !atEnd ==> At(old(index) + 1) && old(index) + 1 < |Table()|
      ensures res == FR_OK && atEnd ==>
                index == old(index) && clust == old(clust) && chain != [] && clust == chain[|chain| - 1]
                                        && old(index) + 1 == |Table()| && old(index) + 1 < 0x1_0000
      ensures res == FR_NO_FILE ==> old(index) + 1 == 0x1_0000 || (old(index) + 1 >= |Table()| && chain == [])
      ensures DirStays(fs.g, old(fs.fat), old(chain), old(fs.Now()), fs.fat, chain, fs.Now())
    {
      hide *;
      OKIs();
      AtIs(index);
      DirSame(fs.g, fs.fat, chain, fs.Now());
      SectPositive(fs.g, fs.fat, sclust, chain, index / 16);
      res, atEnd := FR_OK, false;
      var i := index + 1;
      if i % 0x1_0000 == 0 || sect == 0 { return FR_NO_FILE, false; }
      if i % 16 == 0 {
        res, atEnd := ChangeSector(i);
        if res != FR_OK || atEnd { return; }
      } else {
        NextInSector(fs.g, chain, index, sect, clust, off);
      }
      OKIs();
      index := i;
      off := 32 * (i % 16);
      AtIntro(i);
      PlaceInside(fs.g, chain, i, sect, clust, off);
    }

    /** Behind the last slot of a sector. */
    method ChangeSector(i: nat) returns (res: FResult, atEnd: bool)
      requires OK() && At(index) && i == index + 1 && i % 16 == 0
      modifies `clust, `sect, fs`winsect, fs`wflag, fs`media, fs`durable, fs`faults, fs.win
      ensures OK() && Table() == old(Table()) && fs.faults >= old(fs.faults)
      ensures || res == FR_OK || (res == FR_NO_FILE && i >= |Table()| && chain == [])
              || (res == FR_DISK_ERR && fs.faults > old(fs.faults))
      ensures res == FR_OK && !atEnd ==>
                fs.g.csize >= 1 && Clusters(fs.g, chain) && PlaceOf(fs.g, chain, i, sect, clust, 32 * (i % 16))
      ensures res == FR_OK && atEnd ==>
                clust == old(clust) && chain != [] && clust == chain[|chain| - 1] && i == |Table()|
      ensures DirStays(fs.g, old(fs.fat), old(chain), old(fs.Now()), fs.fat, chain, fs.Now())
    {
      hide *;
      OKIs();
      AtIs(index);
      DirSame(fs.g, fs.fat, chain, fs.Now());
      ClustOf(fs.g, fs.fat, sclust, chain, index, sect, clust, off);
      res, atEnd := FR_OK, false;
      ghost var s0 := sect;
      sect := sect + 1;
      if clust == 0 {
        RootOK(fs.g, fs.fat, sclust, chain);
        NextInRoot(fs.g, index, s0, clust, off);
        if i >= fs.g.nRootdir { res := FR_NO_FILE; }
      } else if i / 16 % fs.g.csize == 0 {
        res, atEnd := EnterNext(s0, i);
      } else {
        NextInCluster(fs.g, chain, index, s0, clust, off);
      }
    }

    /** Behind the last slot of a cluster. */
    method EnterNext(ghost s0: nat, i: nat) returns (res: FResult, atEnd: bool)
      requires OK() && fs.g.csize >= 1 && Clusters(fs.g, chain) && PlaceOf(fs.g, chain, index, s0, clust, off)
      requires clust != 0 && chain != []
      requires i == index + 1 && i % 16 == 0 && i / 16 % fs.g.csize == 0
      modifies `clust, `sect, fs`winsect, fs`wflag, fs`media, fs`durable, fs`faults, fs.win
      ensures OK() && Table() == old(Table()) && fs.faults >= old(fs.faults)
      ensures res == FR_OK || (res == FR_DISK_ERR && fs.faults > old(fs.faults))
      ensures res == FR_OK && !atEnd ==>
                fs.g.csize >= 1 && Clusters(fs.g, chain) && PlaceOf(fs.g, chain, i, sect, clust, 0)
      ensures res == FR_OK && atEnd ==> clust == old(clust) == chain[|chain| - 1] && i == |Table()|
      ensures DirStays(fs.g, old(fs.fat), old(chain), old(fs.Now()), fs.fat, chain, fs.Now())
    {
      hide *;
      OKIs();
      fs.Facts();
      DirNextCluster(fs.g, fs.fat, sclust, chain, index, s0, clust, off);
      ghost var a, t := fs.Now(), Table();
      var clst := fs.GetFat(clust);
      fs.Facts();
      SameStep(a, t);
      DirFat(fs.g, fs.fat, chain, a, fs.Now());
      OKIs();
      res, atEnd := FR_OK, false;
      if clst <= 1 {
        res := FR_INT_ERR;
      } else if clst == ALL_ONES {
        res := FR_DISK_ERR;
      } else if clst >= fs.g.nFatent {
        atEnd := true;
      } else {
        clust := clst;
        sect := Clust2Sect(fs.g, clst);
      }
    }

    /** `dir_next` without stretching. */
    method Next() returns (res: FResult)
      requires OK() && At(index)
      modifies `index, `clust, `sect, `off, fs`winsect, fs`wflag, fs`media, fs`durable, fs`faults, fs.win
      ensures OK() && Table() == old(Table()) && fs.faults >= old(fs.faults)
      ensures res == FR_OK || res == FR_NO_FILE || (res == FR_DISK_ERR && fs.faults > old(fs.faults))
      ensures res == FR_OK ==> At(old(index) + 1) && old(index) + 1 < |Table()|
      ensures res == FR_NO_FILE ==> old(index) + 1 == 0x1_0000 || old(index) + 1 >= |Table()|
      ensures DirStays(fs.g, old(fs.fat), old(chain), old(fs.Now()), fs.fat, chain, fs.Now())
    {
      hide *;
      var atEnd;
      res, atEnd := Advance();
      if res == FR_OK && atEnd { res := FR_NO_FILE; }
    }

    /** Reaching slot `i` step by step leads to the same place as going there directly. */
    method StepTo(i: nat) returns (res: FResult)
      requires OK() && i < 0x1_0000
      modifies `index, `clust, `sect, `off, fs`winsect, fs`wflag, fs`media, fs`durable, fs`faults, fs.win
      ensures OK() && Table() == old(Table()) && fs.faults >= old(fs.faults)
      ensures i < |Table()| ==> (res == FR_OK && At(i)) || (res == FR_DISK_ERR && fs.faults > old(fs.faults))
      ensures i >= |Table()| ==> res != FR_OK
      ensures DirStays(fs.g, old(fs.fat), old(chain), old(fs.Now()), fs.fat, chain, fs.Now())
    {
      hide *;
      OKIs();
      fs.Facts();
      TableFacts(fs.g, fs.fat, sclust, chain);
      res := SetIndex(0);
      if res == FR_OK { AtIs(0); }
      var k := 0;
      while k < i && res == FR_OK
        invariant k <= i && OK() && Table() == old(Table()) && fs.faults >= old(fs.faults) && |Table()| > 0
        invariant res == FR_OK ==> At(k) && index == k < |Table()|
        invariant res != FR_OK ==>
                  (res == FR_DISK_ERR && fs.faults > old(fs.faults)) || (res == FR_NO_FILE && k >= |Table()|)
        invariant DirStays(fs.g, fs.fat, chain, old(fs.Now()), fs.fat, chain, fs.Now())
        decreases i - k
      {
        AtIs(k);
        ghost var a := fs.Now();
        res := Next();
        DirTrans(fs.g, fs.fat, chain, old(fs.Now()), fs.fat, chain, a, fs.fat, chain, fs.Now());
        k := k + 1;
        if res == FR_OK { AtIs(k); }
      }
    }

    // ---------- Searching ----------

    /** The current entry, through the window. */
    method Peek() returns (res: FResult, e: Slot)
      requires OK() && At(index)
      modifies fs`winsect, fs`wflag, fs`media, fs`durable, fs`faults, fs.win
      ensures OK() && Table() == old(Table()) && fs.faults >= old(fs.faults) && index < |Table()|
      ensures res == FR_OK ==> e == Table()[index] && fs.winsect == sect
      ensures res != FR_OK ==> res == FR_DISK_ERR && fs.faults > old(fs.faults)
      ensures DirStays(fs.g, old(fs.fat), old(chain), old(fs.Now()), fs.fat, chain, fs.Now())
    {
      hide *;
      OKIs();
      AtIs(index);
      fs.Facts();
      PlaceInside(fs.g, chain, index, sect, clust, off);
      TableSector(fs.g, fs.fat, sclust, chain, index / 16);
      ghost var v, t, a := fs.View(), Table(), fs.Now();
      e := Blank();
      res := fs.MoveWindow(sect);
      fs.Facts();
      SameIs(fs.g, v, fs.View());
      Same(v, t);
      ReachAt(fs.g, chain, index / 16);
      WindowStep(fs.g, Reach(fs.g, chain), fs.fat, a, v, fs.Now(), sect, v[sect]);
      DirWindow(fs.g, fs.fat, chain, a, fs.Now());
      OKIs();
      if res == FR_OK {
        SlotAtIs(fs.View(), TableSecs(fs.g, chain), index);
        e := fs.win[off..off + 32];
      }
    }

    /** Search the directory for the name. */
    method Find() returns (res: FResult)
      requires OK() && DirOK(Table()) && Storable(fn)
      modifies `index, `clust, `sect, `off, fs`winsect, fs`wflag, fs`media, fs`durable, fs`faults, fs.win
      ensures OK() && Table() == old(Table()) && fs.faults >= old(fs.faults)
      ensures res == FR_OK || res == FR_NO_FILE || (res == FR_DISK_ERR && fs.faults > old(fs.faults))
      ensures res == FR_OK ==> At(index) && index < |Table()| && Live(Table()[index]) && Name(Table()[index]) == fn
      ensures res == FR_OK ==> fn in Bindings(Table()) && Bindings(Table())[fn] == Table()[index]
      ensures res == FR_NO_FILE ==> fn !in Bindings(Table())
      ensures DirStays(fs.g, old(fs.fat), old(chain), old(fs.Now()), fs.fat, chain, fs.Now())
      ensures res == FR_OK ==> fs.winsect == sect
      ensures res == FR_OK ==> Holds(Table()[index], fn)
      ensures res == FR_NO_FILE ==> forall i :: 0 <= i < |Table()| ==> !Holds(Table()[i], fn)
    {
      hide *;
      OKIs();
      TableFacts(fs.g, fs.fat, sclust, chain);
      fs.Facts();
      res := SetIndex(0);
      if res != FR_OK { return; }
      AtIs(0);
      var found := false;
      NothingBefore(Table(), fn);
      while res == FR_OK && !found
        invariant OK() && Table() == old(Table()) && fs.faults >= old(fs.faults)
        invariant || res == FR_OK || (res == FR_NO_FILE && fn !in Bindings(Table()))
                  || (res == FR_DISK_ERR && fs.faults > old(fs.faults))
        invariant res == FR_OK ==> At(index) && index < |Table()| && index < 0x1_0000
        invariant (found ==> res == FR_OK) && (res == FR_OK && !found ==> NotBefore(Table(), fn, index))
        invariant found ==> fs.winsect == sect
        invariant res == FR_OK && found ==> Live(Table()[index]) && Name(Table()[index]) == fn
        invariant DirStays(fs.g, fs.fat, chain, old(fs.Now()), fs.fat, chain, fs.Now())
        decreases if res == FR_OK && !found then 0x1_0000 - index else 0
      {
        var e;
        ghost var a := fs.Now();
        res, e := Peek();
        DirTrans(fs.g, fs.fat, chain, old(fs.Now()), fs.fat, chain, a, fs.fat, chain, fs.Now());
        if res == FR_OK {
          if e[0] == 0 {
            EndHere(Table(), fn, index);
            res := FR_NO_FILE;
          } else if e[11] / 8 % 2 == 0 && e[..11] == fn {
            FoundHere(e, fn);
            found := true;
          } else {
            ghost var k := index;
            NotHere(Table(), fn, index);
            ghost var a1 := fs.Now();
            res := Next();
            DirTrans(fs.g, fs.fat, chain, old(fs.Now()), fs.fat, chain, a1, fs.fat, chain, fs.Now());
            if res == FR_OK { AtIs(k + 1); }
            if res == FR_NO_FILE { EndHere(Table(), fn, k + 1); }
          }
        }
      }
      if found { FoundBinding(Table(), fn, index); }
      BoundIffHeld(Table(), fn);
      if res == FR_OK { HoldsIs(Table()[index], fn); }
    }

    // ---------- Stretching ----------

    /** Fill a new cluster of the table with zeros. */
    method ZeroFill(clst: nat) returns (res: FResult)
      requires fs.Valid() && DataFits(fs.g) && 2 <= clst < fs.g.nFatent
      modifies fs`winsect, fs`wflag, fs`media, fs`durable, fs`direct, fs`faults, fs`log, fs`fat, fs`cuts, fs.win
      ensures fs.Valid() && fs.faults >= old(fs.faults) && fs.fat == old(fs.fat)
      ensures CutsHold(fs.g.fsType, old(fs.cuts)) && HeapOK(fs.fat) ==> CutsHold(fs.g.fsType, fs.cuts)
      ensures res == FR_OK || (res == FR_DISK_ERR && fs.faults > old(fs.faults))
      ensures res == FR_OK ==> Zeroed(fs.g, old(fs.View()), fs.View(), clst, fs.g.csize)
      ensures res == FR_OK ==>
                Clusters(fs.g, [clst]) && Within(fs.g, {}, Reach(fs.g, [clst]), fs.fat, old(fs.Now()), fs.fat, fs.Now())
      ensures res == FR_OK ==> fs.direct <= old(fs.direct) && forall x :: x in Reach(fs.g, [clst]) ==> x !in fs.direct
    {
      hide *;
      fs.Facts();
      Clust2SectIs(fs.g, ClustSmall(fs.g, clst));
      ClusterFits(fs.g, clst);
      ghost var v0, a0 := fs.View(), fs.Now();
      OneCluster(fs.g, clst);
      res := fs.SyncWindow();
      fs.Facts();
      FatWithin(fs.g, {}, Reach(fs.g, [clst]), fs.fat, fs.fat, a0, fs.Now());
      ZeroedStart(fs.g, v0, fs.View(), clst);
      var c := 0;
      var first := Clust2Sect(fs.g, clst);
      while c < fs.g.csize && res == FR_OK
        invariant fs.Valid() && fs.faults >= old(fs.faults) && fs.fat == old(fs.fat) && c <= fs.g.csize
        invariant CutsHold(fs.g.fsType, old(fs.cuts)) && HeapOK(fs.fat) ==> CutsHold(fs.g.fsType, fs.cuts)
        invariant res == FR_OK || (res == FR_DISK_ERR && fs.faults > old(fs.faults))
        invariant res == FR_OK ==>
                  !fs.wflag && Zeroed(fs.g, v0, fs.View(), clst, c) && (c > 0 ==> fs.win[..] == Zeros())
        invariant Clusters(fs.g, [clst]) && Within(fs.g, {}, Reach(fs.g, [clst]), fs.fat, a0, fs.fat, fs.Now())
        invariant fs.direct <= old(fs.direct)
        invariant forall x :: Sec(fs.g, clst) <= x < Sec(fs.g, clst) + c ==> x !in fs.direct
        decreases fs.g.csize - c, if res == FR_OK then 1 else 0
      {
        ghost var a := fs.Now();
        res := ZeroNext(clst, c, first + c, v0);
        WithinTrans(fs.g, {}, Reach(fs.g, [clst]), fs.fat, a0, fs.fat, a, fs.fat, fs.Now());
        c := c + 1;
      }
      if res == FR_OK {
        ghost var a := fs.Now();
        Rewind(clst, first, v0);
        forall x | x in Reach(fs.g, [clst]) ensures x !in fs.direct { ReachOnly(fs.g, clst, x); }
        WithinTrans(fs.g, {}, Reach(fs.g, [clst]), fs.fat, a0, fs.fat, a, fs.fat, fs.Now());
      }
    }

    /** One more sector of it. */
    method ZeroNext(clst: nat, c: nat, s: nat, ghost v0: seq<Sector>) returns (res: FResult)
      requires fs.Valid() && clst >= 2 && s == Sec(fs.g, clst) + c && fs.g.database <= s < fs.g.nsect && !fs.wflag
      requires Zeroed(fs.g, v0, fs.View(), clst, c)
      modifies fs`winsect, fs`wflag, fs`media, fs`durable, fs`direct, fs`faults, fs`log, fs`fat, fs`cuts, fs.win
      ensures fs.Valid() && fs.faults >= old(fs.faults) && fs.fat == old(fs.fat)
      ensures CutsHold(fs.g.fsType, old(fs.cuts)) && HeapOK(fs.fat) ==> CutsHold(fs.g.fsType, fs.cuts)
      ensures res == FR_OK || (res == FR_DISK_ERR && fs.faults > old(fs.faults))
      ensures res == FR_OK ==> !fs.wflag && Zeroed(fs.g, v0, fs.View(), clst, c + 1) && fs.win[..] == Zeros()
      ensures clst < fs.g.nFatent && c < fs.g.csize ==>
                Clusters(fs.g, [clst]) && Within(fs.g, {}, Reach(fs.g, [clst]), fs.fat, old(fs.Now()), fs.fat, fs.Now())
      ensures fs.direct == old(fs.direct) - {s}
    {
      hide *;
      fs.Facts();
      ghost var v, a := fs.View(), fs.Now();
      fs.Adopt(s);
      if HeapOK(fs.fat) { CutsMore(fs.g.fsType, old(fs.cuts), fs.fat); }
      ghost var c0 := fs.cuts;
      fs.ClearOnto(s);
      fs.Facts();
      ghost var v1, a1 := fs.View(), fs.Now();
      if HeapOK(fs.fat) { CutsMore(fs.g.fsType, c0, fs.fat); }
      res := fs.SyncWindow();
      fs.Facts();
      if clst < fs.g.nFatent && c < fs.g.csize {
        ReachCluster(fs.g, clst, c);
        WindowStep(fs.g, Reach(fs.g, [clst]), fs.fat, a, v[s := Zeros()], a1, s, Zeros());
        FatWithin(fs.g, {}, Reach(fs.g, [clst]), fs.fat, fs.fat, a1, fs.Now());
        WithinTrans(fs.g, {}, Reach(fs.g, [clst]), fs.fat, a, fs.fat, a1, fs.fat, fs.Now());
      }
      if res == FR_OK { ZeroedStep(fs.g, v0, v, v1, fs.View(), clst, c); }
    }

    /** Put the window back on the first sector. */
    method Rewind(clst: nat, first: nat, ghost v0: seq<Sector>)
      requires fs.Valid() && clst >= 2 && first == Sec(fs.g, clst) && fs.g.database <= first && !fs.wflag
      requires Zeroed(fs.g, v0, fs.View(), clst, fs.g.csize) && fs.win[..] == Zeros()
      modifies fs`winsect
      ensures fs.Valid() && fs.winsect == first && Zeroed(fs.g, v0, fs.View(), clst, fs.g.csize)
      ensures clst < fs.g.nFatent ==>
                Clusters(fs.g, [clst]) && Within(fs.g, {}, Reach(fs.g, [clst]), fs.fat, old(fs.Now()), fs.fat, fs.Now())
    {
      hide *;
      fs.Facts();
      fs.CleanFacts();
      ghost var v, a := fs.View(), fs.Now();
      ZeroedFirst(fs.g, v0, v, clst);
      ZeroedSame(fs.g, v0, v, fs.media, clst);
      ZeroedFirst(fs.g, v0, fs.media, clst);
      fs.Relabel(first);
      fs.Facts();
      ZeroedSame(fs.g, v0, v, fs.View(), clst);
      if clst < fs.g.nFatent {
        ReachCluster(fs.g, clst, 0);
        WindowStep(fs.g, Reach(fs.g, [clst]), fs.fat, a, v, fs.Now(), first, v[first]);
      }
    }

    /** Stretch the table by a blank cluster and go to its first slot. */
    method Stretch() returns (res: FResult)
      requires OK() && chain != [] && clust == chain[|chain| - 1] && index + 1 == |Table()| && index + 1 < 0x1_0000
      modifies `index, `clust, `sect, `off, `chain, fs`winsect, fs`wflag, fs`media, fs`durable, fs`direct, fs`faults
      modifies fs`log, fs`fat, fs`cuts, fs.win
      modifies fs`lastClust, fs`freeClust, fs`fsiFlag
      ensures fs.Valid() && fs.faults >= old(fs.faults)
      ensures CutsHold(fs.g.fsType, old(fs.cuts)) ==> CutsHold(fs.g.fsType, fs.cuts)
      ensures res != FR_DISK_ERR && Exact(old(fs.freeClust), old(fs.fat)) ==> Exact(fs.freeClust, fs.fat)
      ensures || res == FR_OK
              || (res == FR_DENIED && NoneFree(fs.fat) && OK() && Table() == old(Table()) && index == old(index))
                           || (res == FR_DISK_ERR && fs.faults > old(fs.faults))
      ensures res == FR_OK ==>
                OK() && At(old(index) + 1) && Table() == old(Table()) + seq(16 * fs.g.csize, _ => Blank())
      ensures res != FR_DISK_ERR ==> DirStays(fs.g, old(fs.fat), old(chain), old(fs.Now()), fs.fat, chain, fs.Now())
    {
      hide *;
      OKIs();
      fs.Facts();
      fs.g.KeptLinks();
      DirLastCluster(fs.g, fs.fat, sclust, chain);
      ghost var a, t, f, mark, l0 := fs.Now(), Table(), fs.fat, fs.g.Kept(LAST_LINK), fs.lastClust;
      var clst := CreateChain(fs, clust);
      fs.Facts();
      SoundIs(fs.g.fsType, f, fs.fat, old(fs.cuts), fs.cuts, old(fs.freeClust), fs.freeClust, clst != ALL_ONES);
      if clst != ALL_ONES { CreatedFresh(f, fs.fat, clust, SearchStart(clust, l0, fs.g.nFatent), mark, clst); }
      res := FR_DISK_ERR;
      if clst == 0 {
        res := FR_DENIED;
        DirFat(fs.g, f, chain, a, fs.Now());
        SameStep(a, t);
      } else if clst != 1 && clst != ALL_ONES {
        res := Extend(clst, f, mark, a);
      }
    }

    /** The chain has its new last cluster: blank it and move on to it. */
    method Extend(clst: nat, ghost f: seq<nat>, ghost mark: nat, ghost a: Snapshot) returns (res: FResult)
      requires fs.Valid() && TableOK(fs.g, f, sclust, chain) && chain != [] && 2 <= clst < |f| && f[clst] == 0
      requires mark >= |f|
      requires chain[|chain| - 1] < |f| && fs.fat == Stretched(f, chain[|chain| - 1], clst, mark)
      requires FatStep(fs.g, a, fs.Now()) && |a.view| == |a.media| == fs.g.nsect && Clusters(fs.g, chain)
      requires fs.g.csize >= 1
      requires index + 1 == 16 * |TableSecs(fs.g, chain)| && index + 1 < 0x1_0000
      modifies `index, `clust, `sect, `off, `chain, fs`winsect, fs`wflag, fs`media, fs`durable, fs`direct, fs`faults
      modifies fs`log, fs`fat, fs`cuts, fs.win
      ensures fs.Valid() && fs.faults >= old(fs.faults) && fs.fat == old(fs.fat)
      ensures CutsHold(fs.g.fsType, old(fs.cuts)) ==> CutsHold(fs.g.fsType, fs.cuts)
      ensures res == FR_OK || (res == FR_DISK_ERR && fs.faults > old(fs.faults))
      ensures res == FR_OK ==> OK() && At(old(index) + 1) && SectorsIn(a.view, TableSecs(fs.g, old(chain)))
      ensures res == FR_OK ==>
                Table() == Slots(a.view, TableSecs(fs.g, old(chain))) + seq(16 * fs.g.csize, _ => Blank())
      ensures res == FR_OK ==> DirStays(fs.g, f, old(chain), a, fs.fat, chain, fs.Now())
    {
      hide *;
      fs.Facts();
      ghost var v1, a1 := fs.View(), fs.Now();
      StepIs(fs.g, a, fs.Now());
      StretchedTable(fs.g, f, sclust, chain, clst, mark);
      TableHeap(fs.g, fs.fat, sclust, chain + [clst]);
      DirLastCluster(fs.g, f, sclust, chain);
      res := ZeroFill(clst);
      if res == FR_OK {
        fs.Facts();
        DirGrows(fs.g, f, chain, a, clst, mark, a1, fs.Now());
        StretchedSlots(fs.g, f, sclust, chain, clst, mark, a.view, v1, fs.View());
        NewPlace(fs.g, f, sclust, chain, clst, index + 1);
        chain := chain + [clst];
        clust := clst;
        sect := Clust2Sect(fs.g, clst);
        index := index + 1;
        off := 32 * (index % 16);
        OKIntro();
        OKIs();
        AtIntro(index);
      }
    }

    /** `dir_next` with stretching. */
    method NextOrStretch() returns (res: FResult)
      requires OK() && At(index)
      modifies `index, `clust, `sect, `off, `chain, fs`winsect, fs`wflag, fs`media, fs`durable, fs`direct, fs`faults
      modifies fs`log, fs`fat, fs`cuts, fs.win
      modifies fs`lastClust, fs`freeClust, fs`fsiFlag
      ensures fs.Valid() && fs.faults >= old(fs.faults)
      ensures CutsHold(fs.g.fsType, old(fs.cuts)) ==> CutsHold(fs.g.fsType, fs.cuts)
      ensures res != FR_DISK_ERR && Exact(old(fs.freeClust), old(fs.fat)) ==> Exact(fs.freeClust, fs.fat)
      ensures res == FR_OK || (res == FR_DISK_ERR && fs.faults > old(fs.faults))
           || ((res == FR_NO_FILE || res == FR_DENIED) && OK() && Table() == old(Table()))
      ensures res == FR_NO_FILE ==> old(index) + 1 == 0x1_0000 || (old(index) + 1 >= |Table()| && chain == [])
      ensures res == FR_DENIED ==> old(index) + 1 == |Table()| && NoneFree(fs.fat)
      ensures res == FR_OK ==> OK() && At(old(index) + 1) && old(index) + 1 < |Table()|
      ensures res == FR_OK ==> Longer(old(Table()), Table(), old(index) + 1)
      ensures res != FR_DISK_ERR ==> DirStays(fs.g, old(fs.fat), old(chain), old(fs.Now()), fs.fat, chain, fs.Now())
    {
      hide *;
      OKIs();
      fs.Facts();
      var atEnd;
      LongerSame(Table(), index + 1);
      res, atEnd := Advance();
      OKIs();
      if res == FR_OK && atEnd {
        fs.Facts();
        ghost var f1, c1, a1 := fs.fat, chain, fs.Now();
        LongerBy(Table(), 16 * fs.g.csize);
        res := Stretch();
        if res != FR_DISK_ERR { DirTrans(fs.g, f1, c1, old(fs.Now()), f1, c1, a1, fs.fat, chain, fs.Now()); }
      }
    }

    /** The current slot, if it is free; else on to the next one. */
    method TrySlot() returns (res: FResult, found: bool)
      requires OK() && DirOK(Table()) && At(index) && index < 0x1_0000 && NoFreeBefore(Table(), index)
      modifies `index, `clust, `sect, `off, `chain, fs`winsect, fs`wflag, fs`media, fs`durable, fs`direct, fs`faults
      modifies fs`log, fs`fat, fs`cuts, fs.win
      modifies fs`lastClust, fs`freeClust, fs`fsiFlag
      ensures fs.Valid() && fs.faults >= old(fs.faults)
      ensures CutsHold(fs.g.fsType, old(fs.cuts)) ==> CutsHold(fs.g.fsType, fs.cuts)
      ensures res != FR_DISK_ERR && Exact(old(fs.freeClust), old(fs.fat)) ==> Exact(fs.freeClust, fs.fat)
      ensures || res == FR_OK || (res == FR_DISK_ERR && fs.faults > old(fs.faults)) || res == FR_NO_FILE
              || res == FR_DENIED
      ensures res != FR_DISK_ERR ==> OK() && DirOK(Table()) && Bindings(Table()) == old(Bindings(Table()))
      ensures res != FR_DISK_ERR ==> Extended(old(Table()), Table())
      ensures res == FR_NO_FILE || res == FR_DENIED ==>
                NoFreeSlot(Table()) && (NoneFree(fs.fat) || chain == [] || |Table()| >= 0x1_0000)
      ensures res == FR_OK ==> At(index) && index < 0x1_0000 && NoFreeBefore(Table(), index)
      ensures res == FR_OK && !found ==> index == old(index) + 1
      ensures found ==> res == FR_OK && FirstFree(Table(), index)
      ensures res != FR_DISK_ERR ==> DirStays(fs.g, old(fs.fat), old(chain), old(fs.Now()), fs.fat, chain, fs.Now())
    {
      hide *;
      OKIs();
      fs.Facts();
      ghost var f0, c0, a0, k, t := fs.fat, chain, fs.Now(), index, Table();
      var e;
      found := false;
      ExtendedSame(t);
      res, e := Peek();
      OKIs();
      if res == FR_OK {
        if e[0] == 0xE5 || e[0] == 0 {
          FreeHere(t, k);
          found := true;
        } else {
          InUseHere(t, k);
          ghost var f2, c2, a2 := fs.fat, chain, fs.Now();
          res := NextOrStretch();
          if res != FR_DISK_ERR { DirTrans(fs.g, f0, c0, a0, f2, c2, a2, fs.fat, chain, fs.Now()); }
          if res == FR_OK {
            AtIs(k + 1);
            LongerOK(t, Table(), k + 1);
            ExtendedBy(t, t, Table(), k + 1);
          }
          if res == FR_NO_FILE || res == FR_DENIED { AllInUse(t, k + 1); }
        }
      }
    }

    /** Reserve a free slot: the first one, or one in a new cluster. */
    method Alloc() returns (res: FResult)
      requires OK() && DirOK(Table())
      modifies `index, `clust, `sect, `off, `chain, fs`winsect, fs`wflag, fs`media, fs`durable, fs`direct, fs`faults
      modifies fs`log, fs`fat, fs`cuts, fs.win
      modifies fs`lastClust, fs`freeClust, fs`fsiFlag
      ensures fs.Valid() && fs.faults >= old(fs.faults)
      ensures CutsHold(fs.g.fsType, old(fs.cuts)) ==> CutsHold(fs.g.fsType, fs.cuts)
      ensures res != FR_DISK_ERR && Exact(old(fs.freeClust), old(fs.fat)) ==> Exact(fs.freeClust, fs.fat)
      ensures res == FR_OK || (res == FR_DISK_ERR && fs.faults > old(fs.faults)) || res == FR_DENIED
      ensures res != FR_DISK_ERR ==> OK() && DirOK(Table()) && Bindings(Table()) == old(Bindings(Table()))
      ensures res == FR_OK ==> At(index) && FirstFree(Table(), index)
      ensures res == FR_DENIED ==> NoFreeSlot(Table()) && (NoneFree(fs.fat) || chain == [] || |Table()| >= 0x1_0000)
      ensures res != FR_DISK_ERR ==> DirStays(fs.g, old(fs.fat), old(chain), old(fs.Now()), fs.fat, chain, fs.Now())
      ensures res != FR_DISK_ERR ==> Extended(old(Table()), Table())
      ensures res == FR_OK ==>
                index < |Table()| && Marked(Table()[index]) && forall i :: 0 <= i < index ==> !Marked(Table()[i])
      ensures res == FR_DENIED ==> forall i :: 0 <= i < |Table()| && i < 0x1_0000 ==> !Marked(Table()[i])
    {
      hide *;
      OKIs();
      TableFacts(fs.g, fs.fat, sclust, chain);
      fs.Facts();
      ExtendedSame(Table());
      res := SetIndex(0);
      OKIs();
      if res != FR_OK { return; }
      AtIs(0);
      FreeNone(Table());
      ExtendedSame(Table());
      var found := false;
      while res == FR_OK && !found
        invariant fs.Valid() && fs.faults >= old(fs.faults)
        invariant CutsHold(fs.g.fsType, old(fs.cuts)) ==> CutsHold(fs.g.fsType, fs.cuts)
        invariant res != FR_DISK_ERR && Exact(old(fs.freeClust), old(fs.fat)) ==> Exact(fs.freeClust, fs.fat)
        invariant || res == FR_OK || (res == FR_DISK_ERR && fs.faults > old(fs.faults)) || res == FR_NO_FILE
                  || res == FR_DENIED
        invariant res != FR_DISK_ERR ==> OK() && DirOK(Table()) && Bindings(Table()) == old(Bindings(Table()))
        invariant res == FR_NO_FILE || res == FR_DENIED ==>
                  NoFreeSlot(Table()) && (NoneFree(fs.fat) || chain == [] || |Table()| >= 0x1_0000)
        invariant res == FR_OK ==> At(index) && index < 0x1_0000 && NoFreeBefore(Table(), index)
        invariant found ==> res == FR_OK && FirstFree(Table(), index)
        invariant res != FR_DISK_ERR ==> Extended(old(Table()), Table())
        invariant res != FR_DISK_ERR ==> DirStays(fs.g, old(fs.fat), old(chain), old(fs.Now()), fs.fat, chain, fs.Now())
        decreases if res == FR_OK && !found then 0x1_0000 - index else 0
      {
        OKIs();
        ghost var f1, c1, a1, t1 := fs.fat, chain, fs.Now(), Table();
        res, found := TrySlot();
        if res != FR_DISK_ERR {
          DirTrans(fs.g, old(fs.fat), old(chain), old(fs.Now()), f1, c1, a1, fs.fat, chain, fs.Now());
          ExtendedTrans(old(Table()), t1, Table());
        }
      }
      if res == FR_NO_FILE { res := FR_DENIED; }
      FirstMarked(Table(), index);
    }

    /** Replace the current entry. */
    method WriteSlot(e: Slot) returns (res: FResult)
      requires OK() && At(index)
      modifies fs`winsect, fs`wflag, fs`media, fs`durable, fs`faults, fs`log, fs`fat, fs`cuts, fs.win
      ensures OK() && fs.faults >= old(fs.faults) && fs.fat == old(fs.fat) && index < |old(Table())|
      ensures CutsHold(fs.g.fsType, old(fs.cuts)) ==> CutsHold(fs.g.fsType, fs.cuts)
      ensures res == FR_OK ==> Table() == old(Table())[index := e] && fs.wflag && fs.winsect == sect
      ensures res != FR_OK ==> res == FR_DISK_ERR && fs.faults > old(fs.faults) && Table() == old(Table())
      ensures DirStays(fs.g, old(fs.fat), old(chain), old(fs.Now()), fs.fat, chain, fs.Now())
    {
      hide *;
      OKIs();
      AtIs(index);
      fs.Facts();
      PlaceInside(fs.g, chain, index, sect, clust, off);
      TableSector(fs.g, fs.fat, sclust, chain, index / 16);
      TableHeap(fs.g, fs.fat, sclust, chain);
      ghost var v, t, a := fs.View(), Table(), fs.Now();
      ReachAt(fs.g, chain, index / 16);
      res := fs.MoveWindow(sect);
      fs.Facts();
      SameIs(fs.g, v, fs.View());
      Same(v, t);
      WindowStep(fs.g, Reach(fs.g, chain), fs.fat, a, v, fs.Now(), sect, v[sect]);
      DirWindow(fs.g, fs.fat, chain, a, fs.Now());
      OKIs();
      if res == FR_OK {
        ghost var a1 := fs.Now();
        ghost var v1 := fs.View();
        SlotStored(fs.g, fs.fat, sclust, chain, v1, index, e);
        fs.Store(off, e);
        CutsMore(fs.g.fsType, old(fs.cuts), fs.fat);
        OKIntro();
        OKIs();
        fs.Facts();
        SectorStored(v1, sect, off, e);
        SameSelf(fs.g, fs.View());
        WindowStep(fs.g, Reach(fs.g, chain), fs.fat, a1, fs.View(), fs.Now(), sect, fs.View()[sect]);
        DirWindow(fs.g, fs.fat, chain, a1, fs.Now());
        DirTrans(fs.g, fs.fat, chain, a, fs.fat, chain, a1, fs.fat, chain, fs.Now());
      }
    }

    /** Register the name: one binding more, in a blank entry. */
    method Register() returns (res: FResult)
      requires OK() && DirOK(Table()) && Storable(fn) && fn !in Bindings(Table())
      modifies `index, `clust, `sect, `off, `chain, fs`winsect, fs`wflag, fs`media, fs`durable, fs`direct, fs`faults
      modifies fs`log, fs`fat, fs`cuts, fs.win
      modifies fs`lastClust, fs`freeClust, fs`fsiFlag
      ensures fs.Valid() && fs.faults >= old(fs.faults)
      ensures CutsHold(fs.g.fsType, old(fs.cuts)) ==> CutsHold(fs.g.fsType, fs.cuts)
      ensures res != FR_DISK_ERR && Exact(old(fs.freeClust), old(fs.fat)) ==> Exact(fs.freeClust, fs.fat)
      ensures res == FR_OK || (res == FR_DISK_ERR && fs.faults > old(fs.faults)) || res == FR_DENIED
      ensures res == FR_OK ==> OK() && DirOK(Table()) && Bindings(Table()) == old(Bindings(Table()))[fn := NewEntry(fn)]
      ensures res == FR_OK ==> index < |Table()| && At(index) && Table()[index] == NewEntry(fn)
      ensures res == FR_OK ==> Placed(old(Table()), Table(), index, NewEntry(fn)) && fs.winsect == sect
      ensures res == FR_DENIED ==>
                OK() && DirOK(Table()) && Bindings(Table()) == old(Bindings(Table())) && Extended(old(Table()), Table())
      ensures res == FR_DENIED ==> NoFreeSlot(Table()) && (NoneFree(fs.fat) || chain == [] || |Table()| >= 0x1_0000)
      ensures res != FR_DISK_ERR ==> DirStays(fs.g, old(fs.fat), old(chain), old(fs.Now()), fs.fat, chain, fs.Now())
      ensures res == FR_OK ==>
                && index < |Table()| && Table()[index][..11] == fn
                && forall k :: 11 <= k < 32 ==> Table()[index][k] == 0
    {
      hide *;
      OKIs();
      fs.Facts();
      res := Alloc();
      if res == FR_OK {
        ghost var f1, c1, a1 := fs.fat, chain, fs.Now();
        AtIs(index);
        RegisteredAt(Table(), index, fn);
        NewEntryBytes(fn);
        PlacedIntro(old(Table()), Table(), index, NewEntry(fn));
        res := WriteSlot(NewEntry(fn));
        DirTrans(fs.g, old(fs.fat), old(chain), old(fs.Now()), f1, c1, a1, fs.fat, chain, fs.Now());
        OKIs();
      }
    }

    /** Remove the entry that the object is at: one binding less. */
    method Remove() returns (res: FResult)
      requires OK() && At(index) && DirOK(Table()) && index < |Table()| && Live(Table()[index])
      modifies `index, `clust, `sect, `off, fs`winsect, fs`wflag, fs`media, fs`durable, fs`faults, fs`log, fs`fat
      modifies fs`cuts, fs.win
      ensures OK() && fs.faults >= old(fs.faults) && fs.fat == old(fs.fat)
      ensures CutsHold(fs.g.fsType, old(fs.cuts)) ==> CutsHold(fs.g.fsType, fs.cuts)
      ensures res == FR_OK || (res == FR_DISK_ERR && fs.faults > old(fs.faults) && Table() == old(Table()))
      ensures res == FR_OK ==>
                DirOK(Table()) && Bindings(Table()) == old(Bindings(Table())) - {Name(old(Table()[index]))}
      ensures DirStays(fs.g, old(fs.fat), old(chain), old(fs.Now()), fs.fat, chain, fs.Now())
      ensures res == FR_OK ==> Table() == old(Table()[index := Deleted()])
      ensures res == FR_OK ==> index == old(index)
      ensures res == FR_OK ==>
                && index < |Table()| && Table()[index][0] == 0xE5
                && forall k :: 1 <= k < 32 ==> Table()[index][k] == 0
    {
      hide *;
      OKIs();
      AtIs(index);
      Deregistered(Table(), index);
      DeletedBytes();
      fs.Facts();
      ghost var i := index;
      res := SetIndex(index);
      if res == FR_OK {
        AtIs(i);
        ghost var a1 := fs.Now();
        res := WriteSlot(Deleted());
        DirTrans(fs.g, fs.fat, chain, old(fs.Now()), fs.fat, chain, a1, fs.fat, chain, fs.Now());
      }
    }

    // ---------- Overwriting ----------

    /** Empty the file of the current entry: the entry is cleared first, then its chain is released
        from the head on, so that no cut leaves a link to a free cluster. */
    method Overwrite(tm: nat, ghost ch: seq<nat>) returns (res: FResult)
      requires OK() && At(index) && DirOK(Table()) && index < |Table()| && Live(Entry()) && tm < 0x1_0000_0000
      requires OtherChain(fs.fat, chain, ch, ClusterIn(fs.g, Entry()))
      modifies fs`winsect, fs`wflag, fs`media, fs`durable, fs`faults, fs`log, fs`fat, fs`cuts, fs.win
      modifies fs`lastClust, fs`freeClust, fs`fsiFlag
      ensures fs.Valid() && fs.faults >= old(fs.faults)
      ensures res == FR_OK || (res == FR_DISK_ERR && fs.faults > old(fs.faults))
      ensures CutsHold(fs.g.fsType, old(fs.cuts)) ==> CutsHold(fs.g.fsType, fs.cuts)
      ensures res == FR_OK && Exact(old(fs.freeClust), old(fs.fat)) ==> Exact(fs.freeClust, fs.fat)
      ensures res == FR_OK ==> OK() && DirOK(Table()) && FreedChain(old(fs.fat), fs.fat, ch) && fs.winsect == sect
      ensures res == FR_OK ==>
                Rewritten(old(Table()), Table(), index, Emptied(old(Entry()), tm)) && fs.direct == old(fs.direct)
      ensures res == FR_OK ==>
                Clusters(fs.g, chain) && Within(fs.g, Mine(old(fs.fat), chain) + ToSet(ch), Reach(fs.g, chain),
                                                old(fs.fat), old(fs.Now()), fs.fat, fs.Now())
      ensures res == FR_OK && ClusterIn(fs.g, old(Entry())) != 0 ==> fs.lastClust == ClusterIn(fs.g, old(Entry())) - 1
    {
      hide *;
      OKIs();
      fs.Facts();
      ghost var t, a0 := Table(), fs.Now();
      SetMore(Mine(fs.fat, chain) + ToSet(ch));
      EntryIs();
      EmptiedIs(fs.g, t[index], tm);
      var e;
      res, e := Peek();
      OKIs();
      if res == FR_OK {
        AtIs(index);
        TableSector(fs.g, fs.fat, sclust, chain, index / 16);
        var cl := ClusterIn(fs.g, e);
        RewrittenIntro(t, index, Emptied(t[index], tm));
        ghost var a1 := fs.Now();
        res := WriteSlot(Emptied(e, tm));
        OKIs();
        if res == FR_OK {
          ghost var f1, a2 := fs.fat, fs.Now();
          DirTrans(fs.g, f1, chain, a0, f1, chain, a1, f1, chain, a2);
          DirStaysIs(fs.g, f1, chain, a0, f1, chain, a2);
          WithinMore(fs.g, Mine(f1, chain), Mine(f1, chain) + ToSet(ch), Reach(fs.g, chain), Reach(fs.g, chain), f1, a0,
                     f1, a2);
          if cl != 0 { res := ReleaseOther(cl, ch); } else { NothingFreed(fs.fat, chain, ch); }
          if res == FR_OK && cl != 0 {
            WithinTrans(fs.g, Mine(f1, chain) + ToSet(ch), Reach(fs.g, chain), f1, a0, f1, a2, fs.fat, fs.Now());
          }
        }
      }
    }

    /** Release a chain that is not this directory's, and bring the window back. */
    method ReleaseOther(cl: nat, ghost ch: seq<nat>) returns (res: FResult)
      requires Clusters(fs.g, chain) && OK() && cl != 0 && OtherChain(fs.fat, chain, ch, cl) && fs.winsect < fs.g.nsect
      requires !fs.g.InFat2(fs.winsect)
      modifies fs`winsect, fs`wflag, fs`media, fs`durable, fs`faults, fs`log, fs`fat, fs`cuts, fs.win
      modifies fs`lastClust, fs`freeClust, fs`fsiFlag
      ensures fs.Valid() && fs.faults >= old(fs.faults)
      ensures res == FR_OK || (res == FR_DISK_ERR && fs.faults > old(fs.faults))
      ensures CutsHold(fs.g.fsType, old(fs.cuts)) ==> CutsHold(fs.g.fsType, fs.cuts)
      ensures res == FR_OK && Exact(old(fs.freeClust), old(fs.fat)) ==> Exact(fs.freeClust, fs.fat)
      ensures res == FR_OK ==> OK() && Table() == old(Table()) && FreedChain(old(fs.fat), fs.fat, ch)
      ensures res == FR_OK && old(fs.winsect in TableSecs(fs.g, chain)) ==>
                Clusters(fs.g, chain) && Within(fs.g, Mine(old(fs.fat), chain) + ToSet(ch), Reach(fs.g, chain),
                                                old(fs.fat), old(fs.Now()), fs.fat, fs.Now())
      ensures res == FR_OK ==> fs.winsect == old(fs.winsect)
      ensures res == FR_OK ==> fs.lastClust == cl - 1
    {
      hide *;
      OKIs();
      fs.Facts();
      fs.CountsFit();
      TableHeap(fs.g, fs.fat, sclust, chain);
      OtherHead(fs.fat, chain, ch, cl);
      ghost var f, a, t := fs.fat, fs.Now(), Table();
      var dw := fs.winsect;
      res := RemoveChain(fs, cl);
      fs.Facts();
      ReleasingCuts(fs.g.fsType, f, cl, old(fs.cuts), fs.fat, fs.cuts, res);
      if res != FR_DISK_ERR {
        FreedBeside(fs.g, f, sclust, chain, ch, cl, fs.fat, old(fs.freeClust), fs.freeClust, res);
        SameStep(a, t);
        OKIs();
        fs.lastClust := cl - 1;
        ghost var v, a1 := fs.View(), fs.Now();
        res := fs.MoveWindow(dw);
        fs.Facts();
        SameIs(fs.g, v, fs.View());
        Same(v, t);
        if res == FR_OK && dw in TableSecs(fs.g, chain) {
          ReachIn(fs.g, chain, dw);
          FreedOnly(f, fs.fat, chain, ch);
          FatWithin(fs.g, Mine(f, chain) + ToSet(ch), Reach(fs.g, chain), f, fs.fat, a, a1);
          WindowStep(fs.g, Reach(fs.g, chain), fs.fat, a1, v, fs.Now(), dw, v[dw]);
          SetMore(Mine(f, chain) + ToSet(ch));
          WithinMore(fs.g, {}, Mine(f, chain) + ToSet(ch), Reach(fs.g, chain), Reach(fs.g, chain), fs.fat, a1, fs.fat,
                     fs.Now());
          WithinTrans(fs.g, Mine(f, chain) + ToSet(ch), Reach(fs.g, chain), f, a, fs.fat, a1, fs.fat, fs.Now());
        }
      }
    }
  }
}
